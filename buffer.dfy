/** The growable byte buffer of async-api-tests (io/Buffer.java).

    A Buffer wraps a ByteBuffer that may be absent. A fixed buffer gets its exact size
    at construction and never grows while it has storage (after clear() the next
    append allocates 16384 bytes, as for any buffer without storage); a dynamic one is
    allocated 16384 bytes on first use and, when an append does not fit, is
    reallocated once per append to its limit plus 16384 bytes (which can be less than
    its capacity), as long as its capacity plus 16384 stays within 1,024,000.

    BufferState is the value view (the optional storage and the mode) and its member
    functions are the operations; the class Buffer is proved against them. */
module AsyncBuffer {
  import opened Lang
  import opened Nio

  const SMALL_BUFFER_SIZE: nat := 16384
  const MAX_BUFFER_SIZE: nat := 1024000

  /** How an operation ends: normally, or with the exception the source throws. */
  datatype Status = Ok | BufferOverflow | BufferUnderflow | IllegalState | IllegalArgument

  /** The result of an operation: how it ended and the buffer afterwards. */
  datatype Outcome = Outcome(status: Status, state: BufferState)

  /** The result of a read: the bytes handed back, if any, and the buffer afterwards. */
  datatype ReadResult = ReadResult(status: Status, bytes: Option<seq<byte>>, state: BufferState)

  /** The storage a growth step installs: a new buffer of the old limit plus 16384 bytes,
      into which the flipped old buffer (its bytes [0, position)) is put. */
  function Grown(r: Region): (g: Region)
    requires r.Valid()
    ensures g.Valid()
    ensures g.Capacity() == r.limit + SMALL_BUFFER_SIZE && g.limit == g.Capacity()
    ensures g.position == r.position
    ensures g.content[..g.position] == r.content[..r.position]
  {
    var newBuff := NewRegion(r.limit + SMALL_BUFFER_SIZE);
    var written := r.Flip().Readable();
    newBuff.Put(written).value
  }

  datatype BufferState = BufferState(storage: Option<Region>, dynamic: bool) {

    predicate Valid() { storage.Some? ==> storage.value.Valid() }

    /** The bound that buffers built by the no-arg and sized constructors keep. */
    predicate Bounded() { storage.Some? ==> storage.value.Capacity() <= MAX_BUFFER_SIZE }

    /** position(): 0 without storage. */
    function Position(): nat
    {
      if storage.None? then 0 else storage.value.position
    }

    /** capacity(): 16384 without storage. */
    function Capacity(): nat
    {
      if storage.None? then SMALL_BUFFER_SIZE else storage.value.Capacity()
    }

    /** remaining(): 16384 without storage. */
    function Remaining(): nat
      requires Valid()
    {
      if storage.None? then SMALL_BUFFER_SIZE else storage.value.Remaining()
    }

    /** The bytes written before the position. */
    function Written(): (w: seq<byte>)
      requires Valid()
      ensures |w| == Position()
    {
      if storage.None? then [] else storage.value.content[..storage.value.position]
    }

    /** clear(): the storage is dropped. */
    function Clear(): (s: BufferState)
      ensures s.Valid() && s.Bounded() && s.storage.None? && s.dynamic == dynamic
    {
      BufferState(None, dynamic)
    }

    function Flip(): (s: BufferState)
      requires Valid()
      ensures s.Valid() && s.dynamic == dynamic && s.storage.Some? == storage.Some?
      ensures storage.Some? ==> s.storage.value == storage.value.Flip()
    {
      if storage.None? then this else BufferState(Some(storage.value.Flip()), dynamic)
    }

    function Rewind(): (s: BufferState)
      requires Valid()
      ensures s.Valid() && s.dynamic == dynamic && s.storage.Some? == storage.Some?
      ensures storage.Some? ==> s.storage.value == storage.value.Rewind()
    {
      if storage.None? then this else BufferState(Some(storage.value.Rewind()), dynamic)
    }

    /** ensureCapacity(atLeast): allocate 16384 bytes when there is no storage, whatever
        is asked; otherwise grow a dynamic buffer once when fewer than atLeast bytes
        remain, or fail with IllegalStateException when that would pass the ceiling. */
    function EnsureCapacity(atLeast: int): (o: Outcome)
      requires Valid()
      ensures o.state.Valid() && o.state.dynamic == dynamic && o.state.storage.Some?
      ensures o.status in {Ok, IllegalState}
      ensures storage.None? ==> o.status == Ok && o.state.storage.value == NewRegion(SMALL_BUFFER_SIZE)
      ensures storage.Some? ==>
        (o.status == IllegalState <==>
           dynamic && Remaining() < atLeast && Capacity() + SMALL_BUFFER_SIZE > MAX_BUFFER_SIZE)
      ensures storage.Some? && !(dynamic && Remaining() < atLeast) ==> o.state == this
      ensures o.status == IllegalState ==> o.state == this
      ensures o.status == Ok && storage.Some? && dynamic && Remaining() < atLeast ==>
        o.state.storage.value == Grown(storage.value)
      ensures o.state.Position() == Position() && o.state.Written() == Written()
    {
      if storage.None? then
        Outcome(Ok, BufferState(Some(NewRegion(SMALL_BUFFER_SIZE)), dynamic))
      else if dynamic && storage.value.Remaining() < atLeast then
        if storage.value.Capacity() + SMALL_BUFFER_SIZE <= MAX_BUFFER_SIZE then
          Outcome(Ok, BufferState(Some(Grown(storage.value)), dynamic))
        else
          Outcome(IllegalState, this)
      else
        Outcome(Ok, this)
    }

    /** append(byte[]) and friends: make room for the bytes, then put them; an append that
        still does not fit is a BufferOverflowException, and any allocation or growth
        made on the way is kept. */
    function Append(bytes: seq<byte>): (o: Outcome)
      requires Valid()
      ensures o.state.Valid() && o.state.dynamic == dynamic && o.state.storage.Some?
      ensures o.status in {Ok, BufferOverflow, IllegalState}
      ensures o.status == Ok ==>
        o.state.Position() == Position() + |bytes| && o.state.Written() == Written() + bytes
      ensures o.status != Ok ==> o.state.Position() == Position() && o.state.Written() == Written()
      ensures o.status == IllegalState ==> o.state == this
    {
      var e := EnsureCapacity(|bytes|);
      if e.status != Ok then e
      else
        var r := e.state.storage.value;
        match r.Put(bytes)
        case None => Outcome(BufferOverflow, e.state)
        case Some(q) =>
          assert q.content[..q.position] == r.content[..r.position] + bytes;
          Outcome(Ok, BufferState(Some(q), dynamic))
    }

    /** append(String): the text is encoded and room is made for s.length() bytes. */
    function AppendString(text: string): Outcome
      requires Valid()
    {
      Append(EncodeLatin1(text))
    }

    /** getAsString(): everything between position and limit, decoded; null without
        storage. */
    function GetAsString(): (r: ReadResult)
      requires Valid()
      ensures r.state.Valid() && r.status == Ok
      ensures storage.None? ==> r.bytes.None? && r.state == this
      ensures storage.Some? ==> (r.bytes == Some(storage.value.Readable())
        && r.state == BufferState(Some(Region(storage.value.content, storage.value.limit, storage.value.limit)), dynamic))
    {
      if storage.None? then ReadResult(Ok, None, this)
      else
        var t := storage.value.Get(storage.value.Remaining()).value;
        ReadResult(Ok, Some(t.bytes), BufferState(Some(t.rest), dynamic))
    }

    /** get(byte[] of length n): fills the array from the buffer, or underflows; without
        storage the array is left as it was. */
    function GetBytes(n: nat): (r: ReadResult)
      requires Valid()
      ensures r.state.Valid()
      ensures storage.None? ==> r == ReadResult(Ok, None, this)
      ensures storage.Some? && n > Remaining() ==> r == ReadResult(BufferUnderflow, None, this)
      ensures storage.Some? && n <= Remaining() ==>
        r.status == Ok && r.bytes == Some(storage.value.Readable()[..n])
        && r.state.Position() == Position() + n
        && r.state == BufferState(Some(Region(storage.value.content, storage.value.position + n, storage.value.limit)), dynamic)
    {
      if storage.None? then ReadResult(Ok, None, this)
      else match storage.value.Get(n)
        case None => ReadResult(BufferUnderflow, None, this)
        case Some(t) => ReadResult(Ok, Some(t.bytes), BufferState(Some(t.rest), dynamic))
    }

    /** get(): reads one byte when one remains, then throws BufferUnderflowException
        in every case. */
    function GetByte(): (o: Outcome)
      requires Valid()
      ensures o.status == BufferUnderflow && o.state.Valid()
      ensures o.state.Position() == if storage.Some? && Remaining() > 0 then Position() + 1 else Position()
      ensures o.state == if storage.Some? && Remaining() > 0
        then BufferState(Some(Region(storage.value.content, storage.value.position + 1, storage.value.limit)), dynamic)
        else this
    {
      if storage.Some? && storage.value.Remaining() > 0 then
        Outcome(BufferUnderflow, BufferState(Some(storage.value.Get(1).value.rest), dynamic))
      else
        Outcome(BufferUnderflow, this)
    }
  }

  /** new Buffer(): dynamic, no storage yet. */
  function NewDynamic(): (s: BufferState)
    ensures s.Valid() && s.Bounded() && s.dynamic && s.storage.None?
  {
    BufferState(None, true)
  }

  /** new Buffer(atLeast, fixed): None stands for IllegalArgumentException. A fixed
      buffer gets exactly atLeast bytes, up to 1,024,000 (a negative size is refused by
      the allocation itself); a dynamic one gets 16384 bytes whatever was asked. */
  function NewSized(atLeast: int, fixed: bool): (r: Option<BufferState>)
    ensures r.None? <==> fixed && (atLeast < 0 || atLeast > MAX_BUFFER_SIZE)
    ensures r.Some? ==> (r.value.Valid() && r.value.Bounded() && r.value.dynamic == !fixed
      && r.value.storage.Some? && r.value.Position() == 0
      && r.value.Capacity() == (if fixed then atLeast else SMALL_BUFFER_SIZE))
  {
    if fixed then
      if 0 <= atLeast <= MAX_BUFFER_SIZE then Some(BufferState(Some(NewRegion(atLeast)), false)) else None
    else
      Some(NewDynamic().EnsureCapacity(atLeast).state)
  }

  /** new Buffer(ByteBuffer): dynamic, starting from the given storage. */
  function Wrapped(r: Region): (s: BufferState)
    requires r.Valid()
    ensures s.Valid() && s.dynamic && s.storage == Some(r)
  {
    BufferState(Some(r), true)
  }

  // ---------------------------------------------------------------------------
  // Properties

  /** Without storage, position() is 0 and capacity() and remaining() report 16384;
      clear() returns to that state. */
  lemma NoStorageDefaults(s: BufferState)
    requires s.Valid()
    ensures s.Clear().Position() == 0
    ensures s.Clear().Capacity() == SMALL_BUFFER_SIZE && s.Clear().Remaining() == SMALL_BUFFER_SIZE
  {
  }

  /** A dynamic buffer's first allocation is 16384 bytes whatever was asked for, so a
      first append longer than that overflows. */
  lemma DynamicFirstAppend(bytes: seq<byte>)
    ensures var o := NewDynamic().Append(bytes);
      o.state.Capacity() == SMALL_BUFFER_SIZE
      && (o.status == Ok <==> |bytes| <= SMALL_BUFFER_SIZE)
      && (o.status != Ok ==> o.status == BufferOverflow)
  {
  }

  /** One growth step per append: when a dynamic buffer lacks room and the ceiling
      allows, the storage becomes limit + 16384 bytes holding the written bytes, and the
      append succeeds only if it fits in that; it never grows a second time. */
  lemma GrowsOncePerAppend(s: BufferState, bytes: seq<byte>)
    requires s.Valid() && s.dynamic && s.storage.Some?
    requires s.Remaining() < |bytes| && s.Capacity() + SMALL_BUFFER_SIZE <= MAX_BUFFER_SIZE
    ensures var o := s.Append(bytes); var r := s.storage.value;
      && o.state.Capacity() == r.limit + SMALL_BUFFER_SIZE
      && (o.status == Ok <==> |bytes| <= r.limit + SMALL_BUFFER_SIZE - r.position)
      && (o.status != Ok ==> o.status == BufferOverflow && o.state.storage.value == Grown(r))
  {
  }

  /** Past the ceiling a dynamic buffer refuses to grow with IllegalStateException and
      is left as it was. */
  lemma CeilingRefusesGrowth(s: BufferState, bytes: seq<byte>)
    requires s.Valid() && s.dynamic && s.storage.Some?
    requires s.Remaining() < |bytes| && s.Capacity() + SMALL_BUFFER_SIZE > MAX_BUFFER_SIZE
    ensures s.Append(bytes) == Outcome(IllegalState, s)
  {
  }

  /** A fixed buffer with storage never reallocates: an append either fits in the
      remaining space or overflows leaving the buffer exactly as it was. */
  lemma FixedNeverReallocates(s: BufferState, bytes: seq<byte>)
    requires s.Valid() && !s.dynamic && s.storage.Some?
    ensures var o := s.Append(bytes);
      && o.state.Capacity() == s.Capacity()
      && (o.status == Ok <==> |bytes| <= s.Remaining())
      && (o.status != Ok ==> o == Outcome(BufferOverflow, s))
  {
  }

  /** clear() drops the storage of a fixed buffer too, and the next append allocates
      16384 bytes whatever size the buffer was built with: the buffer stays fixed, but
      at the new size. */
  lemma ClearedFixedReallocates(s: BufferState, bytes: seq<byte>)
    requires s.Valid() && !s.dynamic
    ensures var o := s.Clear().Append(bytes);
      && !o.state.dynamic && o.state.Capacity() == SMALL_BUFFER_SIZE
      && (o.status == Ok <==> |bytes| <= SMALL_BUFFER_SIZE)
      && (o.status != Ok ==> o.status == BufferOverflow)
  {
  }

  /** Growth reallocates to limit + 16384 bytes, not capacity + 16384, so it can make
      the storage smaller: after flip() twice a 32768-byte buffer has limit 0, and an
      append that does not fit in it moves to 16384 bytes. */
  lemma GrowthCanShrink()
    ensures var s := BufferState(Some(Region(Zeros(32768), 0, 0)), true);
      var o := s.Append([1]);
      && s.Valid() && s.Capacity() == 32768
      && o.status == Ok && o.state.Capacity() == SMALL_BUFFER_SIZE
  {
  }

  /** The operations a caller can apply to a Buffer. append(ByteBuffer) has no case of
      its own: on the buffer's state it acts as AppendBytes of the source's readable
      bytes (Buffer.AppendBuffer's contract), so the bounds below cover it. */
  datatype Op =
    | AppendBytes(bytes: seq<byte>)
    | AppendText(text: string)
    | FlipOp
    | RewindOp
    | ClearOp
    | GetAsStringOp
    | GetBytesOp(n: nat)
    | GetByteOp

  function Step(s: BufferState, op: Op): (t: BufferState)
    requires s.Valid()
    ensures t.Valid()
  {
    match op
    case AppendBytes(b) => s.Append(b).state
    case AppendText(text) => s.AppendString(text).state
    case FlipOp => s.Flip()
    case RewindOp => s.Rewind()
    case ClearOp => s.Clear()
    case GetAsStringOp => s.GetAsString().state
    case GetBytesOp(n) => s.GetBytes(n).state
    case GetByteOp => s.GetByte().state
  }

  function Run(s: BufferState, ops: seq<Op>): (t: BufferState)
    requires s.Valid()
    ensures t.Valid()
    decreases |ops|
  {
    if ops == [] then s else Step(Run(s, ops[..|ops| - 1]), ops[|ops| - 1])
  }

  /** No single operation takes a bounded buffer past 1,024,000 bytes. */
  lemma StepKeepsBound(s: BufferState, op: Op)
    requires s.Valid() && s.Bounded()
    ensures Step(s, op).Bounded()
  {
    match op
    case AppendBytes(b) =>
      assert s.Append(b).state.Bounded();
    case AppendText(text) =>
      assert s.Append(EncodeLatin1(text)).state.Bounded();
    case _ =>
  }

  /** A buffer from new Buffer() or new Buffer(n, fixed) never holds more than
      1,024,000 bytes, whatever sequence of operations is applied to it. */
  lemma {:induction false} CapacityNeverExceedsMax(atLeast: int, fixed: bool, ops: seq<Op>)
    ensures Run(NewDynamic(), ops).Capacity() <= MAX_BUFFER_SIZE
    ensures NewSized(atLeast, fixed).Some? ==> Run(NewSized(atLeast, fixed).value, ops).Capacity() <= MAX_BUFFER_SIZE
  {
    RunKeepsBound(NewDynamic(), ops);
    if NewSized(atLeast, fixed).Some? {
      RunKeepsBound(NewSized(atLeast, fixed).value, ops);
    }
  }

  lemma {:induction false} RunKeepsBound(s: BufferState, ops: seq<Op>)
    requires s.Valid() && s.Bounded()
    ensures Run(s, ops).Bounded()
    decreases |ops|
  {
    if ops != [] {
      RunKeepsBound(s, ops[..|ops| - 1]);
      StepKeepsBound(Run(s, ops[..|ops| - 1]), ops[|ops| - 1]);
    }
  }

  /** Three appends of 10,000 bytes to new Buffer() all succeed (the second one grows
      the storage to 32768 bytes) and leave the position at 30,000. */
  lemma ThreeAppendsOf10000(b1: seq<byte>, b2: seq<byte>, b3: seq<byte>)
    requires |b1| == |b2| == |b3| == 10000
    ensures var o1 := NewDynamic().Append(b1);
      var o2 := o1.state.Append(b2);
      var o3 := o2.state.Append(b3);
      && o1.status == Ok && o2.status == Ok && o3.status == Ok
      && o3.state.Position() == 30000 && o3.state.Capacity() == 32768
  {
    var o1 := NewDynamic().Append(b1);
    assert o1.state.storage.value.Capacity() == 16384 && o1.state.Position() == 10000;
    var o2 := o1.state.Append(b2);
    assert o2.state.storage.value == o1.state.EnsureCapacity(10000).state.storage.value.Put(b2).value;
    assert o2.state.Capacity() == 32768 && o2.state.Position() == 20000;
  }

  /** Round trip: after an append, flip() then getAsString() returns everything written
      from position 0, ending with the appended text. */
  lemma {:induction false} AppendFlipGetAsString(s: BufferState, text: string)
    requires s.Valid() && IsLatin1(text) && s.AppendString(text).status == Ok
    ensures s.AppendString(text).state.Flip().GetAsString().bytes
      == Some(s.Written() + EncodeLatin1(text))
    ensures DecodeLatin1(s.AppendString(text).state.Flip().GetAsString().bytes.value)
      == DecodeLatin1(s.Written()) + text
  {
    var t := s.AppendString(text).state;
    assert t.Flip().storage.value.Readable() == t.Written();
    DecodeLatin1Append(s.Written(), EncodeLatin1(text));
    Latin1RoundTrip(text);
  }

  /** new Buffer().append(text).flip().getAsString() is the text itself when it fits
      in the first 16384 bytes. */
  lemma HelloWorldRoundTrip(text: string)
    requires IsLatin1(text) && |text| <= SMALL_BUFFER_SIZE
    ensures NewDynamic().AppendString(text).status == Ok
    ensures DecodeLatin1(NewDynamic().AppendString(text).state.Flip().GetAsString().bytes.value) == text
  {
    AppendFlipGetAsString(NewDynamic(), text);
  }

  /** new Buffer(10, true).append("Hello World!") overflows. */
  lemma FixedTenOverflows()
    ensures NewSized(10, true).Some?
    ensures NewSized(10, true).value.AppendString("Hello World!").status == BufferOverflow
  {
    FixedNeverReallocates(NewSized(10, true).value, EncodeLatin1("Hello World!"));
  }

  // ---------------------------------------------------------------------------

  /** io/Buffer.java: a ByteBuffer that may be absent, and the mode. */
  class Buffer {
    var buffer: ByteBuffer?
    const dynamic: bool

    ghost function Repr(): set<object>
      reads this
    {
      if buffer == null then {this} else {this, buffer, buffer.data}
    }

    ghost predicate Valid()
      reads this, Repr()
    {
      buffer != null ==> buffer.Valid()
    }

    function Model(): (s: BufferState)
      reads this, Repr()
      requires Valid()
      ensures s.Valid() && s.dynamic == dynamic
    {
      BufferState(if buffer == null then None else Some(buffer.Model()), dynamic)
    }

    /** new Buffer() */
    constructor ()
      ensures Valid() && fresh(Repr()) && Model() == NewDynamic()
    {
      buffer := null;
      dynamic := true;
    }

    /** new Buffer(ByteBuffer): the given buffer object becomes the storage. */
    constructor Wrap(bufferToStartWith: ByteBuffer)
      requires bufferToStartWith.Valid()
      ensures Valid() && buffer == bufferToStartWith
      ensures Model() == Wrapped(bufferToStartWith.Model())
    {
      buffer := bufferToStartWith;
      dynamic := true;
    }

    /** The private step shared by new Buffer(atLeast, fixed): a buffer over freshly
        allocated storage, fixed or dynamic. */
    constructor Make(storage: ByteBuffer, isDynamic: bool)
      requires storage.Valid()
      ensures Valid() && buffer == storage && dynamic == isDynamic
    {
      buffer := storage;
      dynamic := isDynamic;
    }

    /** new Buffer(atLeast, fixed): None stands for IllegalArgumentException. */
    static method Sized(atLeast: int, fixed: bool) returns (r: Option<Buffer>)
      ensures r.None? <==> NewSized(atLeast, fixed).None?
      ensures r.Some? ==> (fresh(r.value.Repr()) && r.value.Valid()
        && r.value.Model() == NewSized(atLeast, fixed).value)
    {
      if fixed {
        if atLeast < 0 || atLeast > MAX_BUFFER_SIZE {
          return None;
        }
        var storage := new ByteBuffer.Allocate(atLeast);
        var b := new Buffer.Make(storage, false);
        return Some(b);
      }
      var storage := new ByteBuffer.Allocate(SMALL_BUFFER_SIZE);
      var b := new Buffer.Make(storage, true);
      return Some(b);
    }

    method Position() returns (p: nat)
      requires Valid()
      ensures p == Model().Position()
    {
      p := if buffer == null then 0 else buffer.position;
    }

    method Capacity() returns (c: nat)
      requires Valid()
      ensures c == Model().Capacity()
    {
      c := if buffer == null then SMALL_BUFFER_SIZE else buffer.data.Length;
    }

    method Remaining() returns (n: nat)
      requires Valid()
      ensures n == Model().Remaining()
    {
      n := if buffer == null then SMALL_BUFFER_SIZE else buffer.Remaining();
    }

    method Clear()
      requires Valid()
      modifies this
      ensures Valid() && Model() == old(Model()).Clear()
    {
      buffer := null;
    }

    method Flip()
      requires Valid()
      modifies Repr()
      ensures Valid() && Repr() == old(Repr()) && Model() == old(Model()).Flip()
    {
      if buffer != null {
        buffer.Flip();
      }
    }

    method Rewind()
      requires Valid()
      modifies Repr()
      ensures Valid() && Repr() == old(Repr()) && Model() == old(Model()).Rewind()
    {
      if buffer != null {
        buffer.Rewind();
      }
    }

    /** get(): always ends in BufferUnderflowException. */
    method GetByte() returns (st: Status)
      requires Valid()
      modifies Repr()
      ensures Valid() && Repr() == old(Repr())
      ensures st == old(Model()).GetByte().status && Model() == old(Model()).GetByte().state
    {
      if buffer != null && buffer.Remaining() > 0 {
        var _ := buffer.Get(1);
      }
      return BufferUnderflow;
    }

    /** get(byte[] of length n) */
    method GetBytes(n: nat) returns (st: Status, got: Option<seq<byte>>)
      requires Valid()
      modifies Repr()
      ensures Valid() && Repr() == old(Repr())
      ensures old(Model()).GetBytes(n) == ReadResult(st, got, Model())
    {
      if buffer == null {
        return Ok, None;
      }
      got := buffer.Get(n);
      st := if got.Some? then Ok else BufferUnderflow;
    }

    /** getAsString(): None stands for null. */
    method GetAsString() returns (text: Option<string>)
      requires Valid()
      modifies Repr()
      ensures Valid() && Repr() == old(Repr())
      ensures var r := old(Model()).GetAsString();
        Model() == r.state && text == if r.bytes.None? then None else Some(DecodeLatin1(r.bytes.value))
    {
      if buffer == null {
        return None;
      }
      var b := buffer.Get(buffer.Remaining());
      text := Some(DecodeLatin1(b.value));
    }

    method EnsureCapacity(atLeast: int) returns (st: Status)
      requires Valid()
      modifies Repr()
      ensures Valid() && fresh(Repr() - old(Repr())) && buffer != null
      ensures var o := old(Model()).EnsureCapacity(atLeast); st == o.status && Model() == o.state
      ensures old(buffer) != null && !(dynamic && old(buffer.limit - buffer.position) < atLeast) ==>
        buffer == old(buffer)
      ensures old(buffer) != null ==> unchanged(old(buffer).data)
      ensures old(buffer) != null && buffer != old(buffer) ==>
        old(buffer).position == old(buffer.position) && old(buffer).limit == old(buffer.position)
    {
      if buffer == null {
        buffer := new ByteBuffer.Allocate(SMALL_BUFFER_SIZE);
        return Ok;
      }
      if dynamic && buffer.Remaining() < atLeast {
        if buffer.data.Length + SMALL_BUFFER_SIZE <= MAX_BUFFER_SIZE {
          ghost var r := buffer.Model();
          var newBuff := new ByteBuffer.Allocate(buffer.limit + SMALL_BUFFER_SIZE);
          buffer.Flip();
          var moved := newBuff.PutBuffer(buffer);
          assert moved == Done;
          buffer := newBuff;
          assert Model().storage.value == Grown(r);
        } else {
          return IllegalState;
        }
      }
      return Ok;
    }

    /** append(byte[]) */
    method AppendBytes(b: seq<byte>) returns (st: Status)
      requires Valid()
      modifies Repr()
      ensures Valid() && fresh(Repr() - old(Repr()))
      ensures old(Model()).Append(b) == Outcome(st, Model())
    {
      st := EnsureCapacity(|b|);
      if st != Ok {
        return;
      }
      var ok := buffer.Put(b);
      st := if ok then Ok else BufferOverflow;
    }

    /** append(byte) */
    method AppendByte(b: byte) returns (st: Status)
      requires Valid()
      modifies Repr()
      ensures Valid() && fresh(Repr() - old(Repr()))
      ensures old(Model()).Append([b]) == Outcome(st, Model())
    {
      st := AppendBytes([b]);
    }

    /** append(String) */
    method AppendString(text: string) returns (st: Status)
      requires Valid()
      modifies Repr()
      ensures Valid() && fresh(Repr() - old(Repr()))
      ensures old(Model()).AppendString(text) == Outcome(st, Model())
    {
      st := AppendBytes(EncodeLatin1(text));
    }

    /** append(ByteBuffer): the source's remaining bytes; on success its position moves
        to its limit. Putting the storage into itself is IllegalArgumentException. */
    method AppendBuffer(src: ByteBuffer) returns (st: Status)
      requires Valid() && src.Valid()
      modifies Repr(), src
      ensures Valid() && fresh(Repr() - old(Repr()))
      ensures st == IllegalArgument <==> src == old(buffer)
      ensures st == IllegalArgument ==> src == buffer && Model() == old(Model())
      ensures st != IllegalArgument ==>
        old(Model()).Append(old(src.Model().Readable())) == Outcome(st, Model())
      ensures src != old(buffer) ==> src.limit == old(src.limit)
      ensures st == Ok ==> src.position == src.limit
      ensures st != Ok && src != old(buffer) ==> src.Model() == old(src.Model())
      ensures old(buffer) != null && buffer != old(buffer) ==>
        old(buffer).position == old(buffer.position) && old(buffer).limit == old(buffer.position)
    {
      ghost var bytes := src.Model().Readable();
      ghost var before := Model();
      ghost var aliased := src == buffer;
      assert !aliased ==> src !in Repr();
      st := EnsureCapacity(src.Remaining());
      if st != Ok {
        return;
      }
      ghost var e := before.EnsureCapacity(|bytes|);
      assert e.state == Model() && e.status == Ok;
      assert aliased ==> src == buffer;
      assert !aliased ==> src.Model().Readable() == bytes;
      var moved := buffer.PutBuffer(src);
      if moved == Done {
        st := Ok;
        assert before.Append(bytes) == Outcome(Ok, BufferState(Some(e.state.storage.value.Put(bytes).value), dynamic));
      } else if moved == Overflow {
        st := BufferOverflow;
        assert before.Append(bytes) == Outcome(BufferOverflow, e.state);
      } else {
        st := IllegalArgument;
      }
    }
  }
}
