/** The part of java.nio that the buffers of this model rely on: a heap byte buffer
    with capacity, limit and position, its bulk put and get, flip and rewind, and the
    ISO-8859-1 codec used wherever the source turns bytes into text or back.

    Region is the value view of a buffer (its whole backing content plus position and
    limit); ByteBuffer is the mutable object whose methods are proved against it. */
module Nio {
  import opened Lang

  /** A Java byte, taken as its unsigned value. */
  newtype byte = b: int | 0 <= b < 256

  /** A byte buffer as a value: `content` is the whole backing store, so its length is
      the capacity. A buffer object keeps 0 <= position <= limit <= capacity. */
  datatype Region = Region(content: seq<byte>, position: nat, limit: nat) {
    predicate Valid() { position <= limit <= |content| }
    function Capacity(): nat { |content| }
    function Remaining(): nat requires Valid() { limit - position }
    /** The bytes between position and limit: what a reader sees. */
    function Readable(): seq<byte> requires Valid() { content[position..limit] }

    /** Relative bulk put: None is BufferOverflowException, raised before any byte is
        written when `src` is longer than the remaining space. */
    function Put(src: seq<byte>): (o: Option<Region>)
      requires Valid()
      ensures o.None? <==> |src| > Remaining()
      ensures o.Some? ==> var q := o.value;
        && q.Valid() && q.Capacity() == Capacity() && q.limit == limit
        && q.position == position + |src|
        && q.content[position..q.position] == src
        && q.content[..position] == content[..position]
        && q.content[q.position..] == content[q.position..]
    {
      if |src| > limit - position then None
      else Some(Region(content[..position] + src + content[position + |src|..], position + |src|, limit))
    }

    /** flip(): the limit becomes the position and the position becomes 0. */
    function Flip(): (q: Region)
      requires Valid()
      ensures q.Valid() && q.content == content && q.limit == position && q.position == 0
      ensures q.Readable() == content[..position]
    {
      Region(content, 0, position)
    }

    /** rewind(): the position becomes 0, the limit stays. */
    function Rewind(): (q: Region)
      requires Valid()
      ensures q.Valid() && q.content == content && q.limit == limit && q.position == 0
    {
      Region(content, 0, limit)
    }

    /** Relative bulk get of n bytes: None is BufferUnderflowException, raised before any
        byte is read when fewer than n bytes remain. */
    function Get(n: nat): (o: Option<Taken>)
      requires Valid()
      ensures o.None? <==> n > Remaining()
      ensures o.Some? ==> var t := o.value;
        && t.rest.Valid() && |t.bytes| == n
        && t.bytes == Readable()[..n]
        && t.rest == Region(content, position + n, limit)
    {
      if n > limit - position then None
      else
        assert content[position..limit][..n] == content[position..position + n];
        Some(Taken(content[position..position + n], Region(content, position + n, limit)))
    }
  }

  /** What a bulk get hands back: the bytes read and the buffer afterwards. */
  datatype Taken = Taken(bytes: seq<byte>, rest: Region)

  function Zeros(n: nat): (z: seq<byte>)
    ensures |z| == n && forall i :: 0 <= i < n ==> z[i] == 0
  {
    seq(n, _ => 0)
  }

  /** ByteBuffer.allocate(n): n zero bytes, position 0, limit n. */
  function NewRegion(n: nat): (r: Region)
    ensures r.Valid() && r.Capacity() == n && r.position == 0 && r.limit == n
    ensures forall i :: 0 <= i < n ==> r.content[i] == 0
  {
    Region(Zeros(n), 0, n)
  }

  /** A put followed by a flip and a get of everything readable gives back exactly what
      was written since the last time the position was 0. */
  lemma {:induction false} PutFlipGet(r: Region, src: seq<byte>)
    requires r.Valid() && r.Put(src).Some?
    ensures var f := r.Put(src).value.Flip();
      f.Get(f.Remaining()) == Some(Taken(r.content[..r.position] + src, Region(f.content, f.limit, f.limit)))
  {
    var q := r.Put(src).value;
    assert q.content[..q.position] == q.content[..r.position] + q.content[r.position..q.position];
  }

  // ---------------------------------------------------------------------------
  // ISO-8859-1: each byte is the character with the same code; a character above
  // U+00FF is encoded as '?'.

  function DecodeLatin1(b: seq<byte>): (s: string)
    ensures |s| == |b|
    ensures forall i :: 0 <= i < |b| ==> s[i] as int == b[i] as int
  {
    if b == [] then "" else DecodeLatin1(b[..|b| - 1]) + [b[|b| - 1] as int as char]
  }

  function EncodeLatin1(s: string): (b: seq<byte>)
    ensures |b| == |s|
    ensures forall i :: 0 <= i < |s| ==> b[i] as int == if s[i] as int < 256 then s[i] as int else '?' as int
  {
    if s == "" then [] else EncodeLatin1(s[..|s| - 1]) + [if s[|s| - 1] as int < 256 then s[|s| - 1] as int as byte else '?' as int as byte]
  }

  predicate IsLatin1(s: string) { forall i :: 0 <= i < |s| ==> s[i] as int < 256 }

  /** Text made of ISO-8859-1 characters survives encoding and decoding. */
  lemma Latin1RoundTrip(s: string)
    requires IsLatin1(s)
    ensures DecodeLatin1(EncodeLatin1(s)) == s
  {
  }

  lemma DecodeLatin1Append(a: seq<byte>, b: seq<byte>)
    ensures DecodeLatin1(a + b) == DecodeLatin1(a) + DecodeLatin1(b)
  {
  }

  // ---------------------------------------------------------------------------

  /** A heap ByteBuffer. Its backing array never changes; position and limit do. */
  class ByteBuffer {
    const data: array<byte>
    var position: nat
    var limit: nat

    ghost predicate Valid()
      reads this
    {
      position <= limit <= data.Length
    }

    function Model(): (r: Region)
      reads this, data
      ensures r.Capacity() == data.Length
    {
      Region(data[..], position, limit)
    }

    constructor Allocate(capacity: nat)
      ensures Valid() && fresh(data)
      ensures Model() == NewRegion(capacity)
    {
      data := new byte[capacity](_ => 0);
      position, limit := 0, capacity;
    }

    function Remaining(): (n: nat)
      reads this
      requires Valid()
      ensures n == Model().Remaining()
    {
      limit - position
    }

    /** put(byte[]): copies `src` at the position and advances it, or reports overflow
        and changes nothing. */
    method Put(src: seq<byte>) returns (ok: bool)
      requires Valid()
      modifies this, data
      ensures Valid()
      ensures old(Model()).Put(src) == if ok then Some(Model()) else None
      ensures !ok ==> Model() == old(Model())
    {
      if |src| > limit - position {
        return false;
      }
      var i := 0;
      while i < |src|
        invariant 0 <= i <= |src|
        invariant position == old(position) && limit == old(limit)
        invariant forall k :: 0 <= k < data.Length ==>
          data[k] == if position <= k < position + i then src[k - position] else old(data[k])
      {
        data[position + i] := src[i];
        i := i + 1;
      }
      ghost var r := old(Model());
      assert data[..] == r.content[..r.position] + src + r.content[r.position + |src|..];
      position := position + |src|;
      ok := true;
    }

    /** put(ByteBuffer): the same transfer with the source's remaining bytes; the source's
        position moves to its limit. A buffer cannot be put into itself. */
    method PutBuffer(src: ByteBuffer) returns (r: PutOutcome)
      requires Valid() && src.Valid()
      modifies this, data, src
      ensures Valid() && src.limit == old(src.limit)
      ensures src == this ==> r == SameBuffer && Model() == old(Model())
      ensures src != this ==> var put := old(Model()).Put(old(src.Model().Readable()));
        && (r == Done <==> put.Some?)
        && (r == Done ==> Model() == put.value && src.position == src.limit)
        && (r != Done ==> r == Overflow && Model() == old(Model()) && src.position == old(src.position))
    {
      if src == this {
        return SameBuffer;
      }
      var bytes := src.data[src.position..src.limit];
      var ok := Put(bytes);
      if ok {
        src.position := src.limit;
        r := Done;
      } else {
        r := Overflow;
      }
    }

    /** get(byte[] of length n): the next n bytes, or underflow with nothing read. */
    method Get(n: nat) returns (got: Option<seq<byte>>)
      requires Valid()
      modifies this
      ensures Valid()
      ensures old(Model()).Get(n) == if got.Some? then Some(Taken(got.value, Model())) else None
      ensures got.None? ==> Model() == old(Model())
    {
      if n > limit - position {
        return None;
      }
      got := Some(data[position..position + n]);
      position := position + n;
    }

    method Flip()
      requires Valid()
      modifies this
      ensures Valid() && Model() == old(Model()).Flip()
    {
      limit := position;
      position := 0;
    }

    method Rewind()
      requires Valid()
      modifies this
      ensures Valid() && Model() == old(Model()).Rewind()
    {
      position := 0;
    }
  }

  /** How put(ByteBuffer) ends: the bytes moved, BufferOverflowException, or
      IllegalArgumentException for a buffer put into itself. */
  datatype PutOutcome = Done | Overflow | SameBuffer
}
