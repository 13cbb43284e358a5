/** Small value types shared by every module of the model: optional values
    (Java's nullable references), exceptions, and handler identities. */
module Lang {

  /** A Java reference that may be null. */
  datatype Option<+T> = None | Some(value: T)

  /** A Java exception, identified by its class and message. */
  datatype Throwable = Throwable(className: string, message: string)

  /** Identity of a completion-handler object passed in by a caller. The handler's own
      code is outside the model: a call into it is recorded as an event. */
  type HandlerId = nat

  /** Number of occurrences of `x` in `s`. */
  function Count<T(==)>(s: seq<T>, x: T): (n: nat)
    ensures n <= |s|
    ensures n == 0 <==> x !in s
  {
    if s == [] then 0 else Count(s[..|s| - 1], x) + (if s[|s| - 1] == x then 1 else 0)
  }

  lemma {:induction false} CountAppend<T>(a: seq<T>, b: seq<T>, x: T)
    ensures Count(a + b, x) == Count(a, x) + Count(b, x)
    decreases |b|
  {
    if b == [] {
      assert a + b == a;
    } else {
      assert (a + b)[..|a + b| - 1] == a + b[..|b| - 1];
      CountAppend(a, b[..|b| - 1], x);
    }
  }
}
