/** Ultimately periodic sequences: what a playlist with endless loops plays. */
module Streams {

  /** `pre` once, then `cyc` over and over; finite when `cyc` is empty. */
  datatype Stream<T> = Stream(pre: seq<T>, cyc: seq<T>) {

    predicate IsEmpty() { pre == [] && cyc == [] }

    function Head(): T
      requires !IsEmpty()
    {
      if pre != [] then pre[0] else cyc[0]
    }

    function Tail(): Stream<T>
      requires !IsEmpty()
    {
      if pre != [] then Stream(pre[1..], cyc) else Stream(cyc[1..], cyc)
    }

    /** This stream and, if it ends, `s` after it. */
    function Then(s: Stream<T>): Stream<T> {
      if cyc != [] then this else Stream(pre + s.pre, s.cyc)
    }
  }

  function Empty<T>(): Stream<T> { Stream([], []) }

  function Times<T>(n: nat, s: seq<T>): seq<T> {
    if n == 0 then [] else s + Times(n - 1, s)
  }

  /** `body` played `n` times over, for ever when `n` is negative. */
  function Again<T>(n: int, body: Stream<T>): Stream<T> {
    if n == 0 then Empty()
    else if body.cyc != [] then body
    else if n < 0 then Stream([], body.pre)
    else Stream(Times(n, body.pre), [])
  }

  datatype Entry<+T> = End | Entry(value: T)

  /** The element at position `k`, End past the end of a finite stream. */
  function Nth<T>(s: Stream<T>, k: nat): Entry<T>
    decreases k, s.pre == []
  {
    if k < |s.pre| then Entry(s.pre[k])
    else if s.cyc == [] then End
    else Nth(Stream(s.cyc, s.cyc), k - |s.pre|)
  }

  /** The same stream, though perhaps written differently. */
  ghost predicate Agree<T>(a: Stream<T>, b: Stream<T>) {
    a == b || (!a.IsEmpty() && !b.IsEmpty() && a.Head() == b.Head() && a.Tail() == b.Tail())
  }

  lemma ThenAssoc<T>(a: Stream<T>, b: Stream<T>, c: Stream<T>)
    ensures a.Then(b).Then(c) == a.Then(b.Then(c))
  {
    assert (a.pre + b.pre) + c.pre == a.pre + (b.pre + c.pre);
  }

  lemma ThenEmpty<T>(a: Stream<T>)
    ensures a.Then(Empty()) == a && Empty().Then(a) == a
  {
    assert a.pre + [] == a.pre && [] + a.pre == a.pre;
  }

  lemma ThenTail<T>(a: Stream<T>, b: Stream<T>)
    requires !a.IsEmpty()
    ensures !a.Then(b).IsEmpty() && a.Then(b).Head() == a.Head() && a.Then(b).Tail() == a.Tail().Then(b)
  {
    if a.pre != [] { assert (a.pre + b.pre)[1..] == a.pre[1..] + b.pre; }
  }

  lemma ThenAgree<T>(a: Stream<T>, b: Stream<T>, c: Stream<T>)
    requires Agree(a, b)
    ensures Agree(a.Then(c), b.Then(c))
  {
    if a != b { ThenTail(a, c); ThenTail(b, c); }
  }

  /** One more round: what a loop counter counts. */
  lemma AgainStep<T>(n: int, body: Stream<T>)
    requires n != 0 && !body.IsEmpty()
    ensures Agree(Again(n, body), body.Then(Again(if n > 0 then n - 1 else n, body)))
  {
    if n < 0 && body.cyc == [] {
      assert body.pre + [] == body.pre;
    }
  }

  lemma NthTail<T>(s: Stream<T>, k: nat)
    requires !s.IsEmpty()
    ensures Nth(s, 0) == Entry(s.Head()) && Nth(s, k + 1) == Nth(s.Tail(), k)
  {
  }
}
