/** Sequence numbers on the u16 ring, and the unbounded counters they stand for. */
module SeqRing {
  import opened Bytes

  /** The ring position of the unbounded counter value `n`. */
  function Wrap(n: int): u16 {
    n % 0x1_0000
  }

  function WrappingAdd(a: u16, b: u16): u16 {
    (a + b) % 0x1_0000
  }

  function WrappingSub(a: u16, b: u16): u16 {
    (a - b) % 0x1_0000
  }

  /** Strict `a < b` with wrap-around. */
  predicate SeqLt(a: u16, b: u16) {
    a != b && WrappingSub(b, a) < 0x8000
  }

  predicate SeqGt(a: u16, b: u16) {
    SeqLt(b, a)
  }

  /** The counter value at or after `next` that stands at ring position `k`. */
  function Ahead(next: nat, k: u16): nat {
    next + WrappingSub(k, Wrap(next))
  }

  lemma WrapSucc(n: int)
    ensures Wrap(n + 1) == WrappingAdd(Wrap(n), 1)
  {
  }

  lemma WrapInjective(m: int, n: int)
    requires -0x1_0000 < m - n < 0x1_0000
    requires Wrap(m) == Wrap(n)
    ensures m == n
  {
  }

  /** The ring order is the order of the counters exactly while the second is at most 2^15 - 1
      ahead of the first, or at most 2^15 behind it. */
  lemma RingOrder(m: int, n: int)
    requires -0x1_0000 < n - m < 0x1_0000
    ensures (SeqLt(Wrap(m), Wrap(n)) <==> m < n) <==> -0x8000 <= n - m < 0x8000
  {
  }

  lemma AheadWrap(next: nat, n: nat)
    requires next <= n < next + 0x1_0000
    ensures Ahead(next, Wrap(n)) == n
  {
  }

  lemma WrapAhead(next: nat, k: u16)
    ensures Wrap(Ahead(next, k)) == k
    ensures next <= Ahead(next, k) < next + 0x1_0000
  {
  }

  lemma AheadStep(next: nat, k: u16)
    requires Ahead(next, k) > next
    ensures Ahead(next + 1, k) == Ahead(next, k)
  {
    WrapAhead(next, k);
    AheadWrap(next + 1, Ahead(next, k));
  }
}
