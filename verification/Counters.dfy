/** Free-running unsigned 32-bit counters, and the ring slots they stand for. */
module Counters {
  import Rings

  const WORD := 0x1_0000_0000

  type Counter = c: nat | c < WORD

  function Next(c: Counter): Counter { (c + 1) % WORD }

  /** How far counter `c` is ahead of `d`, as unsigned subtraction gives it. */
  function Ahead(c: Counter, d: Counter): Counter { (c - d) % WORD }

  /** Counting on counts one further, round the end of the word, too. */
  lemma AheadNext(c: Counter, d: Counter)
    requires Ahead(c, d) < WORD - 1
    ensures Ahead(Next(c), d) == Ahead(c, d) + 1
    ensures 0 < Ahead(c, d) ==> Ahead(c, Next(d)) == Ahead(c, d) - 1
  {
  }

  /** Both ring sizes divide the word, so the masked counter goes round with the ring. */
  lemma MaskNext(c: Counter, n: nat)
    requires n == 16 || n == 32
    ensures Next(c) % n == Rings.Inc(c % n, n)
  {
  }

  /** The slot of counter `c`, seen from counter `d`. */
  lemma MaskAhead(c: Counter, d: Counter, n: nat)
    requires n == 16 || n == 32
    requires Ahead(c, d) <= n
    ensures c % n == Rings.Slot(d % n, Ahead(c, d), n)
  {
    if n == 16 {
      assert (d + Ahead(c, d)) % 16 == c % 16;
    } else {
      assert (d + Ahead(c, d)) % 32 == c % 32;
    }
  }
}
