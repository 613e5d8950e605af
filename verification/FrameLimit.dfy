/** How many descriptors the receive routines give back: they step from the start of a packet
    until they meet `recv_next`.
 */
module FrameLimit {
  import Rings

  /** The number of turns of `while (start != next) LNC_INC_MD_PTR(start)`. */
  function Turns(start: nat, next: nat, n: nat): nat
    requires start < n && next < n
    decreases if start <= next then next - start else n + next - start
  {
    if start == next then 0 else 1 + Turns(Rings.Inc(start, n), next, n)
  }

  /** All `m` descriptors of a packet are given back exactly if the packet leaves at least one
      descriptor of the ring; a packet of the whole ring keeps them all. */
  lemma {:induction false} AllGivenBackIff(start: nat, m: nat, n: nat)
    requires start < n && 0 < m <= n
    ensures Turns(start, Rings.Slot(start, m, n), n) == m <==> m < n
    ensures m == n ==> Turns(start, Rings.Slot(start, m, n), n) == 0
  {
    if m < n {
      TurnsAre(start, m, n);
    }
  }

  lemma {:induction false} TurnsAre(start: nat, m: nat, n: nat)
    requires start < n && m < n
    ensures Turns(start, Rings.Slot(start, m, n), n) == m
    decreases m
  {
    if 0 < m {
      Rings.SlotStep(start, m - 1, n);
      TurnsAre(Rings.Inc(start, n), m - 1, n);
    }
  }
}
