/** The transmit loop tests a status word several times; the controller may release the
    descriptor between two of the tests.
 */
module Races {
  import opened Descriptors
  import opened Rings
  import opened TxLayout

  /** What the transmit loop makes of the descriptor a search has stopped at: the STP test sees
      `second`, the OWN test `third`. */
  datatype Verdict = NotSynchronised | StillSent | EndOfPacket

  function Judge(second: TxDesc, third: TxDesc, lookahead: nat): Verdict {
    if second.stp then NotSynchronised
    else if third.own then (if lookahead == 0 then NotSynchronised else StillSent)
    else EndOfPacket
  }

  /** A search from the start of a packet has stopped at descriptor `k`. */
  ghost predicate Stopped(q: TxQueue, k: nat) {
    && q.skip == 0 && 0 < k < q.live && q.Searched(k)
    && (q.view[k].stp || q.view[k].own || q.view[k].enp || q.view[k].err)
  }

  /** Whatever the controller does between the tests, an end of packet is only seen where a
      finished packet ends. */
  ghost predicate Reliable(q: TxQueue, k: nat, lookahead: nat)
    requires k < |q.view|
  {
    forall s: TxQueue, t: TxQueue | q.Leads(s) && s.Leads(t) ::
      Judge(s.view[k], t.view[k], lookahead) == EndOfPacket ==>
        k < t.done && (t.view[k].enp || t.view[k].err)
  }

  /** That is so exactly if the first reading did not find the controller working on a
      descriptor in the middle of its packet. */
  lemma {:induction false} ReliableIff(q: TxQueue, k: nat, lookahead: nat)
    requires Stopped(q, k)
    ensures Reliable(q, k, lookahead) <==> !(q.view[k].own && !q.view[k].enp)
  {
    assert Joined(q.view, k);
    if q.view[k].own && !q.view[k].enp {
      var t := Release(q);
      LeadsSelf(q);
      assert q.Leads(q) && q.Leads(t) && Judge(q.view[k], t.view[k], lookahead) == EndOfPacket;
    } else {
      forall s: TxQueue, t: TxQueue | q.Leads(s) && s.Leads(t) && !t.view[k].own
        ensures k < t.done && (t.view[k].enp || t.view[k].err)
      {
        LeadsOn(q, s, t, k);
        assert t.view[k].Carries(q.view[k]);
      }
    }
  }

  lemma {:induction false} LeadsSelf(q: TxQueue)
    ensures q.Leads(q)
  {
  }

  /** One controller step between the readings is enough to have the driver take the middle of
      a packet for its end, and leave `transNext` where no packet starts. */
  lemma {:induction false} MiddleTakenForEnd(q: TxQueue, k: nat, lookahead: nat) returns (t: TxQueue)
    requires Stopped(q, k) && q.view[k].own && !q.view[k].enp
    ensures t == Release(q) && Judge(q.view[k], t.view[k], lookahead) == EndOfPacket
    ensures !t.view[k].err && t.done == 0
    ensures k + 1 < t.live && !t.view[k + 1].stp
  {
    t := Release(q);
    assert Joined(q.view, k) && Joined(t.view, k + 1);
  }

  /** With at most two descriptors a packet there is no middle. */
  lemma {:induction false} ShortPacketsReliable(q: TxQueue, k: nat, lookahead: nat)
    requires Stopped(q, k) && q.Bounded(2)
    ensures Reliable(q, k, lookahead)
  {
    assert Joined(q.view, k);
    ReliableIff(q, k, lookahead);
  }

  /** With three there is: a ring in which the first packet has three descriptors, the first of
      them released. */
  lemma {:induction false} ThreeDescriptors() returns (q: TxQueue)
    ensures Stopped(q, 1) && q.view[1].own && !q.view[1].enp && !Reliable(q, 1, 1)
  {
    var d := TxDesc(true, false, false, false, false, false, NO_EXT, -1, [0]);
    var v := [d.(own := false, stp := true), d, d.(enp := true), FREE];
    assert Joined(v, 1) && Joined(v, 2);
    var p := TxState(0, v, 0, 0, 1, 3, Frames(v, 0, 3), [], [], false, 0);
    q := p;
    ReliableIff(q, 1, 1);
  }
}
