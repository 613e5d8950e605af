/** The transmit half of the adapter: `lnc_output_packet`, the descriptor-chain path of
    `lnc_start`, and `lnc_tint`, against a controller that may transmit between any two of
    the driver's accesses to the ring.
 */
module TransmitEngine {
  import opened Descriptors
  import FirstFragment
  import opened Rings
  import opened TxLayout

  /** What the controller does with the descriptor it owns: move past it, finishing the packet
      if it is the last, or fail on it and give up the whole packet. */
  datatype TxEvent = Progress(more: bool, one: bool) | Fail(ext: Ext)

  class Transmitter {
    // The ring and its interrupt flag, shared with the controller.
    const tx: array<TxDesc>
    var tint: bool

    // The controller: its place in the ring, whether it transmits at all, and the number of
    // steps it takes before it falls silent.
    var cursor: nat
    var txon: bool
    var budget: nat

    // Whether the compiled driver reads a status word afresh for each test of it.
    const rereads: bool

    // Whether the chip is one that wants 100 bytes in the first buffer of a chain.
    const lance: bool

    // The most descriptors a packet takes; `lnc_output_packet` uses one.
    const most: nat

    // The driver.
    var transNext: nat
    var nextToSend: nat
    var pending: nat
    var oactive: bool

    // The output queue: stalled by a refused packet, asked to run again.
    var stalled: bool
    var asked: bool

    // The ring, and what became of every frame published in it.
    ghost var q: TxQueue

    // Whether the last initialisation has started the controller.
    ghost var started: bool

    ghost predicate Valid()
      reads this, tx
    {
      && transNext < tx.Length == |q.view| && nextToSend < tx.Length
      && q.view == View(tx[..], q.base)
      && cursor == Slot(q.base, q.out, tx.Length)
      && q.Bounded(most) && 0 < most && (rereads ==> most <= 2)
      && (txon <==> started && !q.dry)
    }

    /** No packet is half cleared or half prepared. */
    ghost predicate Settled()
      reads this
    {
      && q.skip == 0 && transNext == q.base
      && pending == q.live && nextToSend == Slot(q.base, q.live, |q.view|)
      && q.Idle()
    }

    /** OACTIVE marks a full ring. */
    ghost predicate Marked()
      reads this
    {
      oactive <==> pending == tx.Length
    }

    /** A full ring is marked; after a failed initialisation an empty one may be, too. */
    ghost predicate Throttled()
      reads this
    {
      pending == tx.Length ==> oactive
    }

    /** Since `was` frames have only been finished and taken back. */
    ghost predicate Since(was: TxState)
      reads this
    {
      was.TakenTo(q)
    }

    /** Since `was` nothing has been taken back. */
    ghost predicate Kept(was: TxState)
      reads this
    {
      q.log == was.log && was.finished <= q.finished && was.Counts(q)
    }

    /** TINT means that a finished packet is waiting. */
    ghost predicate TintSound()
      reads this
    {
      tint ==> q.HasDone()
    }

    constructor (n: nat, rereads: bool, lance: bool, most: nat, budget: nat)
      requires 0 < n && 0 < most && (rereads ==> most <= 2)
      ensures Ready() && Marked() && Throttled() && !tint && fresh(tx) && tx.Length == n
      ensures this.rereads == rereads && this.lance == lance && this.most == most
      ensures this.budget == budget && q.accepted == [] && q.underruns == 0
      ensures !stalled && !asked && started
    {
      tx := new TxDesc[n](_ => FREE);
      this.rereads, this.lance, this.most, this.budget := rereads, lance, most, budget;
      transNext, nextToSend, pending, cursor := 0, 0, 0, 0;
      oactive, tint, txon, stalled, asked := false, false, true, false, false;
      q, started := Empty(seq(n, _ => FREE), [], 0), true;
      new;
      ViewWhole(tx[..]);
      assert tx[..] == seq(n, _ => FREE);
    }

    /** The transmit side of `lnc_init` and of the chip reset before it: packets still in the
        ring are dropped. If the controller reports initialisation done, it starts, OACTIVE is
        cleared and the output queue is asked to run. */
    method Init(idon: bool)
      requires tx.Length == |q.view| && 0 < most && (rereads ==> most <= 2)
      modifies `cursor, `q, `tint, `txon, `transNext, `nextToSend, `pending, `oactive, `asked, `started, tx
      ensures Valid() && Settled() && !tint && pending == 0
      ensures q.log == Dropping(old(q))
      ensures q.accepted == old(q.accepted) == FramesOf(q.log)
      ensures q.finished == old(q.finished) == SentOf(q.log)
      ensures !q.dry && q.underruns == old(q.underruns)
      ensures txon == started == idon && oactive == (old(oactive) && !idon) && asked == (old(asked) || idon)
      ensures forall j | 0 <= j < tx.Length :: tx[j].Unused()
    {
      InitFields(idon);
      ClearAll();
      EnterDropped();
    }

    method InitFields(idon: bool)
      modifies `cursor, `tint, `txon, `transNext, `nextToSend, `pending, `oactive, `asked, `started
      ensures transNext == nextToSend == pending == cursor == 0 && !tint
      ensures txon == started == idon && oactive == (old(oactive) && !idon) && asked == (old(asked) || idon)
    {
      transNext, nextToSend, pending, cursor, tint := 0, 0, 0, 0, false;
      txon, started := idon, idon;
      if idon { oactive, asked := false, true; }
    }

    /** The ring is empty, and every frame that was in it counts as dropped. */
    ghost method EnterDropped()
      requires tx.Length == |q.view| && forall j | 0 <= j < tx.Length :: !tx[j].own
      modifies `q
      ensures q == Empty(tx[..], Dropping(old(q)), old(q).underruns)
      ensures q.accepted == old(q.accepted) && q.finished == old(q.finished) && q.view == View(tx[..], 0)
    {
      DroppingKeeps(q);
      ViewWhole(tx[..]);
      q := Empty(tx[..], Dropping(q), q.underruns);
    }

    method ClearAll()
      modifies tx
      ensures forall j | 0 <= j < tx.Length :: tx[j].Unused()
    {
      for i := 0 to tx.Length
        invariant forall j | 0 <= j < i :: tx[j].Unused()
      {
        tx[i] := tx[i].Cleared().(length := 0, ext := NO_EXT);
      }
    }

    /** A write to the `k`-th descriptor of the view. */
    method Write(i: nat, ghost k: nat, d: TxDesc)
      requires tx.Length == |q.view| && k < tx.Length && i == Slot(q.base, k, tx.Length)
      modifies tx
      ensures View(tx[..], q.base) == old(View(tx[..], q.base))[k := d]
    {
      ghost var ring := tx[..];
      ViewSet(ring, q.base, k, d);
      tx[i] := d;
      assert tx[..] == ring[i := d];
    }

    method Put(i: nat, ghost k: nat, d: TxDesc, ghost to: TxQueue)
      requires Valid() && k < tx.Length && i == Slot(q.base, k, tx.Length)
      requires to.view == q.view[k := d] && to.base == q.base
      modifies tx, `q
      ensures q == to && q.view == View(tx[..], q.base)
    {
      Write(i, k, d);
      q := to;
    }

    /** The `k`-th descriptor of the view. */
    lemma At(i: nat, k: nat)
      requires tx.Length == |q.view| && q.view == View(tx[..], q.base)
      requires q.base < tx.Length && k < tx.Length && i == Slot(q.base, k, tx.Length)
      ensures tx[i] == q.view[k]
    {
      ViewAt(tx[..], q.base, k);
    }

    lemma AtCursor()
      requires Valid()
      ensures tx[cursor].own ==> q.out < q.live && q.view[q.out] == tx[cursor]
    {
      ViewAt(tx[..], q.base, if q.out < tx.Length then q.out else 0);
    }

    method ControllerRelease()
      requires Valid() && tx[cursor].own && !tx[cursor].enp
      modifies `cursor, `q, tx
      ensures Valid() && old(q).Leads(q)
    {
      AtCursor();
      SlotStep(q.base, q.out, tx.Length);
      Put(cursor, q.out, tx[cursor].(own := false), Release(q));
      cursor := Inc(cursor, tx.Length);
    }

    /** A failing step has reached descriptor `end` of the packet it gives up. */
    ghost predicate GivingUp(end: nat, d: TxDesc)
      reads this, tx
    {
      && tx.Length == |q.view|
      && q.out <= end < q.live && cursor == Slot(q.base, end, tx.Length)
      && (forall i | q.out <= i < end :: !q.view[i].enp)
      && d.Carries(q.view[q.out]) && !d.own
      && View(tx[..], q.base) == GivenUp(q.view, q.out, end, d)
    }

    method GiveUpFirst(d: TxDesc)
      requires Valid() && tx[cursor].own && d.Carries(tx[cursor]) && !d.own
      modifies tx
      ensures GivingUp(q.out, d)
    {
      AtCursor();
      Write(cursor, q.out, d);
      assert q.view[q.out := d] == GivenUp(q.view, q.out, q.out, d);
    }

    method GiveUpNext(ghost end: nat, ghost d: TxDesc) returns (last: bool)
      requires GivingUp(end, d) && !q.view[end].enp
      modifies `cursor, tx
      ensures GivingUp(end + 1, d) && last == q.view[end + 1].enp
    {
      SlotStep(q.base, end, tx.Length);
      GivenUpMore(q.view, q.out, end, d);
      cursor := Inc(cursor, tx.Length);
      ViewAt(tx[..], q.base, end + 1);
      last := tx[cursor].enp;
      Write(cursor, end + 1, tx[cursor].(own := false));
    }

    method GiveUpRest(enp: bool, ghost d: TxDesc) returns (ghost end: nat)
      requires GivingUp(q.out, d) && enp == q.view[q.out].enp
      modifies `cursor, tx
      ensures GivingUp(end, d) && q.view[end].enp
    {
      var last := enp;
      end := q.out;
      while !last
        invariant GivingUp(end, d) && last == q.view[end].enp
        decreases q.live - end
      {
        last := GiveUpNext(end, d);
        end := end + 1;
      }
    }

    /** The packet the controller was working on in `was`, which ends at `end`, is finished: all of
        it is given up, and its next descriptor reports `d`. */
    ghost predicate Finished(was: TxQueue, end: nat, d: TxDesc)
      reads this, tx
    {
      && Valid() && was.EndsAt(end) && d.Carries(was.view[was.out]) && !d.own && q == Finish(was, end, d)
    }

    /** TINT is raised with a packet given up, and an underrun turns the transmitter off. */
    method RaiseTint(ghost end: nat, d: TxDesc)
      requires GivingUp(end, d)
      modifies `tint, `txon
      ensures GivingUp(end, d) && tint && txon == (old(txon) && !d.Underrun())
    {
      tint, txon := true, txon && !d.Underrun();
    }

    method GaveUp(ghost end: nat, ghost d: TxDesc)
      requires GivingUp(end, d) && q.view[end].enp
      requires transNext < tx.Length && nextToSend < tx.Length && q.Bounded(most) && 0 < most && (rereads ==> most <= 2)
      requires txon <==> started && !q.dry && !d.Underrun()
      modifies `cursor, `q
      ensures Finished(old(q), end, d)
    {
      SlotStep(q.base, end, tx.Length);
      cursor := Inc(cursor, tx.Length);
      FinishBounded(q, end, d, most);
      q := Finish(q, end, d);
    }

    /** A packet is finished at its last descriptor. */
    method ControllerFinish(more: bool, one: bool)
      requires Valid() && tx[cursor].own && tx[cursor].enp
      modifies `cursor, `q, `tint, `txon, tx
      ensures tint && txon == old(txon)
      ensures Finished(old(q), old(q).out, old(tx[cursor]).(own := false, more := more, one := one))
    {
      AtCursor();
      var d := tx[cursor].(own := false, more := more, one := one);
      ghost var end := GiveUpAll(d);
      FirstEnds(old(q), end);
    }

    /** A failed packet is given up whole, in one step. */
    method ControllerFail(ext: Ext) returns (ghost end: nat)
      requires Valid() && tx[cursor].own
      modifies `cursor, `q, `tint, `txon, tx
      ensures tint && txon == (old(txon) && !ext.uflo)
      ensures Finished(old(q), end, old(tx[cursor]).(own := false, err := true, ext := ext))
    {
      end := GiveUpAll(tx[cursor].(own := false, err := true, ext := ext));
    }

    method GiveUpAll(d: TxDesc) returns (ghost end: nat)
      requires Valid() && tx[cursor].own && d.Carries(tx[cursor]) && !d.own
      modifies `cursor, `q, `tint, `txon, tx
      ensures Finished(old(q), end, d) && tint && txon == (old(txon) && !d.Underrun())
    {
      end := GiveUpPacket(d);
      GaveUp(end, d);
    }

    method GiveUpPacket(d: TxDesc) returns (ghost end: nat)
      requires Valid() && tx[cursor].own && d.Carries(tx[cursor]) && !d.own
      modifies `cursor, `tint, `txon, tx
      ensures GivingUp(end, d) && q.view[end].enp && tint && txon == (old(txon) && !d.Underrun())
    {
      GiveUpFirst(d);
      end := GiveUpRest(d.enp, d);
      RaiseTint(end, d);
    }

    /** The controller acts on its descriptor if it owns it and is transmitting. */
    method ControllerStep(e: TxEvent)
      requires Valid()
      modifies `cursor, `q, `tint, `txon, tx
      ensures Valid() && old(q).Leads(q)
      ensures old(tint) ==> tint
      ensures tint && !old(tint) ==> q.HasDone()
    {
      if txon && tx[cursor].own {
        match e
        case Fail(ext) =>
          ghost var d := tx[cursor].(own := false, err := true, ext := ext);
          ghost var end := ControllerFail(ext);
          FinishLeads(old(q), end, d);
        case Progress(more, one) =>
          if tx[cursor].enp {
            ghost var d := tx[cursor].(own := false, more := more, one := one);
            ControllerFinish(more, one);
            FinishLeads(old(q), old(q).out, d);
          } else {
            ControllerRelease();
          }
      }
    }

    /** Any number of controller steps. */
    method Controller()
      requires Valid()
      modifies `cursor, `q, `tint, `txon, `budget, tx
      ensures Valid() && old(q).Leads(q)
      ensures budget <= old(budget) && (budget == old(budget) ==> q == old(q) && tint == old(tint))
      ensures old(tint) ==> tint
      ensures tint && !old(tint) ==> q.HasDone()
    {
      while *
        invariant Valid() && old(q).Leads(q)
        invariant budget <= old(budget) && (budget == old(budget) ==> q == old(q) && tint == old(tint))
        invariant old(tint) ==> tint
        invariant tint && !old(tint) ==> q.HasDone()
        decreases budget
      {
        if budget == 0 { break; }
        var e: TxEvent := *;
        ControllerNext(e, old(q));
      }
    }

    method ControllerNext(e: TxEvent, ghost q0: TxState)
      requires Valid() && 0 < budget && q0.Leads(q)
      modifies `cursor, `q, `tint, `txon, `budget, tx
      ensures Valid() && q0.Leads(q) && budget == old(budget) - 1
      ensures old(tint) ==> tint
      ensures tint ==> old(tint) || q.HasDone()
      ensures old(q).HasDone() ==> q.HasDone()
    {
      budget := budget - 1;
      ghost var q1 := q;
      ControllerStep(e);
      LeadsLong(q0, q1, q);
    }

    /** The driver reads a descriptor; the controller may have run since its last access. */
    method Read(i: nat, ghost k: nat) returns (d: TxDesc)
      requires Valid() && k < tx.Length && i == Slot(q.base, k, tx.Length)
      modifies `cursor, `q, `tint, `txon, `budget, tx
      ensures Valid() && old(q).Leads(q)
      ensures budget <= old(budget) && (budget == old(budget) ==> q == old(q))
      ensures d == q.view[k]
    {
      Controller();
      d := tx[i];
      At(i, k);
    }

    /** A second test of a status word just read: a fresh read if the compiler makes it one,
        the value at hand otherwise. */
    method Again(i: nat, ghost k: nat, seen: TxDesc) returns (d: TxDesc)
      requires Valid() && k < tx.Length && i == Slot(q.base, k, tx.Length) && seen == q.view[k]
      modifies `cursor, `q, `tint, `txon, `budget, tx
      ensures Valid() && old(q).Leads(q)
      ensures budget <= old(budget) && (budget == old(budget) ==> q == old(q))
      ensures d == q.view[k] && (!rereads ==> q == old(q))
    {
      d := seen;
      if rereads {
        d := Read(i, k);
      }
    }

    /** Short of the end of its packet, a search has not come to the end of the ring. */
    lemma RoomAhead(k: nat)
      requires Valid() && q.skip == 0 && k < q.out && q.Searched(k) && !q.view[k].enp && !q.view[k].err
      ensures k + 1 < q.live && q.Searched(k + 1)
    {
    }

    /** Steps to the next descriptor of a packet and reads it. */
    method Advance(ghost k: nat) returns (d: TxDesc)
      requires Valid() && q.skip == 0 && q.Searched(k) && 0 < k < tx.Length
      requires transNext == Slot(q.base, k - 1, tx.Length)
      modifies `cursor, `q, `tint, `txon, `budget, `transNext, tx
      ensures Valid() && old(q).Leads(q)
      ensures budget <= old(budget) && (budget == old(budget) ==> q == old(q))
      ensures transNext == Slot(q.base, k, tx.Length) && q.Searched(k)
      ensures d == q.view[k]
    {
      SlotStep(q.base, k - 1, tx.Length);
      transNext := Inc(transNext, tx.Length);
      d := ReadSearched(transNext, k);
    }

    method ReadSearched(i: nat, ghost k: nat) returns (d: TxDesc)
      requires Valid() && k < tx.Length && i == Slot(q.base, k, tx.Length) && q.Searched(k)
      modifies `cursor, `q, `tint, `txon, `budget, tx
      ensures Valid() && old(q).Leads(q) && d == q.view[k] && q.Searched(k)
      ensures budget <= old(budget) && (budget == old(budget) ==> q == old(q))
    {
      ghost var q0 := q;
      d := Read(i, k);
      LeadsOn(q0, q0, q, k);
    }

    /** Reads on from a packet's first descriptor to one that ends it, starts another or is
        the controller's. */
    method Scan(first: TxDesc) returns (d: TxDesc, ghost k: nat)
      requires Valid() && q.skip == 0 && transNext == q.base
      requires 0 < q.out && q.view[0] == first && !first.enp && !first.err
      modifies `cursor, `q, `tint, `txon, `budget, `transNext, tx
      ensures Valid() && old(q).Near(q)
      ensures budget <= old(budget) && (budget == old(budget) ==> q == old(q))
      ensures 0 < k < q.live && transNext == Slot(q.base, k, tx.Length) && q.Searched(k)
      ensures d == q.view[k] && (d.stp || d.own || d.enp || d.err)
    {
      k, d := 0, first;
      var more := true;
      while more
        invariant Valid() && old(q).Near(q)
        invariant budget <= old(budget) && (budget == old(budget) ==> q == old(q))
        invariant k < q.live && transNext == Slot(q.base, k, tx.Length) && q.Searched(k)
        invariant d == q.view[k]
        invariant more ==> k < q.out && !d.enp && !d.err
        invariant !more ==> 0 < k && (d.stp || d.own || d.enp || d.err)
        decreases tx.Length - k, more
      {
        RoomAhead(k);
        k := k + 1;
        d := Advance(k);
        more := !d.stp && !d.own && !d.enp && !d.err;
      }
    }

    /** The descriptor a search stops at continues the packet. The host's belongs to a
        finished packet if it ends the search; at the controller's, none is finished. */
    lemma StopsInside(k: nat)
      requires Valid() && q.skip == 0 && q.Searched(k) && 0 < k < q.live
      ensures !q.view[k].stp
      ensures q.view[k].own ==> !q.HasDone()
      ensures !q.view[k].own && (q.view[k].enp || q.view[k].err) ==> k < q.done
      ensures rereads ==> q.view[k].enp
    {
      assert Joined(q.view, k);
    }

    lemma EndsAtStart()
      requires Valid() && 0 < q.out && (q.view[0].enp || q.view[0].err)
      ensures 0 < q.done
    {
    }

    /** Searches from the start of a packet for its last descriptor, or the one that failed.
        The branches on which the source reports lost synchronisation cannot be taken. */
    method FindEnd(lookahead: nat) returns (found: bool, ghost k: nat)
      requires Valid() && q.skip == 0 && transNext == q.base && 0 < q.out
      requires lookahead == 0 ==> q.HasDone()
      modifies `cursor, `q, `tint, `txon, `budget, `transNext, tx
      ensures Valid() && old(q).Near(q)
      ensures budget <= old(budget) && (budget == old(budget) ==> q == old(q))
      ensures found ==> k < q.done && q.Searched(k) && (q.view[k].enp || q.view[k].err)
      ensures found ==> transNext == Slot(q.base, k, tx.Length)
      ensures !found ==> transNext == q.base && 0 < lookahead && !q.HasDone()
    {
      var d := Read(transNext, 0);
      found, k := true, 0;
      if d.enp || d.err {
        EndsAtStart();
      } else {
        found, k := FindFurther(d, lookahead);
      }
    }

    /** The search beyond a packet's first descriptor; one that leads into a packet still being
        sent goes back to its start. */
    method FindFurther(first: TxDesc, lookahead: nat) returns (found: bool, ghost k: nat)
      requires Valid() && q.skip == 0 && transNext == q.base && 0 < q.out
      requires q.view[0] == first && !first.enp && !first.err
      requires lookahead == 0 ==> q.HasDone()
      modifies `cursor, `q, `tint, `txon, `budget, `transNext, tx
      ensures Valid() && old(q).Near(q)
      ensures budget <= old(budget) && (budget == old(budget) ==> q == old(q))
      ensures found ==> k < q.done && q.Searched(k) && (q.view[k].enp || q.view[k].err)
      ensures found ==> transNext == Slot(q.base, k, tx.Length)
      ensures !found ==> transNext == q.base && 0 < lookahead && !q.HasDone()
    {
      var startOfPacket, d := transNext, first;
      d, k := Scan(d);
      found := Tests(d, k, lookahead);
      if !found {
        transNext := startOfPacket;
      }
    }

    method Retest(seen: TxDesc, ghost k: nat) returns (d: TxDesc)
      requires Valid() && q.skip == 0 && q.Searched(k) && 0 < k < q.live
      requires transNext == Slot(q.base, k, tx.Length) && seen == q.view[k]
      modifies `cursor, `q, `tint, `txon, `budget, tx
      ensures Valid() && old(q).Near(q) && (!rereads ==> q == old(q))
      ensures budget <= old(budget) && (budget == old(budget) ==> q == old(q))
      ensures q.Searched(k) && d == q.view[k] && !d.stp
    {
      ghost var q0 := q;
      d := Again(transNext, k, seen);
      LeadsOn(q0, q0, q, k);
      StopsInside(k);
    }

    /** The tests of the status word a search stopped at, one after the other. */
    method Tests(seen: TxDesc, ghost k: nat, lookahead: nat) returns (found: bool)
      requires Valid() && q.skip == 0 && q.Searched(k) && 0 < k < q.live
      requires transNext == Slot(q.base, k, tx.Length)
      requires seen == q.view[k] && (seen.stp || seen.own || seen.enp || seen.err)
      requires lookahead == 0 ==> q.HasDone()
      modifies `cursor, `q, `tint, `txon, `budget, tx
      ensures Valid() && old(q).Near(q)
      ensures budget <= old(budget) && (budget == old(budget) ==> q == old(q))
      ensures found ==> k < q.done && q.Searched(k) && (q.view[k].enp || q.view[k].err)
      ensures !found ==> 0 < lookahead && !q.HasDone()
    {
      var d := Retest(seen, k);
      if d.stp {
        assert false;      // start of packet found before end of previous
      }
      d := Retest(d, k);
      StopsInside(k);
      found := !d.own;
      if d.own {
        if lookahead == 0 {
          assert false;    // end of transmitted packet not found
        }
      }
    }

    /** What a skip over a failed packet finds after descriptor `p`. */
    lemma AfterDescriptor(p: nat)
      requires Valid() && q.skip == 0 && p < q.done
      ensures q.view[p].enp && p + 1 < q.live ==> q.view[p + 1].stp
      ensures !q.view[p].enp ==> p + 1 < q.done && !q.view[p + 1].stp
    {
      assert p + 1 < q.live ==> Joined(q.view, p + 1);
    }

    /** Steps over one descriptor of a failed packet; stops at the start of the next packet or
        where the next one will go. */
    method SkipOne(ghost p: nat) returns (more: bool)
      requires Valid() && q.skip == 0 && p < q.done && transNext == Slot(q.base, p, tx.Length)
      requires nextToSend == Slot(q.base, q.live, tx.Length) && q.Within(p)
      modifies `cursor, `q, `tint, `txon, `budget, `transNext, tx
      ensures Valid() && old(q).Near(q)
      ensures budget <= old(budget) && (budget == old(budget) ==> q == old(q))
      ensures transNext == Slot(q.base, p + 1, tx.Length) && q.Within(p)
      ensures more ==> p + 1 < q.done && q.Within(p + 1)
      ensures !more ==> q.view[p].enp
    {
      var d := StepOver(p);
      AfterDescriptor(p);
      more := !d.stp && transNext != nextToSend;
    }

    method StepOver(ghost p: nat) returns (d: TxDesc)
      requires Valid() && q.skip == 0 && p < q.done && transNext == Slot(q.base, p, tx.Length)
      requires q.Within(p)
      modifies `cursor, `q, `tint, `txon, `budget, `transNext, tx
      ensures Valid() && old(q).Near(q)
      ensures budget <= old(budget) && (budget == old(budget) ==> q == old(q))
      ensures transNext == Slot(q.base, p + 1, tx.Length) && q.Within(p)
      ensures d == q.view[if p + 1 < tx.Length then p + 1 else 0]
    {
      SlotStep(q.base, p, tx.Length);
      transNext := Inc(transNext, tx.Length);
      d := ReadWithin(transNext, if p + 1 < tx.Length then p + 1 else 0, p);
    }

    method ReadWithin(i: nat, ghost k: nat, ghost p: nat) returns (d: TxDesc)
      requires Valid() && k < tx.Length && i == Slot(q.base, k, tx.Length) && q.Within(p) && p < q.done
      modifies `cursor, `q, `tint, `txon, `budget, tx
      ensures Valid() && old(q).Near(q) && d == q.view[k] && q.Within(p)
      ensures budget <= old(budget) && (budget == old(budget) ==> q == old(q))
    {
      ghost var q0 := q;
      d := Read(i, k);
      LeadsOn(q0, q0, q, p);
    }

    /** The skip over a failed packet since `was`; it has come to descriptor `e`, or past it. */
    ghost predicate Skipping(e: nat, past: bool, was: TxState, b: nat)
      reads this, tx
    {
      && Valid() && q.skip == 0 && was.Near(q) && budget <= b && (budget == b ==> q == was)
      && e < q.done && q.Within(e) && (past ==> q.view[e].enp)
      && transNext == Slot(q.base, if past then e + 1 else e, tx.Length)
      && nextToSend == Slot(q.base, q.live, tx.Length)
    }

    method SkipNext(ghost e: nat, ghost was: TxState, ghost b: nat) returns (more: bool, ghost e': nat)
      requires Skipping(e, false, was, b)
      modifies `cursor, `q, `tint, `txon, `budget, `transNext, tx
      ensures Skipping(e', !more, was, b) && if more then e < e' else e' == e
    {
      ghost var q0 := q;
      more := SkipOne(e);
      NearOn(was, q0, q);
      e' := if more then e + 1 else e;
    }

    /** The rest of a failed packet, from the descriptor that reports the failure. */
    method SkipRest(ghost k: nat) returns (ghost e: nat)
      requires Valid() && q.skip == 0 && k < q.done && transNext == Slot(q.base, k, tx.Length)
      requires nextToSend == Slot(q.base, q.live, tx.Length) && q.Within(k)
      modifies `cursor, `q, `tint, `txon, `budget, `transNext, tx
      ensures Valid() && old(q).Near(q)
      ensures budget <= old(budget) && (budget == old(budget) ==> q == old(q))
      ensures e < q.done && q.view[e].enp && q.Within(e)
      ensures transNext == Slot(q.base, e + 1, tx.Length)
    {
      e := k;
      var more := true;
      while more
        invariant Skipping(e, !more, old(q), old(budget)) && e < tx.Length
        decreases tx.Length - e, more
      {
        more, e := SkipNext(e, old(q), old(budget));
      }
    }

    /** Reads the descriptor at which a search has ended. */
    method Look(ghost k: nat) returns (d: TxDesc)
      requires Valid() && k < q.done && q.Searched(k) && transNext == Slot(q.base, k, tx.Length)
      modifies `cursor, `q, `tint, `txon, `budget, tx
      ensures Valid() && old(q).Near(q) && d == q.view[k] == old(q).view[k]
      ensures budget <= old(budget) && (budget == old(budget) ==> q == old(q))
      ensures q.Searched(k) && q.Within(k)
    {
      ghost var q0 := q;
      d := Read(transNext, k);
      LeadsOn(q0, q0, q, k);
    }

    /** Moves past a finished packet, whether it was sent or failed. A transmitter that ran
        dry needs a reset. */
    method PassPacket(ghost k: nat) returns (underrun: bool, ghost e: nat)
      requires Valid() && q.skip == 0 && k < q.done && q.Searched(k)
      requires q.view[k].enp || q.view[k].err
      requires transNext == Slot(q.base, k, tx.Length)
      requires nextToSend == Slot(q.base, q.live, tx.Length)
      modifies `cursor, `q, `tint, `txon, `budget, `transNext, tx
      ensures Valid() && old(q).Near(q)
      ensures budget <= old(budget) && (budget == old(budget) ==> q == old(q))
      ensures underrun <==> old(q).view[k].Underrun()
      ensures underrun ==> q.Underrun()
      ensures !underrun ==> e < q.done && q.view[e].enp && q.Within(e)
      ensures !underrun ==> transNext == Slot(q.base, e + 1, tx.Length)
    {
      var d := Look(k);
      underrun, e := false, k;
      if d.err {
        if d.ext.uflo {
          assert q.view[k].Underrun();
          underrun := true;
        } else {
          e := SkipRest(k);
        }
      } else {
        SlotStep(q.base, k, tx.Length);
        transNext := Inc(transNext, tx.Length);
      }
    }

    /** The descriptors still to be cleared are those from `first` up to `transNext`. */
    ghost predicate Clearing(first: nat)
      reads this, tx
    {
      && Valid()
      && first == q.base && transNext == Slot(q.base, q.skip, tx.Length)
      && pending == q.live && nextToSend == Slot(q.base, q.live, tx.Length)
      && q.Idle()
    }

    /** Writes zero into the status of the oldest descriptor of a packet taken back. */
    method ClearStatus(i: nat)
      requires Valid() && 0 < q.skip && i == q.base
      modifies `q, tx
      ensures Valid() && q.base == Inc(old(q.base), tx.Length)
      ensures q.skip == old(q.skip) - 1 && q.live == old(q.live) - 1
      ensures q.accepted == old(q.accepted) && q.log == old(q.log) && q.finished == old(q.finished)
      ensures old(q).Counts(q) && (old(q).Idle() ==> q.Idle())
    {
      ClearKeeps(q);
      SlotStep(q.base, q.out - 1, tx.Length);
      ghost var r := Clear(q);
      WriteZero(i, r);
      q := r;
    }

    method WriteZero(i: nat, ghost r: TxQueue)
      requires tx.Length == |q.view| && q.view == View(tx[..], q.base) && i == q.base
      requires r.base == Inc(q.base, tx.Length) && r.view == q.view[1..] + [q.view[0].Cleared()]
      modifies tx
      ensures r.view == View(tx[..], r.base)
    {
      ghost var ring, d := tx[..], q.view[0].Cleared();
      ViewSet(ring, q.base, 0, d);
      ViewStep(ring[i := d], q.base);
      ViewAt(ring, q.base, 0);
      tx[i] := tx[i].Cleared();
      assert tx[..] == ring[i := d];
    }

    /** Clears the oldest descriptor of a packet taken back and moves on to the next. */
    method ClearOne(first: nat, ghost was: TxState, ghost b: nat) returns (next: nat)
      requires ClearingSince(was, first, b) && 0 < q.skip
      modifies `cursor, `q, `tint, `txon, `budget, `pending, tx
      ensures ClearingSince(was, next, b) && q.skip < old(q.skip) && (next == transNext <==> q.skip == 0)
    {
      ClearPause(first, was, b);
      ghost var q1 := q;
      next := ClearNow(first);
      TakenToOn(was, q1, q);
    }

    /** Controller steps before a descriptor is cleared. */
    method ClearPause(first: nat, ghost was: TxState, ghost b: nat)
      requires ClearingSince(was, first, b)
      modifies `cursor, `q, `tint, `txon, `budget, tx
      ensures ClearingSince(was, first, b) && q.skip == old(q.skip)
    {
      ghost var q0 := q;
      Controller();
      NearTaken(q0, q);
      TakenToOn(was, q0, q);
    }

    method ClearNow(first: nat) returns (next: nat)
      requires Clearing(first) && 0 < q.skip
      modifies `q, `pending, tx
      ensures Clearing(next) && q.skip == old(q.skip) - 1 && q.live == old(q.live) - 1
      ensures next == transNext <==> q.skip == 0
      ensures q.accepted == old(q.accepted) && q.log == old(q.log) && q.finished == old(q.finished)
      ensures old(q).Counts(q)
    {
      SlotStep(q.base, q.skip - 1, tx.Length);
      SlotStep(q.base, q.live - 1, tx.Length);
      pending := pending - 1;
      ClearStatus(first);
      next := Inc(first, tx.Length);
    }

    /** Clears every descriptor of a packet taken back. */
    method Reclaim(first: nat)
      requires Clearing(first) && 0 < q.skip
      modifies `cursor, `q, `tint, `txon, `budget, `pending, tx
      ensures Valid() && Settled() && q.live == old(q.live) - old(q.skip)
      ensures Since(old(q)) && q.log == old(q.log) && budget <= old(budget)
    {
      var startOfPacket := ClearOne(first, q, budget);
      while startOfPacket != transNext
        invariant ClearingSince(old(q), startOfPacket, old(budget)) && (startOfPacket == transNext <==> q.skip == 0)
        decreases q.skip
      {
        startOfPacket := ClearOne(startOfPacket, old(q), old(budget));
      }
    }

    /** Since `was` only descriptors have been cleared and frames finished. */
    ghost predicate ClearingSince(was: TxState, first: nat, b: nat)
      reads this, tx
    {
      && Clearing(first) && q.live - q.skip == was.live - was.skip
      && was.TakenTo(q) && q.log == was.log && budget <= b
    }

    /** Takes back the finished packet whose search ended at descriptor `k`. */
    method TakeBack(startOfPacket: nat, ghost k: nat) returns (underrun: bool)
      requires Valid() && q.skip == 0 && startOfPacket == q.base && q.Idle()
      requires k < q.done && q.Searched(k) && (q.view[k].enp || q.view[k].err)
      requires transNext == Slot(q.base, k, tx.Length)
      requires pending == q.live && nextToSend == Slot(q.base, q.live, tx.Length)
      modifies `cursor, `q, `tint, `txon, `budget, `transNext, `pending, tx
      ensures Valid() && budget <= old(budget) && q.live <= old(q.live)
      ensures Since(old(q)) && (underrun <==> old(q).view[k].Underrun())
      ensures if underrun then q.Underrun() else Settled()
      ensures !underrun ==> q.live < old(q.live) && |q.log| == |old(q.log)| + 1
    {
      ghost var e;
      underrun, e := PassPacket(k);
      if !underrun {
        TakeAway(startOfPacket, e);
      }
    }

    /** Takes back the packet that ends at descriptor `e`. */
    method TakeAway(startOfPacket: nat, ghost e: nat)
      requires Valid() && q.skip == 0 && startOfPacket == q.base && q.Idle()
      requires e < q.done && q.view[e].enp && q.Within(e) && transNext == Slot(q.base, e + 1, tx.Length)
      requires pending == q.live && nextToSend == Slot(q.base, q.live, tx.Length)
      modifies `cursor, `q, `tint, `txon, `budget, `pending, tx
      ensures Valid() && Settled() && budget <= old(budget) && q.live < old(q.live)
      ensures Since(old(q)) && |q.log| == |old(q.log)| + 1
    {
      EnterTaken(startOfPacket, e);
      ghost var q1 := q;
      Reclaim(startOfPacket);
      TakenToOn(old(q), q1, q);
    }

    ghost method EnterTaken(first: nat, e: nat)
      requires Valid() && q.skip == 0 && first == q.base && q.Idle()
      requires e < q.done && q.view[e].enp && q.Within(e) && transNext == Slot(q.base, e + 1, tx.Length)
      requires pending == q.live && nextToSend == Slot(q.base, q.live, tx.Length)
      modifies `q
      ensures Clearing(first) && q.skip == e + 1 && q.live == old(q.live)
      ensures Since(old(q)) && |q.log| == |old(q.log)| + 1
    {
      TakeKeeps(q, e, Take(q, e));
      q := Take(q, e);
    }

    /** One pass of the transmit loop: reclaims the finished packet at `transNext`, or finds it
        still being sent. */
    method ReclaimPacket(lookahead: nat) returns (found: bool, underrun: bool)
      requires Valid() && Settled() && 0 < q.out
      requires lookahead == 0 ==> q.HasDone()
      modifies `cursor, `q, `tint, `txon, `budget, `transNext, `pending, tx
      ensures Valid() && budget <= old(budget) && q.live <= old(q.live)
      ensures Since(old(q)) && if underrun then q.Underrun() else Settled()
      ensures !underrun && found ==> q.live < old(q.live) && |q.log| == |old(q.log)| + 1
      ensures !found ==> !underrun && 0 < lookahead && !q.HasDone()
      ensures !found ==> q.live == old(q.live) && q.log == old(q.log)
    {
      var startOfPacket := transNext;
      ghost var q0 := q;
      CheckStart();
      ghost var q1 := q;
      found, underrun := FindAndTake(startOfPacket, lookahead);
      TakenToOn(q0, q1, q);
    }

    method FindAndTake(startOfPacket: nat, lookahead: nat) returns (found: bool, underrun: bool)
      requires Valid() && Settled() && 0 < q.out && startOfPacket == transNext
      requires lookahead == 0 ==> q.HasDone()
      modifies `cursor, `q, `tint, `txon, `budget, `transNext, `pending, tx
      ensures Valid() && budget <= old(budget) && q.live <= old(q.live)
      ensures Since(old(q)) && if underrun then q.Underrun() else Settled()
      ensures !underrun && found ==> q.live < old(q.live) && |q.log| == |old(q.log)| + 1
      ensures !found ==> !underrun && 0 < lookahead && !q.HasDone()
      ensures !found ==> q.live == old(q.live) && q.log == old(q.log)
    {
      ghost var k;
      underrun := false;
      found, k := FindEnd(lookahead);
      if found {
        underrun := TakeBack(startOfPacket, k);
      }
    }

    /** The transmit loop's condition: packets are pending and the next is not wholly the
        controller's. */
    method Continue() returns (more: bool)
      requires Valid() && Settled()
      modifies `cursor, `q, `tint, `txon, `budget, tx
      ensures Valid() && Settled() && old(q).Near(q) && budget <= old(budget)
      ensures more ==> 0 < q.out
      ensures !more ==> !q.HasDone()
    {
      more := false;
      if 0 < pending {
        var d := Read(transNext, 0);
        more := !d.own;
      }
    }

    /** Since `was` frames have been taken back, `some` of them; only then is the output queue
        asked to run. */
    ghost predicate Reclaiming(was: TxState, some: bool, b: nat, a: bool)
      reads this, tx
    {
      && Valid() && Since(was) && (some ==> |was.log| < |q.log|)
      && budget <= b && (a ==> asked) && (asked ==> a || |was.log| < |q.log|)
    }

    /** The ring is in order and has room, unless the transmitter has run dry. */
    ghost predicate Reopened(underrun: bool)
      reads this
    {
      if underrun then q.Underrun() else Settled() && Marked() && pending < tx.Length
    }

    /** One pass of the transmit loop with its condition; the first pass reclaims a packet. */
    method TintPass(lookahead: nat, ghost was: TxState, ghost b: nat, ghost a: bool)
      returns (more: bool, underrun: bool)
      requires Reclaiming(was, 0 < lookahead, b, a) && Settled() && 0 < q.out
      requires if lookahead == 0 then q.HasDone() else Reopened(false)
      modifies `cursor, `q, `tint, `txon, `budget, `transNext, `pending, `oactive, `asked, tx
      ensures Reclaiming(was, !underrun, b, a) && Reopened(underrun) && q.live <= old(q.live)
      ensures more ==> !underrun && 0 < q.out && q.live < old(q.live)
      ensures !more && !underrun ==> !q.HasDone()
    {
      var found;
      found, underrun := ReclaimSince(lookahead, was, b, a);
      more := false;
      if found && !underrun {
        more := ReopenSince(was, b, a);
      }
    }

    method ReclaimSince(lookahead: nat, ghost was: TxState, ghost b: nat, ghost a: bool)
      returns (found: bool, underrun: bool)
      requires Reclaiming(was, 0 < lookahead, b, a) && Settled() && 0 < q.out
      requires if lookahead == 0 then q.HasDone() else Reopened(false)
      modifies `cursor, `q, `tint, `txon, `budget, `transNext, `pending, tx
      ensures Reclaiming(was, !underrun, b, a) && q.live <= old(q.live)
      ensures if underrun then q.Underrun() else Settled()
      ensures !underrun && found ==> q.live < old(q.live)
      ensures !found ==> !underrun && Reopened(false) && !q.HasDone()
    {
      ghost var q0 := q;
      found, underrun := ReclaimPacket(lookahead);
      TakenToOn(was, q0, q);
    }

    method ReopenSince(ghost was: TxState, ghost b: nat, ghost a: bool) returns (more: bool)
      requires Reclaiming(was, true, b, a) && Settled() && pending < tx.Length
      modifies `cursor, `q, `tint, `txon, `budget, `oactive, `asked, tx
      ensures Reclaiming(was, true, b, a) && Reopened(false) && q.live == old(q.live)
      ensures more ==> 0 < q.out
      ensures !more ==> !q.HasDone()
    {
      ghost var q0 := q;
      more := Reopen();
      NearTaken(q0, q);
      TakenToOn(was, q0, q);
    }

    /** There is room again: OACTIVE is cleared and the output queue asked to run. */
    method Reopen() returns (more: bool)
      requires Valid() && Settled() && pending < tx.Length
      modifies `cursor, `q, `tint, `txon, `budget, `oactive, `asked, tx
      ensures Valid() && Settled() && Marked() && old(q).Near(q) && budget <= old(budget)
      ensures asked == (old(asked) || 0 < pending)
      ensures more ==> 0 < q.out
      ensures !more ==> !q.HasDone()
    {
      oactive := false;
      if 0 < pending { asked := true; }
      more := Continue();
    }

    /** `lnc_tint`: every frame finished on entry has been taken back on return, unless the
        transmitter has run dry; then the caller resets the adapter. */
    method LncTint() returns (reclaimed: bool)
      requires Valid() && Settled() && q.HasDone()
      modifies `cursor, `q, `tint, `txon, `budget, `transNext, `pending, `oactive, `asked, tx
      ensures Reclaiming(old(q), reclaimed, old(budget), old(asked)) && Reopened(!reclaimed)
      ensures reclaimed ==> !tint && old(q.finished) <= SentOf(q.log)
      ensures reclaimed || (asked && !old(asked)) ==> TookBack(old(q.log), q.log)
    {
      var underrun := AllPasses(q, budget, asked);
      reclaimed := !underrun;
      if reclaimed {
        AllDone(old(q), old(budget), old(asked));
      }
      TookBackSome(old(q.log), q.log);
    }

    /** The end of `lnc_tint`: no finished packet is left, and TINT is cleared. */
    method AllDone(ghost was: TxState, ghost b: nat, ghost a: bool)
      requires Reclaiming(was, true, b, a) && Reopened(false) && !q.HasDone()
      modifies `cursor, `q, `tint, `txon, `budget, tx
      ensures Reclaiming(was, true, b, a) && Reopened(false)
      ensures !tint && was.finished <= SentOf(q.log)
    {
      NoneDone(q);
      Acknowledge();
    }

    method AllPasses(ghost was: TxState, ghost b: nat, ghost a: bool) returns (underrun: bool)
      requires Reclaiming(was, false, b, a) && Settled() && q.HasDone()
      modifies `cursor, `q, `tint, `txon, `budget, `transNext, `pending, `oactive, `asked, tx
      ensures Reclaiming(was, !underrun, b, a) && Reopened(underrun)
      ensures !underrun ==> !q.HasDone()
    {
      var more;
      more, underrun := FirstPass(was, b, a);
      if more {
        underrun := LaterPasses(was, b, a);
      }
    }

    /** The entry check and the first pass of the transmit loop. */
    method FirstPass(ghost was: TxState, ghost b: nat, ghost a: bool) returns (more: bool, underrun: bool)
      requires Reclaiming(was, false, b, a) && Settled() && q.HasDone()
      modifies `cursor, `q, `tint, `txon, `budget, `transNext, `pending, `oactive, `asked, tx
      ensures Reclaiming(was, !underrun, b, a) && Reopened(underrun)
      ensures more ==> !underrun && 0 < q.out
      ensures !more && !underrun ==> !q.HasDone()
    {
      CheckOwn();
      more, underrun := TintPass(0, was, b, a);
    }

    /** The passes of the transmit loop after the first. */
    method LaterPasses(ghost was: TxState, ghost b: nat, ghost a: bool) returns (underrun: bool)
      requires Reclaiming(was, true, b, a) && Reopened(false) && 0 < q.out
      modifies `cursor, `q, `tint, `txon, `budget, `transNext, `pending, `oactive, `asked, tx
      ensures Reclaiming(was, !underrun, b, a) && Reopened(underrun)
      ensures !underrun ==> !q.HasDone()
    {
      var lookahead, more := 0, true;
      underrun := false;
      while more
        invariant Reclaiming(was, !underrun, b, a) && Reopened(underrun)
        invariant more ==> !underrun && 0 < q.out
        invariant !more && !underrun ==> !q.HasDone()
        decreases q.live, more
      {
        lookahead := lookahead + 1;
        more, underrun := TintPass(lookahead, was, b, a);
      }
    }

    /** The check on entry to `lnc_tint`. */
    method CheckOwn()
      requires Valid() && Settled() && q.HasDone()
      modifies `cursor, `q, `tint, `txon, `budget, tx
      ensures Valid() && Settled() && q.HasDone()
      ensures budget <= old(budget) && old(q).Near(q)
    {
      var d := Read(transNext, 0);
      if d.own {
        assert false;      // transmit interrupt with buffer still owned by controller
      }
    }

    /** The check at the head of the transmit loop. */
    method CheckStart()
      requires Valid() && Settled() && 0 < q.out
      modifies `cursor, `q, `tint, `txon, `budget, tx
      ensures Valid() && Settled() && 0 < q.out
      ensures budget <= old(budget) && old(q).Near(q)
    {
      var d := Read(transNext, 0);
      if !d.stp {
        assert false;      // transmit interrupt but not start of packet
      }
    }

    /** Between interrupts: TINT means a finished packet at `transNext`. */
    ghost predicate Ready()
      reads this, tx
    {
      Valid() && Settled() && TintSound()
    }

    /** Controller steps while the driver is elsewhere. */
    method Background()
      requires Ready()
      modifies `cursor, `q, `tint, `txon, `budget, tx
      ensures Ready() && old(q).Near(q)
      ensures old(tint) ==> tint
      ensures old(q.HasDone()) ==> q.HasDone()
      ensures budget <= old(budget) && (budget == old(budget) ==> tint == old(tint) && q == old(q))
    {
      Controller();
    }

    /** Asks the output queue to run. */
    method Ask()
      requires Ready()
      modifies `asked
      ensures Ready() && asked
    {
      asked := true;
    }

    /** The output queue runs: it is no longer stalled, and its request is used up. */
    method Resume()
      requires Ready()
      modifies `stalled, `asked
      ensures Ready() && !stalled && !asked
    {
      stalled, asked := false, false;
    }

    /** Part of the write that acknowledges what the handler read from CSR0. */
    method ClearTint()
      requires Ready()
      modifies `tint
      ensures Ready() && !tint
    {
      tint := false;
    }

    /** The write that clears TINT. */
    method Acknowledge()
      requires Valid() && Settled()
      modifies `cursor, `q, `tint, `txon, `budget, tx
      ensures Valid() && Settled() && !tint
      ensures budget <= old(budget) && old(q).Near(q)
      ensures budget == old(budget) ==> q == old(q)
    {
      Controller();
      tint := false;
    }

    /** Copies a chain of buffers into one. */
    static method MbufToBuffer(chain: seq<seq<byte>>) returns (buffer: seq<byte>)
      ensures buffer == Flatten(chain)
    {
      buffer := [];
      assert chain[..0] == [];
      for i := 0 to |chain|
        invariant buffer == Flatten(chain[..i])
      {
        FlattenSnoc(chain, i);
        buffer := buffer + chain[i];
      }
      assert chain[..|chain|] == chain;
    }

    /** Writes a free descriptor that does not yet belong to the controller. */
    method Prepare(i: nat, ghost k: nat, d: TxDesc)
      requires Valid() && q.live <= k < tx.Length && i == Slot(q.base, k, tx.Length)
      requires (k == q.live ==> !d.own) && !q.view[k].own
      modifies `cursor, `q, `tint, `txon, `budget, tx
      ensures Valid() && budget <= old(budget) && old(q).Aside(q)
      ensures old(q).Sets(k, d, q)
      ensures old(TintSound()) ==> TintSound()
    {
      Controller();
      Put(i, k, d, Stage(q, k, d));
    }

    /** Gives the first descriptor of a prepared packet, and with it the packet, to the
        controller. */
    method Hand(i: nat, ghost chain: seq<seq<byte>>, ghost pad: nat, d: TxDesc)
      requires Valid() && q.live < tx.Length && i == Slot(q.base, q.live, tx.Length)
      requires q.Holds(chain, pad, d) && |chain| <= most
      modifies `cursor, `q, `tint, `txon, `budget, tx
      ensures Valid() && budget <= old(budget)
      ensures q.base == old(q.base) && q.skip == old(q.skip) && q.live == old(q.live) + |chain|
      ensures Kept(old(q)) && q.accepted == old(q.accepted) + [Plain(Flatten(chain)) + Strays(pad)]
      ensures q.Idle() && q.Whole(old(q).live, chain, pad)
      ensures old(TintSound()) ==> TintSound()
    {
      Controller();
      HoldsOn(old(q), q, chain, pad, d);
      HandNow(i, chain, pad, d);
    }

    method HandNow(i: nat, ghost chain: seq<seq<byte>>, ghost pad: nat, d: TxDesc)
      requires Valid() && q.live < tx.Length && i == Slot(q.base, q.live, tx.Length)
      requires q.Holds(chain, pad, d) && |chain| <= most
      modifies `q, tx
      ensures Valid() && q.Idle()
      ensures !old(q).view[old(q).live].own && q.Whole(old(q).live, chain, pad)
      ensures q.base == old(q.base) && q.skip == old(q.skip) && q.live == old(q.live) + |chain|
      ensures Kept(old(q)) && q.accepted == old(q.accepted) + [Plain(Flatten(chain)) + Strays(pad)]
      ensures old(TintSound()) ==> TintSound()
    {
      ghost var r := PublishHeld(q, chain, pad, d, most);
      Put(i, q.live, d, r);
    }

    /** Puts one buffer into the ring as a packet of its own. */
    method QueueBuffer(buffer: seq<byte>)
      requires Valid() && q.live < tx.Length && q.Idle()
      requires nextToSend == Slot(q.base, q.live, tx.Length)
      modifies `cursor, `q, `tint, `txon, `budget, `nextToSend, tx
      ensures Valid() && budget <= old(budget)
      ensures q.base == old(q.base) && q.skip == old(q.skip) && q.live == old(q.live) + 1 && q.Idle()
      ensures nextToSend == Slot(q.base, q.live, tx.Length)
      ensures Kept(old(q)) && q.accepted == old(q.accepted) + [Plain(buffer)]
      ensures q.Whole(old(q).live, [buffer], 0)
      ensures old(TintSound()) ==> TintSound()
    {
      FillBuffer(buffer);
      GiveBuffer(buffer);
      nextToSend := Inc(nextToSend, tx.Length);
    }

    /** The buffer is filled, and the fields of its descriptor but for the status. */
    method FillBuffer(buffer: seq<byte>)
      requires Valid() && q.live < tx.Length && q.Idle() && nextToSend == Slot(q.base, q.live, tx.Length)
      modifies `cursor, `q, `tint, `txon, `budget, tx
      ensures Valid() && budget <= old(budget) && q.Idle() && old(q).Aside(q) && Filling(buffer)
      ensures old(TintSound()) ==> TintSound()
    {
      At(nextToSend, q.live);
      Prepare(nextToSend, q.live, tx[nextToSend].(ext := NO_EXT, length := -|buffer|, data := buffer));
      At(nextToSend, q.live);
    }

    /** The next descriptor is the host's, and ready but for its status. */
    ghost predicate Filling(buffer: seq<byte>)
      reads this, tx
    {
      && q.live < tx.Length == |q.view| && nextToSend == Slot(q.base, q.live, tx.Length) < tx.Length
      && var d := tx[nextToSend];
      !d.own && d.ext == NO_EXT && d.length == -|buffer| && d.data == buffer
    }

    /** The status is written: the packet is the controller's. */
    method GiveBuffer(buffer: seq<byte>)
      requires Valid() && Filling(buffer) && q.Idle()
      modifies `cursor, `q, `tint, `txon, `budget, tx
      ensures Valid() && budget <= old(budget)
      ensures q.base == old(q.base) && q.skip == old(q.skip) && q.live == old(q.live) + 1 && q.Idle()
      ensures nextToSend < tx.Length && Inc(nextToSend, tx.Length) == Slot(q.base, q.live, tx.Length)
      ensures Kept(old(q)) && q.accepted == old(q.accepted) + [Plain(buffer)]
      ensures q.Whole(old(q).live, [buffer], 0)
      ensures old(TintSound()) ==> TintSound()
    {
      assert Flatten([buffer]) == buffer;
      SlotStep(q.base, q.live, tx.Length);
      Hand(nextToSend, [buffer], 0,
           tx[nextToSend].(own := true, err := false, more := false, one := false, stp := true, enp := true));
      assert Plain(buffer) + Strays(0) == Plain(buffer);
    }

    /** `lnc_output_packet`. A full ring refuses the packet and stalls the output queue. */
    method LncOutputPacket(chain: seq<seq<byte>>) returns (stall: bool)
      requires Valid() && Settled() && |Flatten(chain)| <= BUFFER_SIZE
      modifies `cursor, `q, `tint, `txon, `budget, `nextToSend, `pending, `oactive, `stalled, `asked, tx
      ensures Valid() && Settled() && budget <= old(budget)
      ensures (old(Marked()) ==> Marked()) && (old(Throttled()) ==> Throttled())
      ensures stall <==> old(pending) == tx.Length
      ensures stall ==> q == old(q) && stalled && !asked && pending == old(pending)
      ensures !stall ==> q.accepted == old(q.accepted) + [Plain(Flatten(chain))]
      ensures !stall ==> q.Whole(old(q).live, [Flatten(chain)], 0)
      ensures !stall ==> pending == old(pending) + 1 && stalled == old(stalled) && asked == old(asked)
      ensures Kept(old(q))
      ensures old(TintSound()) ==> TintSound()
    {
      if pending >= tx.Length {
        stalled, asked := true, false;
        return true;
      }
      stall := false;
      Enqueue(chain);
    }

    method Enqueue(chain: seq<seq<byte>>)
      requires Valid() && Settled() && pending < tx.Length && |Flatten(chain)| <= BUFFER_SIZE
      modifies `cursor, `q, `tint, `txon, `budget, `nextToSend, `pending, `oactive, tx
      ensures Valid() && Settled() && budget <= old(budget)
      ensures (old(Marked()) ==> Marked()) && (old(Throttled()) ==> Throttled())
      ensures q.accepted == old(q.accepted) + [Plain(Flatten(chain))] && Kept(old(q))
      ensures q.Whole(old(q).live, [Flatten(chain)], 0)
      ensures pending == old(pending) + 1
      ensures old(TintSound()) ==> TintSound()
    {
      PlacePacket(chain);
      MarkIfFull();
    }

    method PlacePacket(chain: seq<seq<byte>>)
      requires Valid() && Settled() && pending < tx.Length && |Flatten(chain)| <= BUFFER_SIZE
      modifies `cursor, `q, `tint, `txon, `budget, `nextToSend, `pending, tx
      ensures Valid() && Settled() && budget <= old(budget) && pending == old(pending) + 1
      ensures q.accepted == old(q.accepted) + [Plain(Flatten(chain))] && Kept(old(q))
      ensures q.Whole(old(q).live, [Flatten(chain)], 0)
      ensures old(TintSound()) ==> TintSound()
    {
      pending := pending + 1;
      var buffer := MbufToBuffer(chain);
      QueueBuffer(buffer);
    }

    /** A full ring sets OACTIVE. */
    method MarkIfFull()
      requires Valid() && Settled()
      modifies `oactive
      ensures Valid() && Settled() && oactive == (old(oactive) || pending == tx.Length)
    {
      if pending >= tx.Length {
        oactive := true;
      }
    }

    /** The first `i` buffers have descriptors; `tmp` is where the next one goes. */
    ghost predicate Filled(chain: seq<seq<byte>>, i: nat, tmp: nat, len: int)
      reads this, tx
    {
      && Valid() && q.Prepared(chain, i, |chain|, -1, 0)
      && pending == q.live + i && tmp == Slot(q.base, pending, tx.Length)
      && len == MIN_FRAME - |Flatten(chain[..i])|
    }

    method FillOne(chain: seq<seq<byte>>, i: nat, tmp: nat, len: int) returns (tmp': nat, len': int)
      requires Filled(chain, i, tmp, len) && i < |chain|
      modifies `cursor, `q, `tint, `txon, `budget, `pending, tx
      ensures Filled(chain, i + 1, tmp', len')
      ensures budget <= old(budget) && old(q).Aside(q)
      ensures old(TintSound()) ==> TintSound()
    {
      FlattenSnoc(chain, i);
      SlotStep(q.base, q.live + i, tx.Length);
      FillDesc(chain, i, tmp);
      pending, len', tmp' := pending + 1, len - |chain[i]|, Inc(tmp, tx.Length);
    }

    method FillDesc(chain: seq<seq<byte>>, i: nat, tmp: nat)
      requires Valid() && i < |chain| && q.Prepared(chain, i, |chain|, -1, 0)
      requires tmp == Slot(q.base, q.live + i, tx.Length)
      modifies `cursor, `q, `tint, `txon, `budget, tx
      ensures Valid() && q.Prepared(chain, i + 1, |chain|, -1, 0) && old(q).Aside(q)
      ensures budget <= old(budget) && (old(TintSound()) ==> TintSound())
    {
      ghost var q0 := q;
      Prepare(tmp, q.live + i, ChainDesc(chain[i]));
      PreparedMore(q0, q, chain, i);
    }

    /** Fills one descriptor per buffer, none of them the controller's yet. */
    method FillChain(chain: seq<seq<byte>>) returns (tmp: nat, len: int)
      requires Valid() && Settled() && chain != [] && pending + |chain| <= tx.Length
      modifies `cursor, `q, `tint, `txon, `budget, `pending, tx
      ensures Filled(chain, |chain|, tmp, len)
      ensures budget <= old(budget) && old(q).Aside(q)
      ensures old(TintSound()) ==> TintSound()
    {
      tmp, len := nextToSend, MIN_FRAME;
      assert chain[..0] == [];
      for i := 0 to |chain|
        invariant old(TintSound()) ==> TintSound()
        invariant Filled(chain, i, tmp, len)
        invariant budget <= old(budget) && old(q).Aside(q)
      {
        tmp, len := FillOne(chain, i, tmp, len);
      }
    }

    /** Every buffer has its descriptor; `tmp` is the one behind them. */
    ghost predicate AllFilled(chain: seq<seq<byte>>, tmp: nat)
      reads this, tx
    {
      && Valid() && q.Prepared(chain, |chain|, |chain|, -1, 0)
      && tmp == Slot(q.base, q.live + |chain|, tx.Length)
    }

    /** Marks the last descriptor of a filled chain, and pads a packet that is too short. */
    method MarkLast(ghost chain: seq<seq<byte>>, tmp: nat, len: int) returns (last: nat, ghost pad: nat)
      requires chain != [] && AllFilled(chain, tmp)
      modifies `cursor, `q, `tint, `txon, `budget, tx
      ensures Owning(chain, |chain| - 1, last, pad)
      ensures pad == if 0 < len then len else 0
      ensures budget <= old(budget) && old(q).Aside(q)
      ensures old(TintSound()) ==> TintSound()
    {
      last := MarkEnd(chain, tmp);
      pad := PadShort(chain, last, len, old(q));
    }

    method MarkEnd(ghost chain: seq<seq<byte>>, tmp: nat) returns (last: nat)
      requires chain != [] && AllFilled(chain, tmp)
      modifies `cursor, `q, `tint, `txon, `budget, tx
      ensures Owning(chain, |chain| - 1, last, 0) && budget <= old(budget) && old(q).Aside(q)
      ensures old(TintSound()) ==> TintSound()
    {
      last := Dec(tmp, tx.Length);
      SetLast(chain, last);
    }

    method PadShort(ghost chain: seq<seq<byte>>, last: nat, len: int, ghost was: TxState) returns (ghost pad: nat)
      requires chain != [] && Owning(chain, |chain| - 1, last, 0) && was.Aside(q)
      modifies `cursor, `q, `tint, `txon, `budget, tx
      ensures Owning(chain, |chain| - 1, last, pad) && pad == if 0 < len then len else 0
      ensures budget <= old(budget) && was.Aside(q) && (old(TintSound()) ==> TintSound())
    {
      pad := 0;
      if 0 < len {
        pad := len;
        ghost var q0 := q;
        PadLast(chain, last, len);
        AsideOn(was, q0, q);
      }
    }

    /** Writes the `k`-th descriptor of a filled chain, whose first still has no OWN. */
    method Mark(i: nat, ghost chain: seq<seq<byte>>, ghost k: nat, d: TxDesc,
                ghost p: int, ghost last: int, ghost pad: nat, ghost p2: int, ghost last2: int, ghost pad2: nat)
      requires Valid() && q.Prepared(chain, |chain|, p, last, pad) && k <= p
      requires k < |chain| && i == Slot(q.base, q.live + k, tx.Length)
      requires Describes(d, chain[k], p2 < k, false, k == last2, pad2) && 0 <= p2
      requires Alike(chain, k, p, last, pad, p2, last2, pad2)
      modifies `cursor, `q, `tint, `txon, `budget, tx
      ensures Valid() && q.Prepared(chain, |chain|, p2, last2, pad2) && old(q).Aside(q)
      ensures budget <= old(budget) && (old(TintSound()) ==> TintSound())
    {
      ghost var q0 := q;
      Prepare(i, q.live + k, d);
      PreparedSets(q0, q, chain, p, last, pad, k, d, p2, last2, pad2);
    }

    lemma DescAt(chain: seq<seq<byte>>, i: nat, k: nat, p: int, last: int, pad: nat)
      requires Valid() && k < |chain| && q.Prepared(chain, |chain|, p, last, pad)
      requires i == Slot(q.base, q.live + k, tx.Length)
      ensures Describes(tx[i], chain[k], p < k, false, k == last, pad)
    {
      At(i, q.live + k);
    }

    method SetLast(ghost chain: seq<seq<byte>>, last: nat)
      requires Valid() && chain != [] && q.Prepared(chain, |chain|, |chain|, -1, 0)
      requires last == Slot(q.base, q.live + |chain| - 1, tx.Length)
      modifies `cursor, `q, `tint, `txon, `budget, tx
      ensures Valid() && q.Prepared(chain, |chain|, |chain| - 1, |chain| - 1, 0) && old(q).Aside(q)
      ensures budget <= old(budget) && (old(TintSound()) ==> TintSound())
    {
      ghost var k := |chain| - 1;
      DescAt(chain, last, k, |chain|, -1, 0);
      Mark(last, chain, k, tx[last].(enp := true), |chain|, -1, 0, k, k, 0);
    }

    method PadLast(ghost chain: seq<seq<byte>>, last: nat, pad: nat)
      requires Valid() && chain != [] && q.Prepared(chain, |chain|, |chain| - 1, |chain| - 1, 0)
      requires last == Slot(q.base, q.live + |chain| - 1, tx.Length)
      modifies `cursor, `q, `tint, `txon, `budget, tx
      ensures Valid() && q.Prepared(chain, |chain|, |chain| - 1, |chain| - 1, pad) && old(q).Aside(q)
      ensures budget <= old(budget) && (old(TintSound()) ==> TintSound())
    {
      ghost var k := |chain| - 1;
      DescAt(chain, last, k, k, k, 0);
      Mark(last, chain, k, tx[last].(length := tx[last].length - pad), k, k, 0, k, k, pad);
    }

    /** The buffers after the `p`-th have OWN set; `tmp` is the `p`-th descriptor. */
    ghost predicate Owning(chain: seq<seq<byte>>, p: nat, tmp: nat, pad: nat)
      reads this, tx
    {
      && Valid() && p < |chain| && q.Prepared(chain, |chain|, p, |chain| - 1, pad)
      && tmp == Slot(q.base, q.live + p, tx.Length)
    }

    /** At every write of the reverse loop the chain is invisible: its first descriptor has no
        OWN, so the controller, if it has a descriptor at all, is before it. */
    lemma Unseen(chain: seq<seq<byte>>, p: nat, tmp: nat, pad: nat)
      requires Owning(chain, p, tmp, pad)
      ensures !q.view[q.live].own && q.out <= q.live
      ensures tx[cursor].own ==> q.out < q.live
      ensures forall k | q.live <= k < q.live + |chain| ::
                q.view[k].own ==> cursor != Slot(q.base, k, tx.Length)
    {
      AtCursor();
      forall k | q.live <= k < q.live + |chain| && q.view[k].own
        ensures cursor != Slot(q.base, k, tx.Length)
      {
        SlotInjective(q.base, q.out, k, tx.Length);
      }
    }

    /** Since `was` only free descriptors have been prepared. */
    ghost predicate Working(was: TxState, b: nat, sound: bool)
      reads this
    {
      was.Aside(q) && budget <= b && (sound ==> TintSound())
    }

    /** The reverse loop has come down to the `p`-th descriptor, at `tmp`. */
    ghost predicate OwningDown(chain: seq<seq<byte>>, p: nat, tmp: nat, pad: nat, was: TxState, b: nat, sound: bool)
      reads this, tx
    {
      && Owning(chain, p, tmp, pad) && Working(was, b, sound)
      && nextToSend == Slot(q.base, q.live, tx.Length) && (tmp == nextToSend <==> p == 0)
    }

    /** Sets OWN on one descriptor that is not the packet's first. */
    method OwnOne(ghost chain: seq<seq<byte>>, ghost p: nat, tmp: nat, ghost pad: nat,
                  ghost was: TxState, ghost b: nat, ghost sound: bool)
      returns (next: nat, ghost p': nat)
      requires OwningDown(chain, p, tmp, pad, was, b, sound) && tmp != nextToSend
      modifies `cursor, `q, `tint, `txon, `budget, tx
      ensures OwningDown(chain, p', next, pad, was, b, sound) && p' < p
    {
      p' := p - 1;
      ghost var q0 := q;
      OwnDesc(chain, p, tmp, pad);
      AsideOn(was, q0, q);
      next := Dec(tmp, tx.Length);
    }

    method OwnDesc(ghost chain: seq<seq<byte>>, ghost p: nat, tmp: nat, ghost pad: nat)
      requires Owning(chain, p, tmp, pad) && 0 < p
      modifies `cursor, `q, `tint, `txon, `budget, tx
      ensures Valid() && q.Prepared(chain, |chain|, p - 1, |chain| - 1, pad) && old(q).Aside(q)
      ensures budget <= old(budget) && (old(TintSound()) ==> TintSound())
    {
      DescAt(chain, tmp, p, p, |chain| - 1, pad);
      Mark(tmp, chain, p, tx[tmp].(own := true), p, |chain| - 1, pad, p - 1, |chain| - 1, pad);
    }

    /** Sets OWN bits in reverse order, then gives the first descriptor away. */
    method PublishChain(chain: seq<seq<byte>>)
      requires Valid() && Settled() && chain != [] && pending + |chain| <= tx.Length
      requires |chain| <= most
      modifies `cursor, `q, `tint, `txon, `budget, `pending, `nextToSend, tx
      ensures Valid() && Settled() && budget <= old(budget)
      ensures pending == old(pending) + |chain|
      ensures Kept(old(q)) && q.accepted == old(q.accepted) + [Padded(Flatten(chain))]
      ensures q.Whole(old(q).live, chain, Shortfall(|Flatten(chain)|))
      ensures old(TintSound()) ==> TintSound()
    {
      var tmp, len := FillChain(chain);
      PublishFilled(chain, tmp, len);
    }

    method PublishFilled(chain: seq<seq<byte>>, endOfPacket: nat, len: int)
      requires Filled(chain, |chain|, endOfPacket, len) && chain != [] && |chain| <= most
      requires q.skip == 0 && transNext == q.base && nextToSend == Slot(q.base, q.live, tx.Length)
      modifies `cursor, `q, `tint, `txon, `budget, `nextToSend, tx
      ensures Valid() && Settled() && budget <= old(budget)
      ensures Kept(old(q)) && q.accepted == old(q.accepted) + [Padded(Flatten(chain))]
      ensures q.Whole(old(q).live, chain, Shortfall(|Flatten(chain)|))
      ensures old(TintSound()) ==> TintSound()
    {
      ghost var pad;
      var tmp;
      tmp, pad := OwnMarked(chain, endOfPacket, len);
      HandFirst(chain, tmp, pad, endOfPacket);
    }

    method OwnMarked(chain: seq<seq<byte>>, endOfPacket: nat, len: int) returns (tmp: nat, ghost pad: nat)
      requires Filled(chain, |chain|, endOfPacket, len) && chain != []
      requires nextToSend == Slot(q.base, q.live, tx.Length)
      modifies `cursor, `q, `tint, `txon, `budget, tx
      ensures Owning(chain, 0, tmp, pad) && pad == Shortfall(|Flatten(chain)|)
      ensures budget <= old(budget) && old(q).Aside(q)
      ensures old(TintSound()) ==> TintSound()
    {
      ShortfallIs(chain, len);
      tmp, pad := MarkLast(chain, endOfPacket, len);
      ghost var q1 := q;
      tmp := OwnAfterFirst(chain, tmp, pad);
      AsideOn(old(q), q1, q);
    }

    method OwnAfterFirst(ghost chain: seq<seq<byte>>, last: nat, ghost pad: nat) returns (tmp: nat)
      requires chain != [] && Owning(chain, |chain| - 1, last, pad)
      requires nextToSend == Slot(q.base, q.live, tx.Length)
      modifies `cursor, `q, `tint, `txon, `budget, tx
      ensures Owning(chain, 0, tmp, pad)
      ensures budget <= old(budget) && old(q).Aside(q)
      ensures old(TintSound()) ==> TintSound()
    {
      tmp := OwnDown(chain, last, pad, q, budget, TintSound());
    }

    /** The reverse loop: down to the packet's first descriptor, and no further. */
    method OwnDown(ghost chain: seq<seq<byte>>, last: nat, ghost pad: nat,
                   ghost was: TxState, ghost b: nat, ghost sound: bool) returns (tmp: nat)
      requires chain != [] && OwningDown(chain, |chain| - 1, last, pad, was, b, sound)
      modifies `cursor, `q, `tint, `txon, `budget, tx
      ensures OwningDown(chain, 0, tmp, pad, was, b, sound)
    {
      tmp := last;
      ghost var p: nat := |chain| - 1;
      while tmp != nextToSend
        invariant OwningDown(chain, p, tmp, pad, was, b, sound)
        decreases p
      {
        tmp, p := OwnOne(chain, p, tmp, pad, was, b, sound);
      }
    }

    method HandFirst(ghost chain: seq<seq<byte>>, tmp: nat, ghost pad: nat, endOfPacket: nat)
      requires Owning(chain, 0, tmp, pad) && q.skip == 0 && transNext == q.base
      requires pending == q.live + |chain| && endOfPacket == Slot(q.base, pending, tx.Length)
      requires |chain| <= most
      modifies `cursor, `q, `tint, `txon, `budget, `nextToSend, tx
      ensures Valid() && Settled() && budget <= old(budget)
      ensures Kept(old(q)) && q.accepted == old(q.accepted) + [Plain(Flatten(chain)) + Strays(pad)]
      ensures q.Whole(old(q).live, chain, pad)
      ensures old(TintSound()) ==> TintSound()
    {
      AdvanceTo(chain, tmp, pad, endOfPacket);
      HandHeld(chain, tmp, pad);
    }

    method AdvanceTo(ghost chain: seq<seq<byte>>, ghost tmp: nat, ghost pad: nat, endOfPacket: nat)
      requires Owning(chain, 0, tmp, pad) && endOfPacket < tx.Length
      modifies `nextToSend
      ensures Owning(chain, 0, tmp, pad) && nextToSend == endOfPacket
    {
      nextToSend := endOfPacket;
    }

    /** Sets OWN and STP on the first descriptor. */
    method HandHeld(ghost chain: seq<seq<byte>>, tmp: nat, ghost pad: nat)
      requires Owning(chain, 0, tmp, pad) && |chain| <= most
      modifies `cursor, `q, `tint, `txon, `budget, tx
      ensures Valid() && q.Idle() && budget <= old(budget) && Kept(old(q))
      ensures q.base == old(q.base) && q.skip == old(q.skip) && q.live == old(q.live) + |chain|
      ensures q.accepted == old(q.accepted) + [Plain(Flatten(chain)) + Strays(pad)]
      ensures q.Whole(old(q).live, chain, pad)
      ensures old(TintSound()) ==> TintSound()
    {
      At(tmp, q.live);
      PreparedHolds(q, chain, pad);
      Hand(tmp, chain, pad, tx[tmp].(own := true, stp := true));
    }

    /** `lnc_start`: takes packets off the queue until it is empty or the ring is full. A chain
        that needs more descriptors than are free is first copied into one cluster; if there
        is none to be had, the caller resets. */
    method LncStart(queue: seq<seq<seq<byte>>>, clusters: bool)
      returns (rest: seq<seq<seq<byte>>>, ok: bool, ghost k: nat)
      requires Valid() && Settled() && !oactive && pending < tx.Length
      requires Sendable(queue, most)
      modifies `cursor, `q, `tint, `txon, `budget, `pending, `nextToSend, `oactive, tx
      ensures Valid() && budget <= old(budget) && Kept(old(q))
      ensures k <= |queue| && q.accepted == old(q.accepted) + Joins(queue[..k])
      ensures Settled() && (ok ==> Marked() && (k == |queue| || pending == tx.Length))
      ensures !ok ==> k < |queue| && !clusters && |queue[k]| > tx.Length - pending
      ensures pending <= old(pending) + |Flatten(queue[..k])|
      ensures rest == queue[if ok then k else k + 1..]
      ensures old(TintSound()) ==> TintSound()
    {
      var i;
      assert queue[..0] == [];
      i, ok := StartFrom(queue, clusters, q.accepted, pending, budget, q, TintSound());
      k, rest := i, queue[if ok then i else i + 1..];
      if ok {
        MarkIfFull();
      }
    }

    /** Of `queue` the first `k` packets have been accepted, and unless `ok` the next one has
        failed; `was` is what had been accepted before, and `used` descriptors were in use. */
    ghost predicate Started(queue: seq<seq<seq<byte>>>, k: nat, ok: bool, was: seq<Wire>, used: nat)
      reads this, tx
    {
      && Valid() && Settled() && k <= |queue|
      && (!ok ==> k < |queue| && |queue[k]| > tx.Length - pending)
      && q.accepted == was + Joins(queue[..k]) && pending <= used + |Flatten(queue[..k])|
    }

    /** What queueing packets leaves alone, given what it was before. */
    ghost predicate Steady(b: nat, start: TxState, sound: bool)
      reads this
    {
      budget <= b && Kept(start) && (sound ==> TintSound())
    }

    /** The loop of `lnc_start`; `k` packets are accepted, and one more leaves the queue if it
        fails. */
    method StartFrom(queue: seq<seq<seq<byte>>>, clusters: bool, ghost was: seq<Wire>, ghost used: nat,
                     ghost b: nat, ghost start: TxState, ghost sound: bool)
      returns (k: nat, ok: bool)
      requires Started(queue, 0, true, was, used) && Steady(b, start, sound) && pending < tx.Length
      requires Sendable(queue, most)
      modifies `cursor, `q, `tint, `txon, `budget, `pending, `nextToSend, tx
      ensures Started(queue, k, ok, was, used) && Steady(b, start, sound) && (clusters ==> ok)
      ensures ok ==> k == |queue| || pending == tx.Length
    {
      k, ok := 0, true;
      while ok && k < |queue| && pending < tx.Length
        invariant Started(queue, k, ok, was, used) && Steady(b, start, sound) && (clusters ==> ok)
        decreases |queue| - k, ok
      {
        ok := StartNext(queue, k, queue[k], clusters, was, used, b, start, sound);
        if ok { k := k + 1; }
      }
    }

    /** Queues the packet at the head of what is left of the queue. */
    method StartNext(ghost queue: seq<seq<seq<byte>>>, ghost k: nat, head: seq<seq<byte>>, clusters: bool,
                     ghost was: seq<Wire>, ghost used: nat, ghost b: nat, ghost start: TxState, ghost sound: bool)
      returns (ok: bool)
      requires k < |queue| && Started(queue, k, true, was, used) && Steady(b, start, sound)
      requires pending < tx.Length && head == queue[k] && head != [] && |head| <= most
      modifies `cursor, `q, `tint, `txon, `budget, `pending, `nextToSend, tx
      ensures Started(queue, if ok then k + 1 else k, ok, was, used) && Steady(b, start, sound) && (clusters ==> ok)
    {
      ghost var sent;
      ok, sent := StartOne(head, clusters);
      JoinsSnoc(queue, k);
      FlattenSnoc(queue, k);
    }

    /** Queues one packet, as it is or copied into one cluster; `sent` is the chain in the ring. */
    method StartOne(head: seq<seq<byte>>, clusters: bool) returns (ok: bool, ghost sent: seq<seq<byte>>)
      requires Valid() && Settled() && pending < tx.Length && head != [] && |head| <= most
      modifies `cursor, `q, `tint, `txon, `budget, `pending, `nextToSend, tx
      ensures Valid() && budget <= old(budget) && Kept(old(q))
      ensures q.accepted == old(q.accepted) + (if ok then [Padded(Flatten(head))] else [])
      ensures ok ==> q.Whole(old(q).live, sent, Shortfall(|Flatten(head)|))
      ensures ok ==> Suits(head, sent, tx.Length - old(pending))
      ensures Settled() && (!ok ==> pending == old(pending))
      ensures ok <==> clusters || |head| <= tx.Length - old(pending)
      ensures pending <= old(pending) + |head|
      ensures old(TintSound()) ==> TintSound()
    {
      ok, sent := true, head;
      if |head| <= tx.Length - pending {
        var chain := head;
        if lance {
          chain := FirstFragment.Shuffle(head);
        }
        sent := chain;
        PublishChain(chain);
      } else if clusters {
        var cluster := MbufToBuffer(head);
        assert Flatten([cluster]) == cluster;
        sent := [cluster];
        PublishChain([cluster]);
      } else {
        ok := false;
      }
    }

    /** `sent` is the packet `head` as the chip wants it, with `room` free descriptors: as it is,
        with 100 bytes in its first buffer, or in one buffer. */
    ghost predicate Suits(head: seq<seq<byte>>, sent: seq<seq<byte>>, room: int) {
      && sent != [] && Flatten(sent) == Flatten(head)
      && (if room < |head| then |sent| == 1
          else if lance then FirstFragment.Shuffled(head, sent)
          else sent == head)
    }
  }

  lemma ShortfallIs(chain: seq<seq<byte>>, len: int)
    requires len == MIN_FRAME - |Flatten(chain[..|chain|])|
    ensures Shortfall(|Flatten(chain)|) == if 0 < len then len else 0
  {
    assert chain[..|chain|] == chain;
  }

  /** No packet of the queue is empty or needs more than `most` descriptors. */
  ghost predicate Sendable(queue: seq<seq<seq<byte>>>, most: nat) {
    forall i | 0 <= i < |queue| :: queue[i] != [] && |queue[i]| <= most
  }

  /** The frames a queue of chains stands for. */
  function Joins(queue: seq<seq<seq<byte>>>): seq<Wire> {
    seq(|queue|, i requires 0 <= i < |queue| => Padded(Flatten(queue[i])))
  }

  lemma JoinsSnoc(queue: seq<seq<seq<byte>>>, i: nat)
    requires i < |queue|
    ensures Joins(queue[..i + 1]) == Joins(queue[..i]) + [Padded(Flatten(queue[i]))]
  {
  }
}
