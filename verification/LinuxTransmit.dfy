/** The transmit ring of the Linux driver: two free-running 32-bit counters, a buffer pointer
    that doubles as the mark of a slot in use, and a queue that is stopped and woken.
 */
module LinuxTransmit {
  import opened Rings
  import opened Counters

  const SIZE := 16            // TX_RING_SIZE

  /** A socket buffer, and the bus address it is mapped at; 0 stands for none. */
  type Skb = nat

  /** A packet as the stack hands it over: its buffer, its length, and where it is mapped. */
  datatype Packet = Packet(skb: Skb, len: int, dma: nat)

  /** One slot of `tx_ring`, `tx_skbuff` and `tx_dma_addr`; `length` is the negated length. */
  datatype TxSlot = TxSlot(own: bool, err: bool, fifo: bool, base: nat, length: int, skb: Skb, dma: nat)
  {
    predicate InUse() { base != 0 && skb != 0 && dma == base }

    predicate Unused() { !own && base == 0 && skb == 0 && dma == 0 }

    /** The report of a FIFO error, after which the transmitter is off. */
    predicate Failed() { err && fifo }

    /** The packet, from what the controller reads: the length and the bus address. */
    function Carried(): Packet { Packet(skb, -length, base) }

    /** The controller writes nothing but its report. */
    predicate Keeps(s: TxSlot) {
      base == s.base && length == s.length && skb == s.skb && dma == s.dma
    }
  }

  const UNUSED := TxSlot(false, false, false, 0, 0, 0, 0)

  /** The ring from the slot of the oldest packet: `done` packets have been sent, `used` are in
      the ring, and every other slot is unused, except for one that may be being filled. */
  datatype TxWindow = TxWindow(base: nat, view: seq<TxSlot>, done: nat, used: nat, staged: bool)
  {
    ghost predicate Sound() {
      && base < |view| == SIZE && done <= used <= SIZE
      && (forall i | 0 <= i < used :: view[i].InUse())
      && (forall i | 0 <= i < done :: !view[i].own)
      && (forall i | done <= i < used :: view[i].own)
      && (forall i | used <= i < SIZE :: if i == used && staged then !view[i].own else view[i].Unused())
    }

    /** The packets in the ring, oldest first. */
    function Pending(): seq<Packet>
      requires used <= |view|
    {
      PacketsOf(view[..used])
    }

    /** A packet that met a FIFO error waits to be freed. */
    ghost predicate Failing()
      requires done <= |view|
    {
      exists i | 0 <= i < done :: view[i].Failed()
    }

    ghost predicate Leads(to: TxWindow) {
      && to.base == base && to.used == used && to.staged == staged && |to.view| == |view| && done <= to.done
      && (forall i | 0 <= i < |view| :: to.view[i].Keeps(view[i]))
      && (forall i | 0 <= i < |view| && (i < done || used <= i) :: to.view[i] == view[i])
    }
  }

  type Window = w: TxWindow | w.Sound()
    ghost witness TxWindow(0, seq(SIZE, _ => UNUSED), 0, 0, false)

  function PacketsOf(s: seq<TxSlot>): (t: seq<Packet>)
    ensures |t| == |s|
  {
    seq(|s|, i requires 0 <= i < |s| => s[i].Carried())
  }

  lemma PendingSame(w: Window, x: Window)
    requires w.Leads(x)
    ensures x.Pending() == w.Pending()
  {
    assert forall i | 0 <= i < SIZE :: x.view[i].Keeps(w.view[i]);
  }

  lemma LeadsOn(a: Window, b: Window, c: Window)
    requires a.Leads(b) && b.Leads(c)
    ensures a.Leads(c)
  {
    assert forall i | 0 <= i < SIZE :: b.view[i].Keeps(a.view[i]) && c.view[i].Keeps(b.view[i]);
  }

  /** The controller is done with the oldest packet it has. */
  function Sent(w: Window, err: bool, fifo: bool): (x: Window)
    requires w.done < w.used
    ensures w.Leads(x) && x.done == w.done + 1
    ensures x.view == w.view[w.done := w.view[w.done].(own := false, err := err, fifo := fifo)]
    ensures x.Failing() <==> w.Failing() || (err && fifo)
  {
    var s := w.view[w.done].(own := false, err := err, fifo := fifo);
    var x := w.(view := w.view[w.done := s], done := w.done + 1);
    assert forall i | 0 <= i < w.done :: x.view[i] == w.view[i];
    assert x.view[w.done].Failed() <==> err && fifo;
    x
  }

  /** The first unused slot is being filled; the controller does not see it yet. */
  function Staged(w: Window, s: TxSlot): (x: Window)
    requires w.used < SIZE && !s.own
    ensures x.Pending() == w.Pending() && (x.Failing() <==> w.Failing())
  {
    var x := w.(view := w.view[w.used := s], staged := true);
    assert x.view[..x.used] == w.view[..w.used];
    assert forall i | 0 <= i < w.done :: x.view[i] == w.view[i];
    x
  }

  /** The filled slot is given to the controller. */
  function Entered(w: Window, s: TxSlot): (x: Window)
    requires w.used < SIZE && w.staged && s.InUse() && s.own
    ensures x.Pending() == w.Pending() + [s.Carried()] && (x.Failing() <==> w.Failing())
  {
    var x := w.(view := w.view[w.used := s], used := w.used + 1, staged := false);
    assert x.view[..x.used] == w.view[..w.used] + [s];
    assert forall i | 0 <= i < w.done :: x.view[i] == w.view[i];
    x
  }

  /** The oldest packet leaves; its slot becomes the last unused one. */
  function Left(w: Window, s: TxSlot): (x: Window)
    requires 0 < w.done && !w.staged && s.Unused()
    ensures [w.view[0].Carried()] + x.Pending() == w.Pending()
    ensures w.Failing() <==> w.view[0].Failed() || x.Failing()
  {
    var x := w.(base := Inc(w.base, SIZE), view := w.view[1..] + [s], done := w.done - 1, used := w.used - 1);
    assert x.view[..x.used] == w.view[1..w.used];
    assert forall i | 0 < i < w.done :: w.view[i] == x.view[i - 1];
    assert forall i | 0 <= i < x.done :: x.view[i] == w.view[i + 1];
    x
  }

  lemma Behind(s: seq<Packet>, t: seq<Packet>, x: Packet, u: seq<Packet>)
    requires s + u == s + t + [x]
    ensures u == t + [x]
  {
    assert u == (s + u)[|s|..] && t + [x] == (s + t + [x])[|s|..];
  }

  lemma Joined(s: seq<Packet>, x: Packet, t: seq<Packet>)
    ensures s + ([x] + t) == s + [x] + t
  {
  }

  /** As many freed as had been sent: those freed are the ones sent, and perhaps more. */
  lemma AllSent(before: seq<Packet>, waiting: seq<Packet>, done: nat, after: seq<Packet>, rest: seq<Packet>)
    requires done <= |waiting| && before + waiting == after + rest && |rest| <= |waiting| - done
    ensures before + waiting[..done] <= after
    ensures |rest| == |waiting| - done ==> before + waiting[..done] == after
  {
    var all := before + waiting;
    assert before + waiting[..done] == all[..|before| + done];
    assert after == all[..|after|];
  }

  class LinuxTransmitter {
    const ring: array<TxSlot>
    var curTx: Counter
    var dirtyTx: Counter
    var txFull: bool
    var stopped: bool

    // The controller.
    var cursor: nat
    var running: bool
    var budget: nat

    // How often the controller has met a FIFO error, and how often by the last initialisation.
    ghost var fifos: nat
    ghost var mended: nat

    // The ring; the packets taken over, less those dropped; those sent and freed; those dropped.
    ghost var w: Window
    ghost var accepted: seq<Packet>
    ghost var freed: seq<Packet>
    ghost var dropped: multiset<Packet>

    // A packet that met a FIFO error has been freed.
    ghost var halted: bool

    /** The ring matches the counters, `dirty` being the driver's working copy of `dirty_tx`. */
    ghost predicate Matches(dirty: Counter)
      reads this, ring
    {
      && ring.Length == SIZE
      && w.view == View(ring[..], w.base)
      && w.base == dirty % SIZE && w.used == Ahead(curTx, dirty)
      && cursor == Slot(w.base, w.done, SIZE)
      && accepted == freed + w.Pending()
      && (running <==> !halted && !w.Failing())
      && fifos == mended + if running then 0 else 1
    }

    /** The queue is stopped when the ring is full, and as long as it is almost full. */
    ghost predicate Queued()
      reads this
    {
      && txFull == stopped
      && (w.used == SIZE ==> stopped)
      && (stopped ==> SIZE - 2 <= w.used)
    }

    ghost predicate Valid()
      reads this, ring
    {
      Matches(dirtyTx) && Queued() && !w.staged
    }

    constructor (budget: nat)
      ensures Valid() && !stopped && !halted && accepted == freed == [] && dropped == multiset{} && fresh(ring)
      ensures this.budget == budget && fifos == 0
    {
      ring := new TxSlot[SIZE](_ => UNUSED);
      this.budget := budget;
      curTx, dirtyTx, cursor := 0, 0, 0;
      txFull, stopped, running := false, false, true;
      w := TxWindow(0, seq(SIZE, _ => UNUSED), 0, 0, false);
      accepted, freed, dropped, halted, fifos, mended := [], [], multiset{}, false, 0, 0;
      new;
      ViewWhole(ring[..]);
      assert ring[..] == seq(SIZE, _ => UNUSED);
    }

    /** A slot's buffer address is non-zero exactly while its counter is between the two. */
    lemma BaseMarksWindow(c: Counter)
      requires Valid() && Ahead(c, dirtyTx) < SIZE
      ensures ring[c % SIZE].base != 0 <==> Ahead(c, dirtyTx) < Ahead(curTx, dirtyTx)
    {
      MaskAhead(c, dirtyTx, SIZE);
      ViewAt(ring[..], w.base, Ahead(c, dirtyTx));
    }

    /** While the queue runs, the slot the next packet goes to is free. */
    lemma FreeUnlessStopped()
      requires Valid() && !stopped
      ensures ring[curTx % SIZE].base == 0 && !ring[curTx % SIZE].own
    {
      MaskAhead(curTx, dirtyTx, SIZE);
      ViewAt(ring[..], w.base, w.used);
    }

    /** A write to the `k`-th slot of the view. */
    method Put(i: nat, ghost k: nat, s: TxSlot, ghost to: Window)
      requires ring.Length == SIZE && w.view == View(ring[..], w.base)
      requires k < SIZE && i == Slot(w.base, k, SIZE)
      requires to.view == w.view[k := s] && to.base == w.base
      modifies ring, `w
      ensures w == to && w.view == View(ring[..], w.base)
    {
      ghost var r := ring[..];
      ViewSet(r, w.base, k, s);
      ring[i] := s;
      assert ring[..] == r[i := s];
      w := to;
    }

    method ControllerStep(err: bool, fifo: bool, ghost dirty: Counter)
      requires Matches(dirty)
      modifies `cursor, `running, `fifos, `w, ring
      ensures Matches(dirty) && old(w).Leads(w)
      ensures old(fifos) <= fifos
    {
      ViewAt(ring[..], w.base, if w.done < SIZE then w.done else 0);
      if running && ring[cursor].own {
        ghost var to := Sent(w, err, fifo);
        PendingSame(w, to);
        SlotStep(w.base, w.done, SIZE);
        Put(cursor, w.done, ring[cursor].(own := false, err := err, fifo := fifo), to);
        cursor, running := Inc(cursor, SIZE), !(err && fifo);
        fifos := fifos + if err && fifo then 1 else 0;
      }
    }

    /** Any number of controller steps. */
    method Controller(ghost dirty: Counter)
      requires Matches(dirty)
      modifies `cursor, `running, `fifos, `w, `budget, ring
      ensures Matches(dirty) && old(w).Leads(w)
      ensures budget <= old(budget) && (budget == old(budget) ==> w == old(w))
      ensures old(fifos) <= fifos
    {
      while *
        invariant Matches(dirty) && old(w).Leads(w)
        invariant budget <= old(budget) && (budget == old(budget) ==> w == old(w))
        invariant old(fifos) <= fifos
        decreases budget
      {
        if budget == 0 { break; }
        budget := budget - 1;
        var err: bool, fifo: bool := *, *;
        ghost var w1 := w;
        ControllerStep(err, fifo, dirty);
        LeadsOn(old(w), w1, w);
      }
    }

    /** `pcnet32_start_xmit`. The stack calls it only while the queue is not stopped. */
    method StartXmit(skb: Skb, len: int, dma: nat)
      requires Valid() && !stopped && skb != 0 && dma != 0
      modifies `curTx, `txFull, `stopped, `cursor, `running, `fifos, `w, `budget, `accepted, ring
      ensures Valid() && accepted == old(accepted) + [Packet(skb, len, dma)]
      ensures w.Pending() == old(w.Pending()) + [Packet(skb, len, dma)]
      ensures w.used == old(w.used) + 1 && (stopped <==> w.used == SIZE)
      ensures old(fifos) <= fifos
    {
      MaskAhead(curTx, dirtyTx, SIZE);
      AheadNext(curTx, dirtyTx);
      var entry := curTx % SIZE;
      Fill(entry, skb, len, dma);
      curTx := Next(curTx);
      StopIfFull(entry);
      Behind(freed, old(w.Pending()), Packet(skb, len, dma), w.Pending());
    }

    /** Fills a slot and, when all the rest is written, gives it to the controller. */
    method Fill(entry: nat, skb: Skb, len: int, dma: nat)
      requires Matches(dirtyTx) && !w.staged && w.used < SIZE && entry == Slot(w.base, w.used, SIZE)
      requires skb != 0 && dma != 0
      modifies `cursor, `running, `fifos, `w, `budget, `accepted, ring
      ensures w.base == old(w.base) && w.used == old(w.used) + 1 && !w.staged && Entering()
      ensures accepted == old(accepted) + [Packet(skb, len, dma)]
      ensures old(fifos) <= fifos
    {
      FillFields(entry, skb, len, dma);
      Give(entry);
    }

    /** What `Matches` says while the counter does not yet count the packet just given away. */
    ghost predicate Entering()
      reads this, ring
    {
      && ring.Length == SIZE && w.view == View(ring[..], w.base) && cursor == Slot(w.base, w.done, SIZE)
      && accepted == freed + w.Pending() && (running <==> !halted && !w.Failing())
      && fifos == mended + if running then 0 else 1
    }

    /** All fields but the status are written, with the controller active in between; it neither
        owns the slot nor sees another packet. */
    method FillFields(entry: nat, skb: Skb, len: int, dma: nat)
      requires Matches(dirtyTx) && !w.staged && w.used < SIZE && entry == Slot(w.base, w.used, SIZE)
      requires skb != 0 && dma != 0
      modifies `cursor, `running, `fifos, `w, `budget, ring
      ensures Matches(dirtyTx) && w.staged && w.used == old(w.used) && w.base == old(w.base)
      ensures w.view[w.used] == TxSlot(false, false, false, dma, -len, skb, dma)
      ensures old(fifos) <= fifos
    {
      Controller(dirtyTx);
      ViewAt(ring[..], w.base, w.used);
      FillField(entry, ring[entry].(length := -len));
      FillField(entry, ring[entry].(err := false, fifo := false));
      FillField(entry, ring[entry].(skb := skb, dma := dma));
      FillField(entry, ring[entry].(base := dma));
    }

    /** One write to the slot being filled, after which the controller may act. */
    method FillField(entry: nat, s: TxSlot)
      requires Matches(dirtyTx) && w.used < SIZE && entry == Slot(w.base, w.used, SIZE) && !s.own
      modifies `cursor, `running, `fifos, `w, `budget, ring
      ensures Matches(dirtyTx) && w.staged && w.used == old(w.used) && w.base == old(w.base)
      ensures w.view[w.used] == ring[entry] == s
      ensures old(fifos) <= fifos
    {
      Put(entry, w.used, s, Staged(w, s));
      Controller(dirtyTx);
      ViewAt(ring[..], w.base, w.used);
    }

    /** The status is written last: nothing but OWN changes, and the packet is in the ring. */
    method Give(entry: nat)
      requires Matches(dirtyTx) && w.staged && w.used < SIZE && entry == Slot(w.base, w.used, SIZE)
      requires w.view[w.used].InUse()
      modifies `w, `accepted, ring
      ensures w.base == old(w.base) && w.used == old(w.used) + 1 && !w.staged && Entering()
      ensures w.view == old(w.view[w.used := w.view[w.used].(own := true)])
      ensures accepted == old(accepted) + [old(w).view[old(w).used].Carried()]
    {
      ViewAt(ring[..], w.base, w.used);
      var s := ring[entry].(own := true);
      accepted := accepted + [s.Carried()];
      Put(entry, w.used, s, Entered(w, s));
    }

    /** Looks at the next slot: if it is in use, the ring is full. */
    method StopIfFull(entry: nat)
      requires Matches(dirtyTx) && 0 < w.used && entry == Slot(w.base, w.used - 1, SIZE)
      requires !stopped && !txFull && !w.staged
      modifies `txFull, `stopped, `cursor, `running, `fifos, `w, `budget, ring
      ensures Valid() && w.used == old(w.used) && (stopped <==> w.used == SIZE)
      ensures old(fifos) <= fifos
    {
      var next := (entry + 1) % SIZE;
      SlotStep(w.base, w.used - 1, SIZE);
      assert next == Inc(entry, SIZE);
      Controller(dirtyTx);
      ViewAt(ring[..], w.base, if w.used < SIZE then w.used else 0);
      if ring[next].base != 0 {
        txFull, stopped := true, true;
      }
    }

    /** Frees the oldest packet. */
    method Reclaim(dirty: Counter) returns (failed: bool)
      requires Matches(dirty) && 0 < w.done && !w.staged
      modifies `w, `freed, `halted, ring
      ensures Matches(Next(dirty)) && !w.staged
      ensures w.used == old(w.used) - 1 && w.done == old(w.done) - 1
      ensures freed == old(freed) + [old(w).view[0].Carried()]
      ensures failed == old(w).view[0].Failed() && halted == (old(halted) || failed)
    {
      var entry := dirty % SIZE;
      ViewAt(ring[..], w.base, 0);
      CountersNext(dirty);
      failed := ring[entry].Failed();
      ghost var x := Left(w, ring[entry].(base := 0, skb := 0, dma := 0));
      Joined(freed, ring[entry].Carried(), x.Pending());
      freed, halted := freed + [ring[entry].Carried()], halted || failed;
      Release(entry, x);
      w := x;
    }

    /** The counters and the controller's cursor once the oldest packet is left out. */
    lemma CountersNext(dirty: Counter)
      requires Matches(dirty) && 0 < w.done
      ensures Next(dirty) % SIZE == Inc(w.base, SIZE) && Ahead(curTx, Next(dirty)) == w.used - 1
      ensures cursor == Slot(Inc(w.base, SIZE), w.done - 1, SIZE)
    {
      MaskNext(dirty, SIZE);
      AheadNext(curTx, dirty);
      SlotStep(w.base, w.done - 1, SIZE);
    }

    /** Marks the oldest slot as unused. */
    method Release(entry: nat, ghost x: Window)
      requires ring.Length == SIZE && w.view == View(ring[..], w.base) && entry == w.base
      requires x.base == Inc(w.base, SIZE)
      requires x.view == w.view[1..] + [ring[entry].(base := 0, skb := 0, dma := 0)]
      modifies ring
      ensures x.view == View(ring[..], x.base)
    {
      ghost var r, d := ring[..], ring[entry].(base := 0, skb := 0, dma := 0);
      ViewSet(r, w.base, 0, d);
      ViewStep(r[entry := d], w.base);
      ring[entry] := ring[entry].(base := 0, skb := 0, dma := 0);
      assert ring[..] == r[entry := d];
    }

    /** Looks at the oldest packet, and frees it if it has been sent. */
    method Look(dirty: Counter) returns (sent: bool, failed: bool, dirty': Counter)
      requires Matches(dirty) && 0 < w.used && !w.staged
      modifies `cursor, `running, `fifos, `w, `budget, `freed, `halted, ring
      ensures Matches(dirty') && !w.staged && halted == (old(halted) || failed)
      ensures budget <= old(budget) && w.used <= old(w.used) && (sent <==> w.used == old(w.used) - 1)
      ensures w.used - w.done <= old(w.used) - old(w.done)
      ensures budget == old(budget) ==> w.used - w.done == old(w.used) - old(w.done)
      ensures !sent ==> w.used == old(w.used) && w.done == 0
      ensures old(fifos) <= fifos
    {
      Controller(dirty);
      var entry := dirty % SIZE;
      ViewAt(ring[..], w.base, 0);
      sent, failed, dirty' := !ring[entry].own, false, dirty;
      if sent {
        failed := Reclaim(dirty);
        dirty' := Next(dirty);
      }
    }

    /** The loop of the transmit part of `pcnet32_interrupt`. */
    method FreeSent() returns (mustRestart: bool, dirty: Counter)
      requires Valid() && !halted
      modifies `cursor, `running, `fifos, `w, `budget, `freed, `halted, ring
      ensures Matches(dirty) && !w.staged && w.done == 0 && mustRestart == halted
      ensures w.used <= old(w.used) - old(w.done) && budget <= old(budget)
      ensures budget == old(budget) ==> w.used == old(w.used) - old(w.done)
      ensures old(fifos) <= fifos
    {
      mustRestart, dirty := false, dirtyTx;
      var more := true;
      while more && dirty != curTx
        modifies `cursor, `running, `fifos, `w, `budget, `freed, `halted, ring
        invariant Matches(dirty) && !w.staged && mustRestart == halted
        invariant budget <= old(budget) && w.used - w.done <= old(w.used) - old(w.done)
        invariant budget == old(budget) ==> w.used - w.done == old(w.used) - old(w.done)
        invariant !more ==> w.done == 0
        invariant old(fifos) <= fifos
        decreases w.used, more
      {
        var failed;
        more, failed, dirty := Look(dirty);
        mustRestart := mustRestart || failed;
      }
    }

    /** The transmit part of `pcnet32_interrupt`: it frees every packet that has been sent when
        it reads the slot, among them all that had been sent before, and asks for a restart
        exactly when one of them has turned the transmitter off. */
    method TxInterrupt() returns (mustRestart: bool)
      requires Valid() && !halted
      modifies `dirtyTx, `txFull, `stopped, `cursor, `running, `fifos, `w, `budget, `freed, `halted, ring
      ensures Valid() && (stopped <==> old(stopped) && SIZE - 2 <= w.used)
      ensures w.done == 0 && old(freed + w.Pending()[..w.done]) <= freed
      ensures budget <= old(budget)
      ensures budget == old(budget) ==> freed == old(freed + w.Pending()[..w.done])
      ensures mustRestart == halted == !running
      ensures old(fifos) <= fifos
    {
      var dirty;
      mustRestart, dirty := FreeSent();
      AllSent(old(freed), old(w.Pending()), old(w.done), freed, w.Pending());
      WakeIfRoom(dirty);
      dirtyTx := dirty;
    }

    /** Wakes the queue once three slots are unused. The branch on which the source finds its
        counters out of sync cannot be taken. */
    method WakeIfRoom(dirty: Counter)
      requires Matches(dirty) && txFull == stopped && (w.used == SIZE ==> stopped)
      modifies `txFull, `stopped
      ensures Queued() && (stopped <==> old(stopped) && SIZE - 2 <= w.used)
    {
      var delta := Ahead(curTx, dirty) % (2 * SIZE);
      if delta > SIZE {
        assert false;      // out-of-sync dirty pointer
      }
      if txFull && stopped && delta < SIZE - 2 {
        txFull, stopped := false, false;
      }
    }

    /** `pcnet32_purge_tx_ring`, with the controller stopped: whatever is in the ring is freed,
        slot by slot. */
    method Purge()
      requires Valid()
      modifies `dropped, `accepted, ring
      ensures dropped == old(dropped) + multiset(old(w.Pending()))
      ensures accepted == freed && forall i | 0 <= i < SIZE :: !ring[i].own && ring[i].skb == ring[i].dma == 0
    {
      HeldView(ring[..], w.base);
      HeldPending(w);
      ghost var held := PurgeAll();
      dropped, accepted := dropped + held, freed;
    }

    method PurgeAll() returns (ghost held: multiset<Packet>)
      requires ring.Length == SIZE
      modifies ring
      ensures held == Held(old(ring[..]))
      ensures forall i | 0 <= i < SIZE :: ring[i] == old(ring[i]).(own := false, skb := 0, dma := 0)
    {
      held := multiset{};
      ghost var r := ring[..];
      for i := 0 to SIZE
        invariant forall j | i <= j < SIZE :: ring[j] == r[j]
        invariant forall j | 0 <= j < i :: ring[j] == r[j].(own := false, skb := 0, dma := 0)
        invariant held == Held(r[..i])
      {
        HeldSnoc(r, i);
        ghost var more := PurgeSlot(i);
        held := held + more;
      }
      assert r[..SIZE] == r;
    }

    /** Frees the packet in one slot, if there is one. */
    method PurgeSlot(i: nat) returns (ghost held: multiset<Packet>)
      requires i < ring.Length
      modifies ring
      ensures held == Load(old(ring[i])) && ring[i] == old(ring[i]).(own := false, skb := 0, dma := 0)
      ensures forall j | 0 <= j < ring.Length && j != i :: ring[j] == old(ring[j])
    {
      held := multiset{};
      ring[i] := ring[i].(own := false);
      if ring[i].skb != 0 {
        held := multiset{ring[i].Carried()};
      }
      ring[i] := ring[i].(skb := 0, dma := 0);
    }

    /** The transmit part of `pcnet32_init_ring`, for a ring that holds no packet. */
    method InitRing()
      requires ring.Length == SIZE && accepted == freed && (forall i | 0 <= i < SIZE :: ring[i].skb == 0)
      modifies `curTx, `dirtyTx, `txFull, `cursor, `running, `mended, `w, `halted, ring
      ensures Matches(dirtyTx) && !w.staged && w.used == 0 && !txFull && !halted && curTx == dirtyTx == 0
    {
      txFull, curTx, dirtyTx, halted := false, 0, 0, false;
      ClearSlots();
      cursor, running, mended := 0, true, fifos;
      ViewWhole(ring[..]);
      w := TxWindow(0, ring[..], 0, 0, false);
    }

    method ClearSlots()
      requires ring.Length == SIZE && forall i | 0 <= i < SIZE :: ring[i].skb == 0
      modifies ring
      ensures forall i | 0 <= i < SIZE :: ring[i].Unused()
    {
      for i := 0 to SIZE
        invariant forall j | 0 <= j < i :: ring[j].Unused()
        invariant forall j | i <= j < SIZE :: ring[j].skb == 0
      {
        ring[i] := ring[i].(own := false, base := 0, dma := 0);
      }
    }

    /** `netif_wake_queue` after a restart. */
    method Wake()
      requires Matches(dirtyTx) && !w.staged && w.used == 0 && !txFull
      modifies `stopped
      ensures Valid() && !stopped
    {
      stopped := false;
    }
  }

  /** The packet a slot holds, if any. */
  function Load(s: TxSlot): multiset<Packet> { if s.skb != 0 then multiset{s.Carried()} else multiset{} }

  /** The packets a run of slots holds. */
  function Held(s: seq<TxSlot>): multiset<Packet> {
    if s == [] then multiset{} else Held(s[..|s| - 1]) + Load(s[|s| - 1])
  }

  lemma HeldSnoc(s: seq<TxSlot>, i: nat)
    requires i < |s|
    ensures Held(s[..i + 1]) == Held(s[..i]) + Load(s[i])
  {
    assert s[..i + 1][..i] == s[..i];
  }

  lemma Associative(a: multiset<Packet>, b: multiset<Packet>, c: multiset<Packet>)
    ensures (a + b) + c == a + (b + c)
  {
  }

  lemma {:induction false} HeldAppend(s: seq<TxSlot>, t: seq<TxSlot>)
    ensures Held(s + t) == Held(s) + Held(t)
  {
    if t == [] {
      assert s + t == s;
    } else {
      var n := |t| - 1;
      assert (s + t)[..|s| + n] == s + t[..n];
      HeldAppend(s, t[..n]);
      Associative(Held(s), Held(t[..n]), Load(t[n]));
    }
  }

  lemma HeldSwap(s: seq<TxSlot>, t: seq<TxSlot>)
    ensures Held(s + t) == Held(t + s)
  {
    HeldAppend(s, t);
    HeldAppend(t, s);
  }

  lemma {:induction false} HeldView(r: seq<TxSlot>, p: nat)
    requires p < |r|
    ensures Held(View(r, p)) == Held(r)
  {
    ViewParts(r, p);
    HeldSwap(r[..p], r[p..]);
    assert r == r[..p] + r[p..];
  }

  lemma PacketsSnoc(s: seq<TxSlot>, n: nat)
    requires |s| == n + 1
    ensures multiset(PacketsOf(s)) == multiset(PacketsOf(s[..n])) + multiset{s[n].Carried()}
  {
    assert PacketsOf(s) == PacketsOf(s[..n]) + [s[n].Carried()];
  }

  lemma {:induction false} HeldSome(s: seq<TxSlot>)
    requires forall i | 0 <= i < |s| :: s[i].skb != 0
    ensures Held(s) == multiset(PacketsOf(s))
  {
    if s != [] {
      var n := |s| - 1;
      HeldSome(s[..n]);
      PacketsSnoc(s, n);
    }
  }

  lemma {:induction false} HeldPrefix(s: seq<TxSlot>, k: nat)
    requires k <= |s| && (forall i | 0 <= i < k :: s[i].skb != 0) && forall i | k <= i < |s| :: s[i].skb == 0
    ensures Held(s) == multiset(PacketsOf(s[..k]))
  {
    if k == |s| {
      assert s[..k] == s;
      HeldSome(s);
    } else {
      var n := |s| - 1;
      assert s[..n][..k] == s[..k];
      HeldPrefix(s[..n], k);
    }
  }

  /** The ring holds the pending packets and no other. */
  lemma {:induction false} HeldPending(w: Window)
    requires !w.staged
    ensures Held(w.view) == multiset(w.Pending())
  {
    HeldPrefix(w.view, w.used);
  }
}
