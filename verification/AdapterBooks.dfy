/** What a run of the adapter is: the states of both rings before and after each request, and
    what a request makes of them.
 */
module AdapterBooks {
  import opened Descriptors
  import Rings
  import Runs
  import RxLayout
  import TransmitEngine
  import TxLayout

  /** The flags of CSR0 that the rings do not raise. */
  datatype Flags = Flags(idon: bool, merr: bool, cerr: bool, babl: bool, miss: bool)
  {
    /** Raised by the controller, and enough to interrupt. */
    predicate Trouble() { merr || babl || miss }

    predicate Err() { merr || cerr || babl || miss }

    function Raise(f: Flags): Flags {
      Flags(idon, merr || f.merr, cerr || f.cerr, babl || f.babl, miss || f.miss)
    }

    function Clear(f: Flags): Flags {
      Flags(idon && !f.idon, merr && !f.merr, cerr && !f.cerr, babl && !f.babl, miss && !f.miss)
    }
  }

  datatype Csr0 = Csr0(rint: bool, tint: bool, flags: Flags)
  {
    predicate Intr() { rint || tint || flags.idon || flags.Trouble() }

    /** Nothing is raised that interrupts, but for IDON if `idon`. */
    predicate Calm(idon: bool) { !rint && !tint && !flags.Trouble() && (flags.idon ==> idon) }

    /** What leads to service or to a reset is still raised in `c`. */
    predicate Stays(c: Csr0) { (rint ==> c.rint) && (tint ==> c.tint) && (flags.merr ==> c.flags.merr) }

    /** Writing `c` back into CSR0 clears what it holds. */
    function Clear(c: Csr0): Csr0 {
      Csr0(rint && !c.rint, tint && !c.tint, flags.Clear(c.flags))
    }

    /** Flags the controller raises count more than the one initialisation leaves. */
    function Level(): nat {
      if rint || tint || flags.Trouble() then 2 else if flags.idon then 1 else 0
    }
  }

  lemma ClearsSelf(c: Csr0)
    ensures c.Clear(c).Calm(false)
  {
  }

  /** Why the adapter is reset: a memory error read from CSR0, a finished packet that reports an
      underrun, a chain that needs a cluster where there is none, or a request. */
  datatype Cause = Memory | Underrun | NoCluster | Asked

  /** How often the adapter has been reset, for each reason. */
  datatype Resets = Resets(memory: nat, underrun: nat, noCluster: nat, asked: nat)
  {
    function With(c: Cause): Resets {
      match c
      case Memory => this.(memory := memory + 1)
      case Underrun => this.(underrun := underrun + 1)
      case NoCluster => this.(noCluster := noCluster + 1)
      case Asked => this.(asked := asked + 1)
    }

    predicate Upto(to: Resets) {
      memory <= to.memory && underrun <= to.underrun && noCluster <= to.noCluster && asked <= to.asked
    }
  }

  /** What the kernel asks of the driver. The work loop serialises requests. */
  datatype Request =
    | Interrupt
    | Output(chain: seq<seq<byte>>)
    | StartOutput(queue: seq<seq<seq<byte>>>, clusters: bool)
    | RunQueue
    | Initialise(idon: bool)
    | EnableInterrupts(on: bool)
  {
    /** A packet fits a transmit buffer, or a chain the descriptors a packet may take. */
    ghost predicate Fits(most: nat) {
      && (Output? ==> |Rings.Flatten(chain)| <= BUFFER_SIZE)
      && (StartOutput? ==> TransmitEngine.Sendable(queue, most))
    }
  }

  /** Both rings with their books, the flags of CSR0 that lead to service, the driver's fields,
      the memory errors there have been, and the resets. Memory errors and underruns
      (`tx.underruns`) are entered by the controller alone. */
  datatype Snapshot = Snapshot(rx: RxLayout.RxState, tx: TxLayout.TxState, inputQueue: seq<seq<byte>>,
                               rint: bool, tint: bool, merr: bool, pending: nat, oactive: bool,
                               stalled: bool, asked: bool, up: bool, on: bool, enabled: bool,
                               merrs: nat, resets: Resets)
  {
    /** The histories have only grown, and without a reset every frame that left a ring was taken
        by the driver. */
    ghost predicate Grows(b: Snapshot) {
      && rx.arrivals <= b.rx.arrivals && rx.log <= b.rx.log && inputQueue <= b.inputQueue
      && tx.accepted <= b.tx.accepted && tx.finished <= b.tx.finished && tx.log <= b.tx.log
      && resets.Upto(b.resets) && Warranted(b)
      && (resets == b.resets ==> RxLayout.TakenOn(rx.log, b.rx.log) && TxLayout.ReclaimedOn(tx.log, b.tx.log))
    }

    /** Resets for memory errors and for underruns are no more than there have been of those
        since, and one for each that was pending: MERR raised, or the transmitter off since it
        has run dry. */
    ghost predicate Warranted(b: Snapshot) {
      && merrs <= b.merrs && tx.underruns <= b.tx.underruns
      && b.resets.memory + Runs.Owed(b.merr) <= resets.memory + Runs.Owed(merr) + (b.merrs - merrs)
      && b.resets.underrun + Runs.Owed(b.tx.dry)
         <= resets.underrun + Runs.Owed(tx.dry) + (b.tx.underruns - tx.underruns)
    }

    /** Where a flag is raised, it still is, or what had come when it was raised has been dealt
        with; and a memory error leads to a reset. */
    ghost predicate Served(b: Snapshot) {
      && (rint ==> b.rint || rx.arrivals <= RxLayout.Arrivals(b.rx.log))
      && (tint ==> b.tint || tx.finished <= TxLayout.SentOf(b.tx.log))
      && (merr ==> b.merr || resets != b.resets)
    }

    /** What the interrupt handler and the controller may do. */
    ghost predicate To(b: Snapshot) {
      && Grows(b) && Served(b) && tx.accepted == b.tx.accepted
      && enabled == b.enabled && stalled == b.stalled
      && resets.noCluster == b.resets.noCluster && resets.asked == b.resets.asked && AsksIf(b)
    }

    /** The output queue is asked to run only if there is room that was not there before. */
    ghost predicate AsksIf(b: Snapshot) {
      b.asked ==> asked || TxLayout.TookBack(tx.log, b.tx.log) || resets != b.resets
    }

    /** A memory error read from CSR0 leads to a reset, and without one only a transmit interrupt
        may, for an underrun. */
    ghost predicate ResetFor(c: Csr0, b: Snapshot) {
      if c.flags.merr then b.resets == resets.With(Memory)
      else b.resets == resets || (c.tint && b.resets == resets.With(Underrun))
    }

    /** This state with the flags in `c` as if they were still raised. */
    function Raised(c: Csr0): Snapshot {
      this.(rint := rint || c.rint, tint := tint || c.tint, merr := merr || c.flags.merr)
    }

    /** The request has its effect, and no other than its own on the output side. */
    ghost predicate Step(r: Request, b: Snapshot) {
      match r
      case Interrupt =>
        if enabled then Handled(b) else b == this
      case Output(chain) =>
        && b.resets == resets
        && (if pending == |tx.view| then b.stalled && !b.asked && b.tx.accepted == tx.accepted
            else b.stalled == stalled && b.asked == asked
                 && b.tx.accepted == tx.accepted + [Plain(Rings.Flatten(chain))])
      case StartOutput(queue, clusters) =>
        if oactive then b == this else exists k :: 0 <= k <= |queue| && Started(queue, clusters, k, b)
      case RunQueue =>
        b == this.(stalled := false, asked := false)
      case Initialise(idon) =>
        !b.enabled && b.up == idon && Cleared(Asked, b)
      case EnableInterrupts(on) =>
        b == this.(enabled := on)
    }

    ghost predicate Makes(r: Request, b: Snapshot) {
      Grows(b) && Step(r, b)
    }

    /** The handler ends with no flag raised: all that had been announced has been dealt with. */
    ghost predicate Handled(b: Snapshot) {
      && To(b) && !b.rint && !b.tint && !b.merr && (merr ==> resets != b.resets)
      && (rint ==> rx.arrivals <= RxLayout.Arrivals(b.rx.log))
      && (tint ==> tx.finished <= TxLayout.SentOf(b.tx.log))
    }

    /** The first `k` packets of the queue have been accepted: all, or as many as the ring had
        room for, or those before one for which no cluster was to be had and which needs more
        descriptors than were free when the packets before it had taken theirs. */
    ghost predicate Started(queue: seq<seq<seq<byte>>>, clusters: bool, k: nat, b: Snapshot)
      requires k <= |queue|
    {
      && b.tx.accepted == tx.accepted + TransmitEngine.Joins(queue[..k]) && b.inputQueue == inputQueue
      && if b.resets == resets then b.asked == asked && (k == |queue| || b.pending == |b.tx.view|)
         else k < |queue| && !clusters && b.pending == 0 && b.resets == resets.With(NoCluster)
              && |tx.view| < pending + |Rings.Flatten(queue[..k])| + |queue[k]|
    }

    /** A reset: nothing is left in either ring, everything that was is in the books, and nothing
        else has changed there; the transmitter is on if the initialisation has succeeded. */
    ghost predicate Cleared(cause: Cause, b: Snapshot) {
      && b.resets == resets.With(cause) && b.merrs == merrs && b.tx.underruns == tx.underruns
      && b.pending == 0 && !b.rint && !b.tint && !b.merr && !b.tx.dry && b.on == b.up
      && b.oactive == (oactive && !b.up) && b.asked == (asked || b.up)
      && b.stalled == stalled && b.inputQueue == inputQueue
      && rx.log <= b.rx.log && RxLayout.Arrivals(b.rx.log) == b.rx.arrivals == rx.arrivals
      && tx.log <= b.tx.log && TxLayout.FramesOf(b.tx.log) == b.tx.accepted == tx.accepted
      && TxLayout.SentOf(b.tx.log) == b.tx.finished == tx.finished
    }

    /** No frame unaccounted for, in either direction; the transmitter is on unless the last
        initialisation failed or it has run dry since; OACTIVE marks a full ring; and a stalled
        output queue with room in the ring has been asked to run. */
    ghost predicate Balanced(mac: seq<byte>, most: nat) {
      && rx.Sound() && tx.Sound() && rx.skip == tx.skip == 0
      && inputQueue == RxLayout.Delivered(rx.log, mac) && RxLayout.Arrivals(rx.log) <= rx.arrivals
      && multiset(tx.accepted) == TxLayout.Picked(tx.log, TxLayout.RECLAIMED) +
                                  TxLayout.Picked(tx.log, TxLayout.DROPPED) + multiset(Ring())
      && (most == 1 ==> |Ring()| == pending)
      && (on <==> up && !tx.dry)
      && (up ==> (oactive <==> pending == |tx.view|))
      && (up && stalled && pending < |tx.view| ==> asked)
    }

    /** The frames in the transmit ring. */
    ghost function Ring(): seq<Wire>
      requires tx.Sound()
    {
      TxLayout.Frames(tx.view, tx.skip, tx.live)
    }
  }

  /** What has been dealt with stays dealt with. */
  lemma Later(a: Snapshot, b: Snapshot, c: Snapshot)
    requires a.To(b) && b.To(c)
    ensures a.To(c)
  {
    GrowsOn(a, b, c);
    TxLayout.SentGrows(b.tx.log, c.tx.log);
    if a.rint && !c.rint {
      assert RxLayout.Arrivals(b.rx.log) <= RxLayout.Arrivals(c.rx.log);
    }
    LaterAsks(a, b, c);
  }

  lemma LaterAsks(a: Snapshot, b: Snapshot, c: Snapshot)
    requires a.AsksIf(b) && b.AsksIf(c) && a.tx.log <= b.tx.log <= c.tx.log
    requires a.resets.Upto(b.resets) && b.resets.Upto(c.resets)
    ensures a.AsksIf(c)
  {
    if TxLayout.TookBack(a.tx.log, b.tx.log) || TxLayout.TookBack(b.tx.log, c.tx.log) {
      TxLayout.TookBackOn(a.tx.log, b.tx.log, c.tx.log);
    }
  }

  lemma GrowsOn(a: Snapshot, b: Snapshot, c: Snapshot)
    requires a.Grows(b) && b.Grows(c)
    ensures a.Grows(c)
  {
  }

  /** Neither ring differs, nor what the driver has done. */
  ghost predicate SameRings(a: Snapshot, b: Snapshot) {
    && a.rx == b.rx && a.tx == b.tx && a.inputQueue == b.inputQueue
    && a.stalled == b.stalled && a.asked == b.asked && a.enabled == b.enabled && a.resets == b.resets
  }

  /** Errors the controller raises meanwhile are counted. */
  lemma ErrorsTo(a: Snapshot, b: Snapshot)
    requires SameRings(a, b) && a.rint == b.rint && a.tint == b.tint && (a.merr ==> b.merr)
    requires a.merrs <= b.merrs && (b.merr ==> a.merr || a.merrs < b.merrs)
    ensures a.To(b)
  {
  }

  /** The flags that were read are cleared, which does not undo what they call for. */
  lemma ClearedTo(a: Snapshot, b: Snapshot, c: Csr0)
    requires SameRings(a, b) && a.merrs == b.merrs
    requires (c.rint ==> a.rint) && (c.tint ==> a.tint) && (c.flags.merr ==> a.merr)
    requires b.rint == (a.rint && !c.rint) && b.tint == (a.tint && !c.tint) && b.merr == (a.merr && !c.flags.merr)
    ensures a.To(b.Raised(c))
  {
  }

  /** Frames have only been accepted and finished. */
  ghost predicate RingOnly(a: Snapshot, b: Snapshot) {
    && a.rx == b.rx && a.inputQueue == b.inputQueue && a.merr == b.merr && a.merrs == b.merrs
    && a.resets == b.resets && a.tx.log == b.tx.log && a.tx.accepted <= b.tx.accepted
    && a.tx.finished <= b.tx.finished && a.tx.Counts(b.tx)
  }

  lemma AcceptedGrows(a: Snapshot, b: Snapshot)
    requires RingOnly(a, b)
    ensures a.Grows(b)
  {
  }

  /** Nothing but the transmit side and its requests differs. */
  ghost predicate TxOnly(a: Snapshot, b: Snapshot) {
    && a.rx == b.rx && a.inputQueue == b.inputQueue && a.rint == b.rint && a.merr == b.merr
    && a.stalled == b.stalled && a.enabled == b.enabled && a.merrs == b.merrs && a.resets == b.resets
    && a.tx.TakenTo(b.tx) && a.AsksIf(b)
  }

  /** Frames are taken back. */
  lemma TakenGrows(a: Snapshot, b: Snapshot, c: Csr0)
    requires TxOnly(a, b)
    ensures a.Raised(c).Grows(b)
  {
  }

  lemma TakenServes(a: Snapshot, b: Snapshot, c: Csr0)
    requires TxOnly(a, b) && a.tx.finished <= TxLayout.SentOf(b.tx.log)
    ensures a.Raised(c).To(b.Raised(c.(tint := false)))
  {
  }

  /** A reset is warranted if its reason was there. */
  lemma ResetGrows(a: Snapshot, m: Snapshot, b: Snapshot, cause: Cause)
    requires a.Grows(m) && a.resets == m.resets && m.Cleared(cause, b)
    requires (cause.Memory? ==> a.merr) && (cause.Underrun? ==> m.tx.dry)
    ensures a.Grows(b)
  {
  }

  /** A reset for a reason the chip gave deals with everything. */
  lemma AfterReset(a: Snapshot, m: Snapshot, b: Snapshot, cause: Cause)
    requires a.Grows(m) && a.tx.accepted == m.tx.accepted && a.resets == m.resets && m.Cleared(cause, b)
    requires a.enabled == b.enabled && a.stalled == m.stalled
    requires if cause.Memory? then a.merr else cause.Underrun? && m.tx.dry
    ensures a.To(b)
  {
    ResetGrows(a, m, b, cause);
  }

  /** Between any two states of a run: with no memory error and no underrun meanwhile and none
      pending, none asked for, and no cluster missed, there is no reset, and every frame that
      left a ring was taken by the driver. */
  lemma Undisturbed(a: Snapshot, b: Snapshot)
    requires a.Grows(b) && b.merrs == a.merrs && b.tx.underruns == a.tx.underruns && !a.merr && !a.tx.dry
    requires b.resets.asked == a.resets.asked && b.resets.noCluster == a.resets.noCluster
    ensures b.resets == a.resets
    ensures RxLayout.TakenOn(a.rx.log, b.rx.log) && TxLayout.ReclaimedOn(a.tx.log, b.tx.log)
  {
  }

  /** Interrupts are disabled, and then the adapter is reset. */
  lemma Initialises(a: Snapshot, m: Snapshot, b: Snapshot, idon: bool)
    requires m == a.(enabled := false) && m.Cleared(Asked, b) && !b.enabled && b.up == idon
    ensures a.Makes(Initialise(idon), b)
  {
    ResetGrows(a, m, b, Asked);
  }

  lemma Starts(a: Snapshot, queue: seq<seq<seq<byte>>>, clusters: bool, k: nat, b: Snapshot)
    requires !a.oactive && k <= |queue| && a.Started(queue, clusters, k, b)
    ensures a.Step(StartOutput(queue, clusters), b)
  {
  }

  /** Asking the output queue to run is no part of the books. */
  lemma AskedOn(a: Snapshot, b: Snapshot, c: Snapshot)
    requires a.Handled(b) && c == b.(asked := c.asked)
    requires c.asked ==> b.asked || TxLayout.TookBack(a.tx.log, b.tx.log)
    ensures a.Handled(c)
  {
  }

  ghost function InBalance(mac: seq<byte>, most: nat): Snapshot -> bool {
    (s: Snapshot) => s.Balanced(mac, most)
  }

  ghost function Makes(): (Snapshot, Request, Snapshot) -> bool {
    (a: Snapshot, r: Request, b: Snapshot) => a.Makes(r, b)
  }

  ghost function Grows(): (Snapshot, Snapshot) -> bool {
    (a: Snapshot, b: Snapshot) => a.Grows(b)
  }

  /** A run: the states in between, each in balance, each what the next request makes of the
      one before. */
  ghost predicate Trace(states: seq<Snapshot>, requests: seq<Request>, mac: seq<byte>, most: nat) {
    Runs.Run(states, requests, InBalance(mac, most), Makes())
  }

  /** Over a whole run the histories only grow: no frame received, delivered, accepted or
      finished is ever taken out of the books, whatever is reset; and resets for memory errors
      and underruns are no more than there were of those. */
  lemma {:induction false} TraceGrows(states: seq<Snapshot>, requests: seq<Request>, mac: seq<byte>, most: nat,
                                      i: nat, j: nat)
    requires Trace(states, requests, mac, most) && i <= j < |states|
    ensures states[i].Grows(states[j])
  {
    forall a, b, c | Grows()(a, b) && Grows()(b, c)
      ensures Grows()(a, c)
    {
      GrowsOn(a, b, c);
    }
    Runs.RunKeeps(states, requests, InBalance(mac, most), Makes(), Grows(), i, j);
  }
}
