/** The interrupt handler, the output path and initialisation around the two ring engines.

    The rings share nothing, and neither do their bits of CSR0. So steps of the receive half of
    the controller may be taken before or after a routine that only touches the transmit ring,
    and the other way round; nothing is lost by not taking them in between.
 */
module AdapterEngine {
  import opened AdapterBooks
  import opened Descriptors

  import ReceiveEngine
  import Rings
  import Runs
  import RxLayout
  import TransmitEngine
  import TxLayout

  class Adapter {
    const rx: ReceiveEngine.Receiver
    const tx: TransmitEngine.Transmitter

    // The other flags of CSR0, and how many more times one of them is raised.
    var flags: Flags
    var noise: nat

    // Whether the last initialisation reached IDON.
    var up: bool

    var interruptEnabled: bool

    // How often there was a memory error, and how often the adapter was reset.
    ghost var merrs: nat
    ghost var resets: Resets

    /** The rings are in step with the controller. */
    ghost predicate Valid()
      reads this, rx, rx.rx, tx, tx.tx
    {
      rx.Ready() && tx.Ready() && tx.Throttled() && (up ==> tx.Marked()) && up == tx.started
    }

    /** Nothing needs to hold of the transmit side before a reset. */
    ghost predicate Resettable()
      reads this, rx, rx.rx, tx, tx.tx
    {
      rx.Valid() && rx.Settled() && tx.Valid()
    }

    /** A stalled output queue with room in the ring has been asked to run. */
    ghost predicate NoForgottenStall()
      reads this, tx
    {
      up && tx.stalled && tx.pending < tx.tx.Length ==> tx.asked
    }

    ghost function Csr(): Csr0
      reads this, rx, tx
    {
      Csr0(rx.rint, tx.tint, flags)
    }

    ghost function Now(): Snapshot
      reads this, rx, tx
    {
      Snapshot(rx.q, tx.q, rx.inputQueue, rx.rint, tx.tint, flags.merr, tx.pending, tx.oactive, tx.stalled,
               tx.asked, up, tx.txon, interruptEnabled, merrs, resets)
    }

    /** What is left of the controller's activity. */
    ghost function Energy(): nat
      reads this, rx, tx
    {
      rx.budget + tx.budget + noise
    }

    /** With energy `e` left nothing but IDON can be raised, and that only if `idon`. */
    ghost predicate Calm(e: nat, idon: bool)
      reads this, rx, tx
    {
      Energy() <= e && (Energy() == e ==> Csr().Calm(idon))
    }

    /** Both rings just initialised, IDON still raised, nothing sent yet. */
    constructor (rx: ReceiveEngine.Receiver, tx: TransmitEngine.Transmitter, noise: nat)
      requires rx.Ready() && tx.Ready() && tx.Throttled() && tx.Marked() && tx.started && !tx.stalled
      ensures Valid() && NoForgottenStall() && this.rx == rx && this.tx == tx && resets == Resets(0, 0, 0, 0)
    {
      this.rx, this.tx, this.noise := rx, tx, noise;
      flags := Flags(true, false, false, false, false);
      up, interruptEnabled, merrs, resets := true, false, 0, Resets(0, 0, 0, 0);
    }

    /** Controller steps on the receive ring. */
    method RxSteps()
      requires Valid()
      modifies rx, rx.rx
      ensures Valid() && old(Now()).To(Now()) && rx.inputQueue == old(rx.inputQueue)
      ensures old(rx.rint) ==> rx.rint
      ensures Energy() <= old(Energy()) && (Energy() == old(Energy()) ==> Csr() == old(Csr()))
    {
      rx.Background();
    }

    /** Controller steps on the transmit ring. */
    method TxSteps()
      requires Valid()
      modifies tx, tx.tx
      ensures Valid() && old(Now()).To(Now()) && (old(NoForgottenStall()) ==> NoForgottenStall())
      ensures old(tx.tint) ==> tx.tint
      ensures Energy() <= old(Energy()) && (Energy() == old(Energy()) ==> Csr() == old(Csr()))
    {
      tx.Background();
    }

    /** Flags raised for other reasons. */
    method Others()
      requires Valid()
      modifies `flags, `noise, `merrs
      ensures Valid() && old(Now()).To(Now())
      ensures Energy() <= old(Energy()) && (Energy() == old(Energy()) ==> flags == old(flags))
    {
      var raised: Flags := *;
      if raised.Err() && 0 < noise {
        Raise(raised);
      }
    }

    method Raise(raised: Flags)
      requires Valid() && 0 < noise
      modifies `flags, `noise, `merrs
      ensures Valid() && old(Now()).To(Now()) && Energy() < old(Energy())
    {
      RaiseFlags(raised);
      ErrorsTo(old(Now()), Now());
    }

    method RaiseFlags(raised: Flags)
      requires Valid() && 0 < noise
      modifies `flags, `noise, `merrs
      ensures Valid() && SameRings(old(Now()), Now()) && Energy() < old(Energy())
      ensures flags == old(flags).Raise(raised) && merrs == old(merrs) + if raised.merr then 1 else 0
    {
      noise := noise - 1;
      flags := flags.Raise(raised);
      merrs := merrs + if raised.merr then 1 else 0;
    }

    /** Controller activity of any kind. */
    method Interfere()
      requires Valid()
      modifies `flags, `noise, `merrs, rx, rx.rx, tx, tx.tx
      ensures Valid() && old(Now()).To(Now()) && rx.inputQueue == old(rx.inputQueue)
      ensures old(NoForgottenStall()) ==> NoForgottenStall()
      ensures old(Csr()).Stays(Csr())
      ensures Energy() <= old(Energy()) && (Energy() == old(Energy()) ==> Csr() == old(Csr()))
    {
      InterfereRings();
      ghost var b := Now();
      Others();
      Later(old(Now()), b, Now());
    }

    method InterfereRings()
      requires Valid()
      modifies rx, rx.rx, tx, tx.tx
      ensures Valid() && old(Now()).To(Now()) && rx.inputQueue == old(rx.inputQueue)
      ensures old(NoForgottenStall()) ==> NoForgottenStall()
      ensures old(Csr()).Stays(Csr())
      ensures Energy() <= old(Energy()) && (Energy() == old(Energy()) ==> Csr() == old(Csr()))
    {
      RxSteps();
      ghost var b := Now();
      TxSteps();
      Later(old(Now()), b, Now());
    }

    /** The chip reset and `lnc_init`; `idon` tells whether the controller reports that it is
        done. Frames still in the rings are lost and dropped, and entered as such. */
    method LncReset(idon: bool, ghost cause: Cause)
      requires Resettable()
      modifies `flags, `up, `resets, rx, rx.rx, tx, tx.tx
      ensures Valid() && NoForgottenStall() && tx.txon == up == idon
      ensures Csr() == Csr0(false, false, Flags(idon, false, false, false, false)) && Energy() == old(Energy())
      ensures old(Now()).Cleared(cause, Now())
    {
      flags, up := Flags(idon, false, false, false, false), idon;
      ResetBooks(idon, cause);
    }

    method ResetBooks(idon: bool, ghost cause: Cause)
      requires Resettable() && !flags.merr && up == idon
      modifies `resets, rx, rx.rx, tx, tx.tx
      ensures rx.Ready() && tx.Ready() && tx.Throttled() && (idon ==> tx.Marked() && tx.asked)
      ensures tx.oactive == (old(tx.oactive) && !idon) && tx.asked == (old(tx.asked) || idon)
      ensures tx.txon == tx.started == idon
      ensures Energy() == old(Energy()) && old(Now()).Cleared(cause, Now())
    {
      ResetRings(idon);
      resets := resets.With(cause);
    }

    method ResetRings(idon: bool)
      requires Resettable()
      modifies rx, rx.rx, tx, tx.tx
      ensures rx.Ready() && tx.Ready() && tx.Throttled() && (idon ==> tx.Marked() && tx.asked)
      ensures tx.oactive == (old(tx.oactive) && !idon) && tx.asked == (old(tx.asked) || idon)
      ensures tx.txon == tx.started == idon
      ensures !rx.rint && !tx.tint && tx.pending == 0 && Energy() == old(Energy())
      ensures old(rx.q.log) <= rx.q.log && rx.q.arrivals == old(rx.q.arrivals) == RxLayout.Arrivals(rx.q.log)
      ensures old(tx.q.log) <= tx.q.log && tx.q.accepted == old(tx.q.accepted) == TxLayout.FramesOf(tx.q.log)
      ensures tx.q.finished == old(tx.q.finished) == TxLayout.SentOf(tx.q.log)
      ensures !tx.q.dry && tx.q.underruns == old(tx.q.underruns)
      ensures rx.inputQueue == old(rx.inputQueue) && tx.stalled == old(tx.stalled)
    {
      ResetRx();
      ResetTx(idon);
    }

    method ResetRx()
      requires rx.Valid() && rx.Settled()
      modifies rx`cursor, rx`inFrame, rx`rint, rx`q, rx`recvNext, rx.rx
      ensures rx.Ready() && !rx.rint && old(rx.q.log) <= rx.q.log
      ensures rx.q.arrivals == old(rx.q.arrivals) == RxLayout.Arrivals(rx.q.log)
    {
      rx.Init();
    }

    method ResetTx(idon: bool)
      requires tx.Valid()
      modifies tx`cursor, tx`q, tx`tint, tx`txon, tx`transNext, tx`nextToSend, tx`pending, tx`oactive,
               tx`asked, tx`started, tx.tx
      ensures tx.Ready() && !tx.tint && tx.pending == 0 && old(tx.q.log) <= tx.q.log
      ensures tx.q.accepted == old(tx.q.accepted) == TxLayout.FramesOf(tx.q.log)
      ensures tx.q.finished == old(tx.q.finished) == TxLayout.SentOf(tx.q.log)
      ensures !tx.q.dry && tx.q.underruns == old(tx.q.underruns)
      ensures tx.Throttled() && (idon ==> tx.Marked())
      ensures tx.oactive == (old(tx.oactive) && !idon) && tx.asked == (old(tx.asked) || idon)
      ensures tx.txon == tx.started == idon
    {
      tx.Init(idon);
    }

    /** Nothing but what the two rings announce is raised without a packet behind it. */
    method ReadCsr0() returns (c: Csr0)
      requires Valid()
      ensures c == Csr()
      ensures (c.rint ==> rx.q.HasPacket()) && (c.tint ==> tx.q.HasDone())
    {
      c := Csr0(rx.rint, tx.tint, flags);
    }

    /** Writes back what was read, which clears just that; what was raised meanwhile stays. */
    method Acknowledge(c: Csr0)
      requires Valid() && c.Stays(Csr())
      modifies `flags, rx`rint, tx`tint
      ensures Valid() && Csr() == old(Csr()).Clear(c) && old(Now()).To(Now().Raised(c))
      ensures (c.rint ==> rx.q.HasPacket()) && (c.tint ==> tx.q.HasDone())
      ensures Energy() == old(Energy()) && rx.inputQueue == old(rx.inputQueue)
      ensures NoForgottenStall() == old(NoForgottenStall())
    {
      ghost var a := Now();
      AcknowledgeAll(c);
      ClearedTo(a, Now(), c);
    }

    method AcknowledgeAll(c: Csr0)
      requires Valid() && c.Stays(Csr())
      modifies `flags, rx`rint, tx`tint
      ensures Valid() && Csr() == old(Csr()).Clear(c)
      ensures SameRings(old(Now()), Now()) && (c.rint ==> rx.q.HasPacket()) && (c.tint ==> tx.q.HasDone())
      ensures Energy() == old(Energy()) && NoForgottenStall() == old(NoForgottenStall())
    {
      flags := flags.Clear(c.flags);
      AcknowledgeRings(c.rint, c.tint);
    }

    method AcknowledgeRings(rint: bool, tint: bool)
      requires Valid() && (rint ==> rx.rint) && (tint ==> tx.tint)
      modifies rx`rint, tx`tint
      ensures Valid() && (rint ==> rx.q.HasPacket()) && (tint ==> tx.q.HasDone())
      ensures SameRings(old(Now()), Now())
      ensures Energy() == old(Energy()) && NoForgottenStall() == old(NoForgottenStall())
      ensures rx.rint == (old(rx.rint) && !rint) && tx.tint == (old(tx.tint) && !tint)
    {
      AcknowledgeRx(rint);
      AcknowledgeTx(tint);
    }

    method AcknowledgeRx(rint: bool)
      requires Valid() && (rint ==> rx.rint)
      modifies rx`rint
      ensures Valid() && (rint ==> rx.q.HasPacket()) && rx.rint == (old(rx.rint) && !rint)
      ensures SameRings(old(Now()), Now())
      ensures Energy() == old(Energy()) && NoForgottenStall() == old(NoForgottenStall())
    {
      if rint { rx.ClearRint(); }
    }

    method AcknowledgeTx(tint: bool)
      requires Valid() && (tint ==> tx.tint)
      modifies tx`tint
      ensures Valid() && (tint ==> tx.q.HasDone()) && tx.tint == (old(tx.tint) && !tint)
      ensures SameRings(old(Now()), Now())
      ensures Energy() == old(Energy()) && NoForgottenStall() == old(NoForgottenStall())
    {
      if tint { tx.ClearTint(); }
    }

    /** What the controller does before the write-back, and the write-back. */
    method WriteBack(c: Csr0)
      requires Valid() && c == Csr()
      modifies `flags, `noise, `merrs, rx, rx.rx, tx, tx.tx
      ensures Valid() && Calm(old(Energy()), false) && old(Now()).To(Now().Raised(c))
      ensures rx.inputQueue == old(rx.inputQueue) && (old(NoForgottenStall()) ==> NoForgottenStall())
      ensures (c.rint ==> rx.q.HasPacket()) && (c.tint ==> tx.q.HasDone())
    {
      ghost var a := Now();
      Interfere();
      AcknowledgeCalm(a, c, old(Energy()));
    }

    /** The write-back of what was read in state `a`, with energy `e` left then. */
    method AcknowledgeCalm(ghost a: Snapshot, c: Csr0, ghost e: nat)
      requires Valid() && c.Stays(Csr()) && a.To(Now())
      requires Energy() <= e && (Energy() == e ==> Csr() == c)
      modifies `flags, rx`rint, tx`tint
      ensures Valid() && Calm(e, false) && a.To(Now().Raised(c))
      ensures rx.inputQueue == old(rx.inputQueue) && (old(NoForgottenStall()) ==> NoForgottenStall())
      ensures (c.rint ==> rx.q.HasPacket()) && (c.tint ==> tx.q.HasDone())
    {
      ClearsSelf(c);
      AcknowledgeSince(a, c);
    }

    method AcknowledgeSince(ghost a: Snapshot, c: Csr0)
      requires Valid() && c.Stays(Csr()) && a.To(Now())
      modifies `flags, rx`rint, tx`tint
      ensures Valid() && Csr() == old(Csr()).Clear(c) && Energy() == old(Energy()) && a.To(Now().Raised(c))
      ensures rx.inputQueue == old(rx.inputQueue) && (old(NoForgottenStall()) ==> NoForgottenStall())
      ensures (c.rint ==> rx.q.HasPacket()) && (c.tint ==> tx.q.HasDone())
    {
      ghost var b := Now();
      Acknowledge(c);
      Later(a, b, Now().Raised(c));
    }

    /** Reads CSR0 and, if there is anything to do, writes it back. */
    method FetchCsr0() returns (c: Csr0)
      requires Valid()
      modifies `flags, `noise, `merrs, rx, rx.rx, tx, tx.tx
      ensures Valid() && c == old(Csr()) && (c.rint ==> rx.q.HasPacket()) && (c.tint ==> tx.q.HasDone())
      ensures resets == old(resets)
      ensures if c.Intr() then Calm(old(Energy()), false) && old(Now()).To(Now().Raised(c))
              else Csr() == c && Energy() == old(Energy()) && Now() == old(Now())
      ensures rx.inputQueue == old(rx.inputQueue) && (old(NoForgottenStall()) ==> NoForgottenStall())
    {
      c := ReadCsr0();
      if c.Intr() {
        WriteBack(c);
      }
    }

    method ServeRint(ghost c: Csr0) returns (queued: bool)
      requires Valid() && rx.q.HasPacket() && c.rint
      modifies rx, rx.rx
      ensures Valid() && !rx.rint && Energy() <= old(Energy())
      ensures old(Now()).Raised(c).To(Now().Raised(c.(rint := false)))
      ensures queued <==> |rx.inputQueue| > |old(rx.inputQueue)|
    {
      queued := rx.LncRint();
    }

    /** The reset `lnc_intr` or `lnc_tint` asks for. */
    method Restart(ghost e: nat, ghost cause: Cause)
      requires Resettable() && Energy() <= e
      modifies `flags, `up, `resets, rx, rx.rx, tx, tx.tx
      ensures Valid() && NoForgottenStall() && Calm(e, true) && old(Now()).Cleared(cause, Now())
    {
      var idon: bool := *;
      LncReset(idon, cause);
    }

    /** `lnc_tint` without the reset it may ask for. */
    method TakeSent() returns (reclaimed: bool)
      requires Valid() && tx.q.HasDone()
      modifies tx, tx.tx
      ensures Resettable() && Energy() <= old(Energy())
      ensures TxOnly(old(Now()), Now())
      ensures reclaimed ==> TxLayout.TookBack(old(tx.q.log), tx.q.log)
      ensures if reclaimed then Valid() && !tx.tint && old(tx.q.finished) <= TxLayout.SentOf(tx.q.log)
              else tx.q.Underrun()
    {
      reclaimed := tx.LncTint();
    }

    /** `lnc_tint`. */
    method ServeTint(ghost c: Csr0, ghost e: nat) returns (reclaimed: bool)
      requires Valid() && tx.q.HasDone() && Calm(e, false) && c.tint
      modifies `flags, `up, `resets, rx, rx.rx, tx, tx.tx
      ensures Valid() && Calm(e, !reclaimed) && (!reclaimed ==> NoForgottenStall())
      ensures reclaimed ==> old(Now()).Raised(c).To(Now().Raised(c.(tint := false)))
      ensures !reclaimed ==> old(Now()).Raised(c).To(Now())
      ensures resets == if reclaimed then old(resets) else old(resets).With(Underrun)
      ensures rx.inputQueue == old(rx.inputQueue)
      ensures reclaimed ==> TxLayout.TookBack(old(tx.q.log), tx.q.log)
    {
      ghost var a := Now();
      reclaimed := TakeSent();
      TakenGrows(a, Now(), c);
      if reclaimed {
        TakenServes(a, Now(), c);
      } else {
        RestartDry(a.Raised(c), e);
      }
    }

    /** The transmitter has run dry since `a`. */
    method RestartDry(ghost a: Snapshot, ghost e: nat)
      requires Resettable() && tx.q.Underrun() && Energy() <= e
      requires a.Grows(Now()) && a.tx.accepted == tx.q.accepted && a.resets == resets
      requires a.enabled == interruptEnabled && a.stalled == tx.stalled
      modifies `flags, `up, `resets, rx, rx.rx, tx, tx.tx
      ensures Valid() && NoForgottenStall() && Calm(e, true)
      ensures a.To(Now()) && rx.inputQueue == old(rx.inputQueue) && resets == old(resets).With(Underrun)
    {
      ghost var m := Now();
      Restart(e, Underrun);
      AfterReset(a, m, Now(), Underrun);
    }

    /** RINT first, then TINT. */
    method ServeRings(c: Csr0, ghost e: nat) returns (queued: bool, reclaimed: bool, ghost reset: bool)
      requires Valid() && (c.rint ==> rx.q.HasPacket()) && (c.tint ==> tx.q.HasDone())
      requires Calm(e, false) && !c.flags.merr
      modifies `flags, `up, `resets, rx, rx.rx, tx, tx.tx
      ensures Valid() && Calm(e, reset) && (reset ==> c.tint) && old(Now()).Raised(c).To(Now())
      ensures old(Now()).ResetFor(c, Now())
      ensures queued <==> |rx.inputQueue| > |old(rx.inputQueue)|
      ensures old(NoForgottenStall()) ==> reclaimed || NoForgottenStall()
      ensures reclaimed ==> TxLayout.TookBack(old(tx.q.log), tx.q.log)
    {
      ghost var a, c1 := Now().Raised(c), c.(rint := false);
      queued := RintPart(c, e);
      ghost var b := Now().Raised(c1);
      reclaimed, reset := TintPart(c.tint, c1, e);
      Later(a, b, Now());
    }

    method RintPart(c: Csr0, ghost e: nat) returns (queued: bool)
      requires Valid() && (c.rint ==> rx.q.HasPacket()) && (c.tint ==> tx.q.HasDone()) && Calm(e, false)
      modifies rx, rx.rx
      ensures Valid() && (c.tint ==> tx.q.HasDone()) && Calm(e, false)
      ensures old(Now()).Raised(c).To(Now().Raised(c.(rint := false)))
      ensures queued <==> |rx.inputQueue| > |old(rx.inputQueue)|
      ensures old(NoForgottenStall()) ==> NoForgottenStall()
    {
      queued := false;
      if c.rint {
        queued := ServeRint(c);
      }
    }

    method TintPart(tint: bool, ghost c: Csr0, ghost e: nat) returns (reclaimed: bool, ghost reset: bool)
      requires Valid() && (tint ==> tx.q.HasDone()) && Calm(e, false) && !c.rint && c.tint == tint && !c.flags.merr
      modifies `flags, `up, `resets, rx, rx.rx, tx, tx.tx
      ensures Valid() && Calm(e, reset) && (reset ==> tint) && old(Now()).Raised(c).To(Now())
      ensures resets == if reset then old(resets).With(Underrun) else old(resets)
      ensures rx.inputQueue == old(rx.inputQueue)
      ensures old(NoForgottenStall()) ==> reclaimed || NoForgottenStall()
      ensures reclaimed ==> TxLayout.TookBack(old(tx.q.log), tx.q.log)
    {
      reclaimed, reset := false, false;
      if tint {
        reclaimed := ServeTint(c, e);
        reset := !reclaimed;
      }
    }

    /** Acts on what was read from CSR0, after that has been cleared. */
    method Serve(c: Csr0, ghost e: nat) returns (queued: bool, reclaimed: bool, ghost reset: bool)
      requires Valid() && (c.rint ==> rx.q.HasPacket()) && (c.tint ==> tx.q.HasDone())
      requires Calm(e, false)
      modifies `flags, `up, `resets, rx, rx.rx, tx, tx.tx
      ensures Valid() && Calm(e, reset) && (reset ==> c.flags.merr || c.tint) && old(Now()).Raised(c).To(Now())
      ensures old(Now()).ResetFor(c, Now())
      ensures queued <==> |rx.inputQueue| > |old(rx.inputQueue)|
      ensures old(NoForgottenStall()) ==> reclaimed || NoForgottenStall()
      ensures reclaimed ==> TxLayout.TookBack(old(tx.q.log), tx.q.log)
    {
      if c.flags.Err() && c.flags.merr {
        RestartMerr(c, e);
        queued, reclaimed, reset := false, false, true;
      } else {
        queued, reclaimed, reset := ServeRings(c, e);
      }
    }

    /** The reset that a memory error calls for. */
    method RestartMerr(ghost c: Csr0, ghost e: nat)
      requires Valid() && Calm(e, false) && c.flags.merr
      modifies `flags, `up, `resets, rx, rx.rx, tx, tx.tx
      ensures Valid() && NoForgottenStall() && Calm(e, true) && old(Now()).Raised(c).To(Now())
      ensures resets == old(resets).With(Memory) && rx.inputQueue == old(rx.inputQueue)
    {
      ghost var a := Now();
      Restart(e, Memory);
      AfterReset(a.Raised(c), a, Now(), Memory);
    }

    /** One turn of the interrupt handler's loop. */
    method Turn() returns (more: bool, queued: bool, reclaimed: bool)
      requires Valid()
      modifies `flags, `up, `noise, `merrs, `resets, rx, rx.rx, tx, tx.tx
      ensures Valid() && old(Now()).To(Now()) && (!more ==> !Csr().Intr())
      ensures old(Now()).ResetFor(old(Csr()), Now())
      ensures queued <==> |rx.inputQueue| > |old(rx.inputQueue)|
      ensures old(NoForgottenStall()) ==> reclaimed || NoForgottenStall()
      ensures Energy() <= old(Energy())
      ensures Energy() == old(Energy()) ==> if more then Csr().Level() < old(Csr()).Level() else Csr() == old(Csr())
      ensures reclaimed ==> TxLayout.TookBack(old(tx.q.log), tx.q.log)
    {
      more, queued, reclaimed := false, false, false;
      ghost var a, e := Now(), Energy();
      var c := FetchCsr0();
      if c.Intr() {
        more := true;
        queued, reclaimed := Act(c, a, e);
      }
    }

    /** The body of the loop, after CSR0 has been read in state `a` and written back. */
    method Act(c: Csr0, ghost a: Snapshot, ghost e: nat) returns (queued: bool, reclaimed: bool)
      requires Valid() && (c.rint ==> rx.q.HasPacket()) && (c.tint ==> tx.q.HasDone()) && c.Intr()
      requires Calm(e, false) && a.To(Now().Raised(c)) && a.resets == resets
      modifies `flags, `up, `resets, rx, rx.rx, tx, tx.tx
      ensures Valid() && a.To(Now()) && a.ResetFor(c, Now())
      ensures queued <==> |rx.inputQueue| > |old(rx.inputQueue)|
      ensures old(NoForgottenStall()) ==> reclaimed || NoForgottenStall()
      ensures Energy() <= e && (Energy() == e ==> Csr().Level() < c.Level())
      ensures reclaimed ==> TxLayout.TookBack(old(tx.q.log), tx.q.log)
    {
      ghost var b, reset := Now().Raised(c), false;
      queued, reclaimed, reset := Serve(c, e);
      Later(a, b, Now());
    }

    /** The handler's loop since `a`: the two requests made so far match what has been done. */
    ghost predicate Handling(flushInputQ: bool, serviceOutputQ: bool, a: Snapshot)
      reads this, rx, rx.rx, tx, tx.tx
    {
      && Valid() && (serviceOutputQ || NoForgottenStall()) && a.To(Now())
      && (flushInputQ <==> |rx.inputQueue| > |a.inputQueue|)
      && (serviceOutputQ ==> TxLayout.TookBack(a.tx.log, tx.q.log))
    }

    /** A turn, and what the controller did before it. */
    method Round(flush: bool, service: bool, ghost a: Snapshot)
      returns (more: bool, flushInputQ: bool, serviceOutputQ: bool)
      requires Handling(flush, service, a)
      modifies `flags, `up, `noise, `merrs, `resets, rx, rx.rx, tx, tx.tx
      ensures Handling(flushInputQ, serviceOutputQ, a) && (!more ==> !Csr().Intr())
      ensures Energy() <= old(Energy())
      ensures Energy() == old(Energy()) ==> if more then Csr().Level() < old(Csr()).Level() else Csr() == old(Csr())
    {
      ghost var b := Now();
      Interfere();
      ghost var m := Now();
      Later(a, b, m);
      var queued, reclaimed;
      more, queued, reclaimed := Turn();
      Later(a, m, Now());
      TxLayout.TookBackEither(a.tx.log, b.tx.log, m.tx.log, tx.q.log, service, reclaimed);
      flushInputQ, serviceOutputQ := flush || queued, service || reclaimed;
    }

    /** `lnc_intr`. Before each reading of CSR0 the controller may have been active. On return
        no flag that interrupts is raised, and all that was announced on entry has been dealt
        with; frames are lost only to resets with a reason. */
    method LncIntr() returns (flushInputQ: bool, serviceOutputQ: bool)
      requires Valid() && NoForgottenStall()
      modifies `flags, `up, `noise, `merrs, `resets, rx, rx.rx, tx, tx.tx
      ensures Handling(flushInputQ, serviceOutputQ, old(Now())) && !Csr().Intr() && old(Now()).Handled(Now())
      ensures old(rx.rint) ==> old(rx.q.arrivals) <= RxLayout.Arrivals(rx.q.log)
      ensures old(tx.tint) ==> old(tx.q.finished) <= TxLayout.SentOf(tx.q.log)
    {
      flushInputQ, serviceOutputQ := false, false;
      var more := true;
      while more
        invariant Handling(flushInputQ, serviceOutputQ, old(Now())) && (!more ==> !Csr().Intr())
        decreases Energy(), Csr().Level(), more
      {
        more, flushInputQ, serviceOutputQ := Round(flushInputQ, serviceOutputQ, old(Now()));
      }
    }

    /** `handleInterrupt`. */
    method HandleInterrupt()
      requires Valid() && NoForgottenStall()
      modifies `flags, `up, `noise, `merrs, `resets, rx, rx.rx, tx, tx.tx
      ensures Valid() && NoForgottenStall() && old(Now()).Makes(Interrupt, Now())
      ensures old(interruptEnabled) ==> !Csr().Intr()
    {
      if interruptEnabled {
        var flushInputQ, serviceOutputQ := LncIntr();
        AskIf(serviceOutputQ, old(Now()));
      }
    }

    /** The output queue is asked to run if the handler has found room for it. */
    method AskIf(serviceOutputQ: bool, ghost a: Snapshot)
      requires Valid() && (serviceOutputQ || NoForgottenStall()) && a.Handled(Now())
      requires serviceOutputQ ==> TxLayout.TookBack(a.tx.log, tx.q.log)
      modifies tx`asked
      ensures Valid() && NoForgottenStall() && a.Handled(Now()) && Csr() == old(Csr())
    {
      ghost var b := Now();
      if serviceOutputQ {
        Ask();
      }
      AskedOn(a, b, Now());
    }

    /** Asks the output queue to run. */
    method Ask()
      requires Valid()
      modifies tx`asked
      ensures Valid() && NoForgottenStall() && tx.asked
    {
      tx.Ask();
    }

    /** `outputPacket`. */
    method OutputPacket(chain: seq<seq<byte>>) returns (stall: bool)
      requires Valid() && NoForgottenStall() && |Rings.Flatten(chain)| <= BUFFER_SIZE
      modifies tx, tx.tx
      ensures Valid() && NoForgottenStall() && old(Now()).Makes(Output(chain), Now())
      ensures stall <==> old(tx.pending) == tx.tx.Length
      ensures stall ==> tx.q == old(tx.q) && tx.pending == old(tx.pending)
      ensures !stall ==> tx.q.accepted == old(tx.q.accepted) + [Plain(Rings.Flatten(chain))]
    {
      ghost var a := Now();
      stall := OutputRaw(chain);
      AcceptedGrows(a, Now());
    }

    method OutputRaw(chain: seq<seq<byte>>) returns (stall: bool)
      requires Valid() && NoForgottenStall() && |Rings.Flatten(chain)| <= BUFFER_SIZE
      modifies tx, tx.tx
      ensures Valid() && NoForgottenStall() && RingOnly(old(Now()), Now())
      ensures stall <==> old(tx.pending) == tx.tx.Length
      ensures stall ==> tx.q == old(tx.q) && tx.pending == old(tx.pending) && tx.stalled && !tx.asked
      ensures !stall ==> tx.asked == old(tx.asked)
      ensures !stall ==> tx.q.accepted == old(tx.q.accepted) + [Plain(Rings.Flatten(chain))]
      ensures !stall ==> tx.stalled == old(tx.stalled)
    {
      stall := tx.LncOutputPacket(chain);
    }

    /** The output queue runs: it is no longer stalled, and its request is used up. */
    method Service()
      requires Valid()
      modifies tx`stalled, tx`asked
      ensures Valid() && NoForgottenStall() && old(Now()).Makes(RunQueue, Now())
    {
      tx.Resume();
    }

    /** `lnc_start` and the reset it asks for when no cluster is to be had. */
    method Start(queue: seq<seq<seq<byte>>>, clusters: bool)
      returns (rest: seq<seq<seq<byte>>>, ok: bool, ghost k: nat)
      requires Valid() && NoForgottenStall() && !tx.oactive && TransmitEngine.Sendable(queue, tx.most)
      modifies `flags, `up, `resets, rx, rx.rx, tx, tx.tx
      ensures Valid() && NoForgottenStall() && old(Now()).Makes(StartOutput(queue, clusters), Now())
      ensures k <= |queue| && (!ok ==> k < |queue|) && rest == queue[if ok then k else k + 1..]
      ensures tx.q.accepted == old(tx.q.accepted) + TransmitEngine.Joins(queue[..k])
    {
      ghost var a := Now();
      rest, ok, k := HandOver(queue, clusters);
      if !ok {
        RestartFull(a, queue, k);
      }
      Starts(a, queue, clusters, k, Now());
    }

    /** Since `a` the queue has been started up to its `k`-th packet, a chain that needs more
        descriptors than there is room for, and a cluster that was not to be had. */
    method RestartFull(ghost a: Snapshot, ghost queue: seq<seq<seq<byte>>>, ghost k: nat)
      requires Resettable() && k < |queue| && |a.tx.view| < a.pending + |Rings.Flatten(queue[..k])| + |queue[k]|
      requires a.Grows(Now()) && a.resets == resets && a.inputQueue == rx.inputQueue
      requires tx.q.accepted == a.tx.accepted + TransmitEngine.Joins(queue[..k])
      modifies `flags, `up, `resets, rx, rx.rx, tx, tx.tx
      ensures Valid() && NoForgottenStall() && a.Grows(Now()) && a.Started(queue, false, k, Now())
    {
      ghost var m := Now();
      Restart(Energy(), NoCluster);
      ResetGrows(a, m, Now(), NoCluster);
    }

    /** `lnc_start`: of the queue the first `k` packets are accepted, and the rest stays, but for
        one that is lost if no cluster is to be had for it. */
    method HandOver(queue: seq<seq<seq<byte>>>, clusters: bool)
      returns (rest: seq<seq<seq<byte>>>, ok: bool, ghost k: nat)
      requires Valid() && NoForgottenStall() && !tx.oactive && TransmitEngine.Sendable(queue, tx.most)
      modifies tx, tx.tx
      ensures Resettable() && old(Now()).Grows(Now()) && resets == old(resets)
      ensures k <= |queue| && tx.q.accepted == old(tx.q.accepted) + TransmitEngine.Joins(queue[..k])
      ensures ok ==> Valid() && NoForgottenStall() && old(Now()).Started(queue, clusters, k, Now())
      ensures !ok ==> k < |queue| && !clusters
      ensures !ok ==> tx.tx.Length < old(tx.pending) + |Rings.Flatten(queue[..k])| + |queue[k]|
      ensures rest == queue[if ok then k else k + 1..]
    {
      ghost var a := Now();
      rest, ok, k := HandOverRaw(queue, clusters);
      AcceptedGrows(a, Now());
    }

    method HandOverRaw(queue: seq<seq<seq<byte>>>, clusters: bool)
      returns (rest: seq<seq<seq<byte>>>, ok: bool, ghost k: nat)
      requires Valid() && NoForgottenStall() && !tx.oactive && TransmitEngine.Sendable(queue, tx.most)
      modifies tx, tx.tx
      ensures Resettable() && RingOnly(old(Now()), Now()) && k <= |queue|
      ensures tx.q.accepted == old(tx.q.accepted) + TransmitEngine.Joins(queue[..k])
      ensures ok ==> Valid() && NoForgottenStall() && (k == |queue| || tx.pending == tx.tx.Length)
      ensures !ok ==> k < |queue| && !clusters
      ensures !ok ==> tx.tx.Length < old(tx.pending) + |Rings.Flatten(queue[..k])| + |queue[k]|
      ensures rest == queue[if ok then k else k + 1..]
      ensures tx.asked == old(tx.asked)
    {
      rest, ok, k := tx.LncStart(queue, clusters);
    }

    /** Every accepted frame has been taken back, is in the ring, or was dropped by a reset; and
        the stack has been given just what the receive side owes it. */
    lemma Conserved()
      requires Valid() && NoForgottenStall()
      ensures Now().Balanced(rx.mac, tx.most)
    {
      TxLayout.Conserved(tx.q);
      if tx.most == 1 {
        TxLayout.PendingFrames(tx.q);
      }
    }

    /** One request. */
    method Perform(r: Request)
      requires Valid() && NoForgottenStall() && r.Fits(tx.most)
      modifies this, rx, rx.rx, tx, tx.tx
      ensures Valid() && NoForgottenStall() && old(Now()).Makes(r, Now())
    {
      match r
      case Interrupt => HandleInterrupt();
      case Output(chain) => var stall := OutputPacket(chain);
      case StartOutput(queue, clusters) => PerformStart(queue, clusters);
      case RunQueue => Service();
      case Initialise(idon) => InitAdapter(idon);
      case EnableInterrupts(on) => Enable(on);
    }

    /** `enableHardwareInterrupts` and `disableHardwareInterrupts`. */
    method Enable(on: bool)
      requires Valid() && NoForgottenStall()
      modifies `interruptEnabled
      ensures Valid() && NoForgottenStall() && old(Now()).Makes(EnableInterrupts(on), Now())
    {
      interruptEnabled := on;
    }

    method PerformStart(queue: seq<seq<seq<byte>>>, clusters: bool)
      requires Valid() && NoForgottenStall() && TransmitEngine.Sendable(queue, tx.most)
      modifies `flags, `up, `resets, rx, rx.rx, tx, tx.tx
      ensures Valid() && NoForgottenStall() && old(Now()).Makes(StartOutput(queue, clusters), Now())
    {
      if !tx.oactive {
        ghost var k;
        var rest, ok;
        rest, ok, k := Start(queue, clusters);
      }
    }

    /** `initAdapter` for a full initialisation: interrupts are disabled first. */
    method InitAdapter(idon: bool)
      requires Valid()
      modifies `interruptEnabled, `flags, `up, `resets, rx, rx.rx, tx, tx.tx
      ensures Valid() && NoForgottenStall() && old(Now()).Makes(Initialise(idon), Now())
      ensures !interruptEnabled && up == idon && rx.inputQueue == old(rx.inputQueue)
    {
      ghost var a := Now();
      Disable();
      ghost var m := Now();
      LncReset(idon, Asked);
      Initialises(a, m, Now(), idon);
    }

    method Disable()
      requires Valid()
      modifies `interruptEnabled
      ensures Resettable() && Now() == old(Now()).(enabled := false)
    {
      interruptEnabled := false;
    }

    /** The requests before `n` have been performed. */
    ghost predicate Performed(states: seq<Snapshot>, requests: seq<Request>, n: nat)
      reads this, rx, rx.rx, tx, tx.tx
    {
      && Valid() && NoForgottenStall() && n <= |requests|
      && Trace(states, requests[..n], rx.mac, tx.most) && states[n] == Now()
    }

    method PerformNext(requests: seq<Request>, i: nat, ghost states: seq<Snapshot>)
      returns (ghost states': seq<Snapshot>)
      requires Performed(states, requests, i) && i < |requests| && requests[i].Fits(tx.most)
      modifies this, rx, rx.rx, tx, tx.tx
      ensures Performed(states', requests, i + 1) && states'[0] == states[0]
    {
      Perform(requests[i]);
      Conserved();
      states' := states + [Now()];
      Runs.RunOn(states, requests, InBalance(rx.mac, tx.most), Makes(), i, Now());
    }

    /** Any sequence of requests, with the controller active throughout: every state on the way
        is in balance, and every request has its effect. */
    method Run(requests: seq<Request>) returns (ghost states: seq<Snapshot>)
      requires Valid() && NoForgottenStall() && forall r | r in requests :: r.Fits(tx.most)
      modifies this, rx, rx.rx, tx, tx.tx
      ensures Valid() && NoForgottenStall()
      ensures Trace(states, requests, rx.mac, tx.most) && states[0] == old(Now()) && states[|requests|] == Now()
    {
      Conserved();
      states := [Now()];
      for i := 0 to |requests|
        invariant Performed(states, requests, i) && states[0] == old(Now())
      {
        states := PerformNext(requests, i, states);
      }
      assert requests[..|requests|] == requests;
    }
  }
}
