/** The interrupt handler, the restart and the transmit timeout of the Linux driver, and runs of
    the whole driver.
 */
module LinuxDriver {
  import Counters
  import T = LinuxTransmit
  import R = LinuxReceive
  import Runs

  /** The flags of one reading of CSR0 that the handler acts on. */
  datatype Csr0 = Csr0(rint: bool, tint: bool, miss: bool)

  /** What the kernel asks of the driver; a lock serialises requests. */
  datatype Request =
    | Transmit(skb: T.Skb, len: int, dma: nat)
    | Interrupt(turns: seq<Csr0>, maxWork: int)
    | Timeout
  {
    predicate Mapped() { Transmit? ==> skb != 0 && dma != 0 }

    /** The turns of the handler that are taken. */
    function Taken(): seq<Csr0>
      requires Interrupt?
    {
      if maxWork <= 0 then [] else if |turns| <= maxWork then turns else turns[..maxWork]
    }
  }

  /** The books of the driver: packets taken over, freed after they were sent, in the ring (the
      first `sent` of them sent) and dropped; buffers received and handled, and how often memory
      was short; whether the transmitter is off, how often a FIFO error has turned it off, which
      the controller alone enters, and how often the driver has restarted for one or for a
      timeout. */
  datatype Snapshot = Snapshot(total: multiset<T.Packet>, freed: seq<T.Packet>, pending: seq<T.Packet>, sent: nat,
                               dropped: multiset<T.Packet>, stopped: bool,
                               arrivals: seq<R.Received>, log: seq<R.Handled>, refusals: nat,
                               off: bool, fifos: nat, restarts: nat, timeouts: nat)
  {
    /** Every packet taken over is freed, in the ring or dropped, and only once; with a full ring
        the queue is stopped. */
    ghost predicate Balanced() {
      && total == multiset(freed) + multiset(pending) + dropped && sent <= |pending| <= T.SIZE
      && (|pending| == T.SIZE ==> stopped) && R.Arrivals(log) <= arrivals
    }

    /** Histories only grow; there are no more restarts than FIFO errors, one that was pending
        included; and only a restart or a timeout drops or loses anything. */
    ghost predicate Before(b: Snapshot) {
      && freed <= b.freed && arrivals <= b.arrivals && log <= b.log && refusals <= b.refusals
      && fifos <= b.fifos && restarts <= b.restarts && timeouts <= b.timeouts
      && b.restarts + Runs.Owed(b.off) <= restarts + Runs.Owed(off) + (b.fifos - fifos)
      && (restarts == b.restarts && timeouts == b.timeouts ==> Unharmed(b))
    }

    ghost predicate Unharmed(b: Snapshot) {
      dropped == b.dropped && log <= b.log && forall i | |log| <= i < |b.log| :: !b.log[i].fate.Lost?
    }

    /** What the interrupt handler may do: it restarts exactly once for every FIFO error. */
    ghost predicate To(b: Snapshot) {
      && Before(b) && total == b.total && timeouts == b.timeouts
      && b.restarts + Runs.Owed(b.off) == restarts + Runs.Owed(off) + (b.fifos - fifos)
    }

    /** Nothing received has been looked at; a restart may have lost it. */
    ghost predicate Unread(b: Snapshot) {
      b.refusals == refusals && log <= b.log && forall i | |log| <= i < |b.log| :: b.log[i].fate.Lost?
    }

    /** A restart. */
    ghost predicate Emptied(b: Snapshot) {
      && b.total == total && b.freed == freed && b.pending == [] && b.dropped == dropped + multiset(pending)
      && !b.stopped && !b.off && Unread(b) && R.Arrivals(b.log) == b.arrivals == arrivals
      && b.fifos == fifos && b.restarts == restarts && b.timeouts == timeouts
    }

    /** A packet has joined the ring, while the controller may have sent others. */
    ghost predicate Entered(p: T.Packet, b: Snapshot) {
      && b.total == total + multiset{p} && b.pending == pending + [p] && b.freed == freed && b.dropped == dropped
      && b.arrivals == arrivals && b.log == log && b.refusals == refusals
      && b.restarts == restarts && b.timeouts == timeouts
      && fifos <= b.fifos && Runs.Owed(b.off) == Runs.Owed(off) + (b.fifos - fifos)
    }

    /** What had been sent is freed. */
    ghost predicate SentFreed(b: Snapshot) {
      sent <= |pending| && freed + pending[..sent] <= b.freed
    }

    /** What had arrived is handled, unless half a ring was dealt with or memory was short. */
    ghost predicate ArrivedHandled(b: Snapshot) {
      arrivals <= R.Arrivals(b.log) || |log| + R.SIZE / 2 <= |b.log| || refusals < b.refusals
    }

    /** The transmit ring has not been looked at. */
    ghost predicate Unsent(b: Snapshot) {
      b.freed == freed && b.pending == pending && b.restarts == restarts && b.stopped == stopped
    }

    /** One turn of the handler serves what was read from CSR0, and nothing else; after a transmit
        interrupt the transmitter runs, and the queue, too, if three slots are unused. */
    ghost predicate Turn(c: Csr0, b: Snapshot) {
      && To(b) && (if c.rint || c.miss then ArrivedHandled(b) else Unread(b))
      && (if c.tint then SentFreed(b) && !b.off && (|b.pending| < T.SIZE - 2 ==> !b.stopped) else Unsent(b))
    }

    /** The request has its effect, and the histories only grow. */
    ghost predicate Makes(r: Request, b: Snapshot) {
      Before(b) && Step(r, b)
    }

    ghost predicate Step(r: Request, b: Snapshot) {
      match r
      case Transmit(skb, len, dma) =>
        if stopped then b == this else Entered(T.Packet(skb, len, dma), b)
      case Interrupt(_, _) =>
        exists states :: Handler(states, r.Taken()) && states[0] == this && states[|r.Taken()|] == b
      case Timeout =>
        && b.total == total && b.freed == freed && b.pending == [] && b.dropped == dropped + multiset(pending)
        && !b.stopped && !b.off && Unread(b) && R.Arrivals(b.log) == arrivals
        && b.restarts == restarts && b.timeouts == timeouts + 1
    }
  }

  lemma TakenIs(turns: seq<Csr0>, maxWork: int, n: nat)
    requires n <= |turns| && (n == 0 || n <= maxWork) && (n == |turns| || maxWork <= n)
    ensures turns[..n] == Interrupt(turns, maxWork).Taken()
  {
  }

  lemma ArrivalsGrow(log: seq<R.Handled>, more: seq<R.Handled>)
    requires log <= more
    ensures R.Arrivals(log) <= R.Arrivals(more)
  {
  }

  /** What is settled stays settled. */
  lemma Later(a: Snapshot, b: Snapshot, c: Snapshot)
    requires a.Before(b) && b.Before(c)
    ensures a.Before(c)
    ensures a.SentFreed(b) ==> a.SentFreed(c)
    ensures a.ArrivedHandled(b) || b.ArrivedHandled(c) ==> a.ArrivedHandled(c)
    ensures a.To(b) && b.To(c) ==> a.To(c)
  {
    ArrivalsGrow(b.log, c.log);
  }

  lemma Transmits(a: Snapshot, b: Snapshot, skb: T.Skb, len: int, dma: nat)
    requires !a.stopped && a.Entered(T.Packet(skb, len, dma), b)
    ensures a.Makes(Transmit(skb, len, dma), b)
  {
  }

  /** The parts of a turn: RINT, TINT, and what a missed frame and a FIFO error call for. */
  lemma AllParts(c: Csr0, a: Snapshot, b: Snapshot, d: Snapshot, e: Snapshot, mustRestart: bool)
    requires a.To(b) && (if c.rint then a.ArrivedHandled(b) && a.Unsent(b) && a.sent == b.sent else b == a)
    requires b.To(d) && (if c.tint then b.SentFreed(d) && b.Unread(d) && mustRestart == d.off else d == b)
    requires c.tint && |d.pending| < T.SIZE - 2 ==> !d.stopped
    requires d.To(e) && (if c.miss then d.ArrivedHandled(e) else d.Unread(e))
    requires mustRestart ==> c.tint
    requires if mustRestart then !e.off && !e.stopped else d.Unsent(e) && e.off == d.off
    ensures a.Turn(c, e)
  {
    Later(a, b, d);
    Later(a, d, e);
  }

  /** With no FIFO error meanwhile and none pending, and no timeout, nothing is restarted, dropped
      or lost. */
  lemma Undisturbed(a: Snapshot, b: Snapshot)
    requires a.Before(b) && !a.off && b.fifos == a.fifos && b.timeouts == a.timeouts
    ensures b.restarts == a.restarts && a.Unharmed(b)
  {
  }

  ghost function Turns(): (Snapshot, Csr0, Snapshot) -> bool {
    (a: Snapshot, c: Csr0, b: Snapshot) => a.Turn(c, b)
  }

  ghost function Makes(): (Snapshot, Request, Snapshot) -> bool {
    (a: Snapshot, r: Request, b: Snapshot) => a.Makes(r, b)
  }

  ghost function InBalance(): Snapshot -> bool {
    (s: Snapshot) => s.Balanced()
  }

  /** The turns of the handler: the states in between, each what a turn makes of the one before. */
  ghost predicate Handler(states: seq<Snapshot>, turns: seq<Csr0>) {
    Runs.Run(states, turns, InBalance(), Turns())
  }

  /** A run: the states in between, each in balance, each what the next request makes of the
      one before. */
  ghost predicate Trace(states: seq<Snapshot>, requests: seq<Request>) {
    Runs.Run(states, requests, InBalance(), Makes())
  }

  class Driver {
    const tx: T.LinuxTransmitter
    const rx: R.LinuxReceiver

    /** Every packet ever taken over from the stack, and how often the driver has restarted for
        a FIFO error and for a timeout. */
    ghost var total: multiset<T.Packet>
    ghost var restarts: nat
    ghost var timeouts: nat

    ghost predicate Sound()
      reads this, tx, tx.ring, rx, rx.ring
    {
      && tx.Valid() && rx.Valid()
      && total == multiset(tx.accepted) + tx.dropped
    }

    ghost predicate Valid()
      reads this, tx, tx.ring, rx, rx.ring
    {
      Sound() && !tx.halted
    }

    ghost function Now(): Snapshot
      reads this, tx, rx
    {
      Snapshot(total, tx.freed, tx.w.Pending(), tx.w.done, tx.dropped, tx.stopped, rx.arrivals,
               rx.log, rx.refusals, !tx.running, tx.fifos, restarts, timeouts)
    }

    constructor (tx: T.LinuxTransmitter, rx: R.LinuxReceiver)
      requires tx.Valid() && !tx.halted && rx.Valid() && tx.accepted == [] && tx.dropped == multiset{}
      ensures Valid() && this.tx == tx && this.rx == rx && restarts == timeouts == 0
    {
      this.tx, this.rx, total, restarts, timeouts := tx, rx, multiset{}, 0, 0;
    }

    /** `pcnet32_restart` and the waking of the queue: packets in the transmit ring are dropped,
        and what was received and not handled is lost. Initialising the rings again cannot
        fail. */
    method Restart()
      requires Sound()
      modifies tx, tx.ring, rx, rx.ring
      ensures Valid() && tx.curTx == tx.dirtyTx == 0 && rx.delivered == old(rx.delivered)
      ensures old(Now()).Emptied(Now())
    {
      tx.Purge();
      InitRings();
    }

    method InitRings()
      requires rx.Valid() && tx.ring.Length == T.SIZE && forall i | 0 <= i < T.SIZE :: tx.ring[i].skb == 0
      requires tx.accepted == tx.freed && total == multiset(tx.freed) + tx.dropped
      modifies tx, tx.ring, rx, rx.ring
      ensures Valid() && tx.curTx == tx.dirtyTx == 0 && tx.w.used == 0 && !tx.stopped && tx.dropped == old(tx.dropped)
      ensures tx.freed == old(tx.freed) && old(rx.log) <= rx.log
      ensures forall i | |old(rx.log)| <= i < |rx.log| :: rx.log[i].fate.Lost?
      ensures R.Arrivals(rx.log) == rx.arrivals == old(rx.arrivals)
      ensures rx.delivered == old(rx.delivered) && rx.refusals == old(rx.refusals)
      ensures tx.running && tx.fifos == old(tx.fifos)
    {
      var ok := rx.InitRing();
      if !ok { return; }
      StartTx();
    }

    method StartTx()
      requires tx.ring.Length == T.SIZE && tx.accepted == tx.freed && forall i | 0 <= i < T.SIZE :: tx.ring[i].skb == 0
      modifies tx, tx.ring
      ensures tx.Valid() && !tx.halted && tx.running && !tx.stopped && tx.curTx == tx.dirtyTx == 0 && tx.w.used == 0
      ensures tx.freed == old(tx.freed) == tx.accepted && tx.dropped == old(tx.dropped) && tx.fifos == old(tx.fifos)
    {
      tx.InitRing();
      tx.Wake();
    }

    /** One turn of the loop of `pcnet32_interrupt`. */
    method Turn(c: Csr0)
      requires Valid()
      modifies `restarts, tx, tx.ring, rx, rx.ring
      ensures Valid() && old(Now()).Turn(c, Now())
    {
      ghost var a := Now();
      RxTurn(c.rint);
      ghost var b := Now();
      var mustRestart := TxTurn(c.tint);
      ghost var d := Now();
      EndTurn(c.miss, mustRestart);
      AllParts(c, a, b, d, Now(), mustRestart);
    }

    method RxTurn(rint: bool)
      requires Valid()
      modifies rx, rx.ring
      ensures Valid() && old(Now()).To(Now())
      ensures if rint then old(Now()).ArrivedHandled(Now()) && old(Now()).Unsent(Now()) && Now().sent == old(Now()).sent
              else Now() == old(Now())
    {
      if rint { RxPart(); }
    }

    method TxTurn(tint: bool) returns (mustRestart: bool)
      requires Valid()
      modifies tx, tx.ring
      ensures Sound() && mustRestart == tx.halted && old(Now()).To(Now()) && (mustRestart ==> tint)
      ensures if tint then old(Now()).SentFreed(Now()) && old(Now()).Unread(Now()) && mustRestart == Now().off
              else Now() == old(Now())
      ensures tint && |Now().pending| < T.SIZE - 2 ==> !Now().stopped
    {
      mustRestart := false;
      if tint { mustRestart := TxPart(); }
    }

    /** What a missed frame calls for, and the restart. */
    method EndTurn(miss: bool, mustRestart: bool)
      requires Sound() && mustRestart == tx.halted
      modifies `restarts, tx, tx.ring, rx, rx.ring
      ensures Valid() && old(Now()).To(Now())
      ensures if miss then old(Now()).ArrivedHandled(Now()) else old(Now()).Unread(Now())
      ensures if mustRestart then !Now().off && !Now().stopped
              else old(Now()).Unsent(Now()) && Now().off == old(Now()).off
    {
      ghost var a := Now();
      if miss { RxPart(); }
      ghost var b := Now();
      if mustRestart { RestartMended(); }
      Later(a, b, Now());
    }

    /** The restart that a FIFO error calls for. */
    method RestartMended()
      requires Sound() && !tx.running
      modifies `restarts, tx, tx.ring, rx, rx.ring
      ensures Valid() && tx.running && !tx.stopped && old(Now()).To(Now()) && old(Now()).Unread(Now())
    {
      Restart();
      restarts := restarts + 1;
    }

    method RxPart()
      requires Sound()
      modifies rx, rx.ring
      ensures Sound() && old(Now()).To(Now()) && old(Now()).ArrivedHandled(Now())
    {
      rx.Rx();
    }

    method TxPart() returns (mustRestart: bool)
      requires Valid()
      modifies tx, tx.ring
      ensures Sound() && mustRestart == tx.halted == !tx.running && (tx.w.used < T.SIZE - 2 ==> !tx.stopped)
      ensures old(Now()).To(Now()) && old(Now()).SentFreed(Now())
    {
      mustRestart := tx.TxInterrupt();
    }

    /** The first `n` turns have been taken since `a`. */
    ghost predicate Turned(a: Snapshot, states: seq<Snapshot>, turns: seq<Csr0>, n: nat)
      reads this, tx, tx.ring, rx, rx.ring
    {
      && Valid() && a.Before(Now()) && n <= |turns|
      && Handler(states, turns[..n]) && states[0] == a && states[n] == Now()
    }

    method NextTurn(ghost a: Snapshot, ghost states: seq<Snapshot>, turns: seq<Csr0>, i: nat)
      returns (next: nat, ghost states': seq<Snapshot>)
      requires Turned(a, states, turns, i) && i < |turns|
      modifies `restarts, tx, tx.ring, rx, rx.ring
      ensures next == i + 1 && Turned(a, states', turns, next)
    {
      next := i + 1;
      ghost var b := Now();
      Turn(turns[i]);
      Later(a, b, Now());
      Conserved();
      states' := states + [Now()];
      Runs.RunOn(states, turns, InBalance(), Turns(), i, Now());
    }

    /** `pcnet32_interrupt`, CSR0 being read at most `maxWork` times. */
    method HandleInterrupt(turns: seq<Csr0>, maxWork: int)
      requires Valid()
      modifies `restarts, tx, tx.ring, rx, rx.ring
      ensures Valid() && old(Now()).Makes(Interrupt(turns, maxWork), Now())
    {
      ghost var a := Now();
      ghost var n, states := TakeTurns(turns, maxWork, a);
      TakenIs(turns, maxWork, n);
    }

    method TakeTurns(turns: seq<Csr0>, maxWork: int, ghost a: Snapshot)
      returns (ghost n: nat, ghost states: seq<Snapshot>)
      requires Valid() && a == Now()
      modifies `restarts, tx, tx.ring, rx, rx.ring
      ensures Turned(a, states, turns, n)
      ensures (n == 0 || n <= maxWork) && (n == |turns| || maxWork <= n)
    {
      var boguscnt: int := maxWork;
      Conserved();
      states := [Now()];
      var i := 0;
      while i < |turns|
        invariant Turned(a, states, turns, i) && boguscnt == maxWork - i && (i == 0 || i <= maxWork)
      {
        boguscnt := boguscnt - 1;
        if boguscnt < 0 { break; }
        i, states := NextTurn(a, states, turns, i);
      }
      n := i;
    }

    /** Every packet taken over has been freed after it was sent, is in the ring, or was dropped
        by a restart. */
    lemma Conserved()
      requires Valid()
      ensures Now().Balanced()
    {
    }

    /** The stack hands over a packet unless the queue is stopped. */
    method Send(skb: T.Skb, len: int, dma: nat)
      requires Valid() && skb != 0 && dma != 0
      modifies this, tx, tx.ring
      ensures Valid() && old(Now()).Makes(Transmit(skb, len, dma), Now())
    {
      if !tx.stopped {
        Enter(skb, len, dma);
      }
    }

    method Enter(skb: T.Skb, len: int, dma: nat)
      requires Valid() && !tx.stopped && skb != 0 && dma != 0
      modifies `total, tx, tx.ring
      ensures Valid() && old(Now()).Makes(Transmit(skb, len, dma), Now())
    {
      ghost var a := Now();
      EnterBooks(skb, len, dma);
      Transmits(a, Now(), skb, len, dma);
    }

    method EnterBooks(skb: T.Skb, len: int, dma: nat)
      requires Valid() && !tx.stopped && skb != 0 && dma != 0
      modifies `total, tx, tx.ring
      ensures Valid() && old(Now()).Entered(T.Packet(skb, len, dma), Now())
    {
      tx.StartXmit(skb, len, dma);
      total := total + multiset{T.Packet(skb, len, dma)};
    }

    method Perform(r: Request)
      requires Valid() && r.Mapped()
      modifies this, tx, tx.ring, rx, rx.ring
      ensures Valid() && old(Now()).Makes(r, Now())
    {
      match r
      case Transmit(skb, len, dma) => Send(skb, len, dma);
      case Interrupt(turns, maxWork) => HandleInterrupt(turns, maxWork);
      case Timeout => TxTimeout();
    }

    /** `pcnet32_tx_timeout`. */
    method TxTimeout()
      requires Valid()
      modifies `timeouts, tx, tx.ring, rx, rx.ring
      ensures Valid() && old(Now()).Makes(Timeout, Now())
    {
      Restart();
      timeouts := timeouts + 1;
    }

    /** The requests before `n` have been performed. */
    ghost predicate Performed(states: seq<Snapshot>, requests: seq<Request>, n: nat)
      reads this, tx, tx.ring, rx, rx.ring
    {
      Valid() && n <= |requests| && Trace(states, requests[..n]) && states[n] == Now()
    }

    method PerformNext(requests: seq<Request>, i: nat, ghost states: seq<Snapshot>)
      returns (ghost states': seq<Snapshot>)
      requires Performed(states, requests, i) && i < |requests| && requests[i].Mapped()
      modifies this, tx, tx.ring, rx, rx.ring
      ensures Performed(states', requests, i + 1) && states'[0] == states[0]
    {
      Perform(requests[i]);
      Conserved();
      states' := states + [Now()];
      Runs.RunOn(states, requests, InBalance(), Makes(), i, Now());
    }

    /** Any sequence of requests, with the controller active throughout. */
    method Run(requests: seq<Request>) returns (ghost states: seq<Snapshot>)
      requires Valid() && forall r | r in requests :: r.Mapped()
      modifies this, tx, tx.ring, rx, rx.ring
      ensures Valid() && Trace(states, requests) && states[0] == old(Now()) && states[|requests|] == Now()
      ensures Counters.Ahead(tx.curTx, tx.dirtyTx) == |Now().pending|
      ensures rx.delivered == R.Delivered(rx.log) && rx.w.Distinct() && rx.w.Private(rx.nextSkb, rx.given)
    {
      Conserved();
      states := [Now()];
      for i := 0 to |requests|
        invariant Performed(states, requests, i) && states[0] == old(Now())
      {
        states := PerformNext(requests, i, states);
      }
      assert requests[..|requests|] == requests;
    }
  }
}
