/** The receive ring of the Linux driver: buffers are replaced in place, and when memory is
    short a packet is put off or, with the ring almost full, dropped.
 */
module LinuxReceive {
  import opened Descriptors
  import opened Rings
  import opened Counters

  const SIZE := 32            // RX_RING_SIZE
  const ROOM := 1542          // PKT_BUF_SZ - 2
  const COPY_BREAK := 200     // rx_copybreak
  const SHORTEST := 60

  /** A socket buffer; 0 is none. */
  type Skb = nat

  /** The message length; the driver masks off the bits above it. */
  type Count = n: nat | n <= COUNT_MASK

  /** What a buffer is used for: a whole frame with its check sequence, or some of one that is
      damaged or takes several buffers, of which one is the `last`. */
  datatype Received = Whole(frame: seq<byte>) | Part(last: bool)
  {
    /** A frame that is neither too long nor too short. */
    predicate Proper() { Whole? && SHORTEST <= |frame| - CRC_LENGTH <= ROOM }
  }

  /** What the controller reports about one buffer. */
  datatype Report = Report(err: bool, fram: bool, oflo: bool, crc: bool, buff: bool, stp: bool,
                           enp: bool, count: Count, data: seq<byte>)
  {
    predicate Faulty() { err || fram || oflo || crc || buff }

    /** The status byte is 0x03. */
    predicate Clean() { !Faulty() && stp && enp }

    /** The message length less the check sequence; it may be negative. */
    function Length(): (n: int)
      ensures -CRC_LENGTH <= n <= COUNT_MASK - CRC_LENGTH
    {
      count - CRC_LENGTH
    }

    /** Neither faulty nor too long nor too short. */
    predicate Acceptable() { Clean() && SHORTEST <= Length() <= ROOM }

    function Packet(): seq<byte>
      requires Acceptable() && |data| == ROOM
    {
      data[..Length()]
    }

    predicate Blank() { !Faulty() && !stp && !enp }

    /** Writing a status word without any of these bits. */
    function Wiped(): (r: Report)
      ensures r.Blank()
    {
      Report(false, false, false, false, false, false, false, count, data)
    }

    /** The report tells of `e`, and the buffer holds as much of the frame as it has room for. */
    predicate Tells(e: Received) {
      && |data| == ROOM
      && match e
         case Whole(f) => Clean() && count == |f| && forall i | 0 <= i < |f| && i < ROOM :: data[i] == f[i]
         case Part(last) => !Clean() && enp == last
    }
  }

  /** The driver goes by the report, and takes the frame without its check sequence. */
  lemma ToldPacket(r: Report, e: Received)
    requires r.Tells(e)
    ensures r.Acceptable() <==> e.Proper()
    ensures e.Proper() ==> r.Packet() == e.frame[..|e.frame| - CRC_LENGTH]
  {
  }

  /** One slot of `rx_ring`, `rx_skbuff` and `rx_dma_addr`, and the contents of its buffer. */
  datatype RxSlot = RxSlot(own: bool, report: Report, base: nat, length: int, skb: Skb, dma: nat)
  {
    function Rearmed(): RxSlot { this.(own := true, report := report.Wiped()) }

    predicate Armed() {
      base != 0 && base == dma && skb != 0 && length == -ROOM && |report.data| == ROOM
    }
  }

  /** How a received buffer was dealt with: put through, dropped for want of memory, or lost to a
      restart. */
  datatype Fate = Kept | Squeezed | Lost

  datatype Handled = Handled(received: Received, fate: Fate)
  {
    /** The last buffer of a faulty packet counts as an error, and so does a length out of range. */
    function Errors(): nat {
      if !fate.Kept? || received.Proper() then 0
      else if received.Whole? || received.last then 1 else 0
    }

    /** The stack gets the frame without its check sequence. */
    function Delivered(): seq<seq<byte>> {
      if fate.Kept? && received.Proper() then [received.frame[..|received.frame| - CRC_LENGTH]] else []
    }
  }

  /** What `rx_errors` counts. */
  function Errors(log: seq<Handled>): nat {
    if log == [] then 0 else Errors(log[..|log| - 1]) + log[|log| - 1].Errors()
  }

  /** What the stack was given, in terms of what was handled. */
  function Delivered(log: seq<Handled>): seq<seq<byte>> {
    if log == [] then [] else Delivered(log[..|log| - 1]) + log[|log| - 1].Delivered()
  }

  function Arrivals(log: seq<Handled>): (s: seq<Received>)
    ensures |s| == |log|
  {
    seq(|log|, i requires 0 <= i < |log| => log[i].received)
  }

  lemma {:induction false} LogSnoc(log: seq<Handled>, h: Handled)
    ensures Delivered(log + [h]) == Delivered(log) + h.Delivered()
    ensures Arrivals(log + [h]) == Arrivals(log) + [h.received]
    ensures Errors(log + [h]) == Errors(log) + h.Errors()
  {
    assert (log + [h])[..|log|] == log;
  }

  /** What was received and a restart takes away unhandled. */
  function Abandoned(s: seq<Received>): seq<Handled> {
    seq(|s|, i requires 0 <= i < |s| => Handled(s[i], Lost))
  }

  /** What is not kept is neither delivered nor counted. */
  lemma {:induction false} LostNothing(log: seq<Handled>, to: seq<Handled>)
    requires log <= to && forall i | |log| <= i < |to| :: !to[i].fate.Kept?
    ensures Delivered(to) == Delivered(log) && Errors(to) == Errors(log)
    decreases |to|
  {
    if |log| < |to| {
      LostNothing(log, to[..|to| - 1]);
    } else {
      assert log == to;
    }
  }

  lemma LostReceived(log: seq<Handled>, s: seq<Received>)
    ensures Arrivals(log + Abandoned(s)) == Arrivals(log) + s
    ensures Delivered(log + Abandoned(s)) == Delivered(log) && Errors(log + Abandoned(s)) == Errors(log)
  {
    LostNothing(log, log + Abandoned(s));
  }

  lemma Remainder(a: seq<Received>, b: seq<Received>)
    requires a <= b
    ensures b == a + b[|a|..]
  {
  }

  /** The ring from `cur_rx` on: `host` received buffers, then the controller's, none of which
      still has an error of an earlier packet in its status. */
  datatype RxWindow = RxWindow(base: nat, view: seq<RxSlot>, host: nat)
  {
    ghost predicate Sound() {
      && base < |view| == SIZE && host <= SIZE
      && (forall i | 0 <= i < SIZE :: view[i].Armed() && (view[i].own <==> host <= i))
      && (forall i | host <= i < SIZE :: !view[i].report.Faulty())
    }

    /** No two slots share a buffer. */
    ghost predicate Distinct() {
      |view| == SIZE && forall i, j | 0 <= i < j < SIZE :: view[i].skb != view[j].skb
    }

    /** Every buffer in the ring is below `next`, and none has been given away. */
    ghost predicate Private(next: Skb, given: set<Skb>) {
      forall i | 0 <= i < |view| :: view[i].skb < next && view[i].skb !in given
    }

    ghost predicate Leads(to: RxWindow) {
      && to.base == base && |to.view| == |view| && host <= to.host
      && (forall i | 0 <= i < |view| && i < host :: to.view[i] == view[i])
      && (forall i | 0 <= i < |view| :: to.view[i].skb == view[i].skb)
    }
  }

  const NOTHING := Report(false, false, false, false, false, false, false, 0, seq(ROOM, _ => 0))

  type Window = w: RxWindow | w.Sound()
    ghost witness RxWindow(0, seq(SIZE, _ => RxSlot(true, NOTHING, 1, -ROOM, 1, 1)), 0)

  /** The controller fills its next buffer. */
  function Filled(w: Window, r: Report): (x: Window)
    requires w.host < SIZE && |r.data| == ROOM
    ensures w.Leads(x) && (w.Distinct() ==> x.Distinct())
  {
    w.(view := w.view[w.host := w.view[w.host].(own := false, report := r)], host := w.host + 1)
  }

  /** The driver writes to the slot at `cur_rx`, which stays its own. */
  function Rewritten(w: Window, s: RxSlot): (x: Window)
    requires 0 < w.host && s.Armed() && !s.own
  {
    w.(view := w.view[0 := s])
  }

  lemma ReplacedPrivate(w: Window, s: RxSlot, next: Skb, given: set<Skb>)
    requires 0 < w.host && s.Armed() && !s.own && s.skb == next
    requires w.Distinct() && w.Private(next, given) && forall b | b in given :: b < next
    ensures Rewritten(w, s).Private(next + 1, given + {w.view[0].skb})
  {
  }

  /** The driver gives the slot at `cur_rx` back and moves on. */
  function Advanced(w: Window, s: RxSlot): (x: Window)
    requires 0 < w.host && s == w.view[0].(own := true) && !s.report.Faulty()
    ensures w.Distinct() ==> x.Distinct()
  {
    RxWindow(Inc(w.base, SIZE), w.view[1..] + [s], w.host - 1)
  }

  class LinuxReceiver {
    const ring: array<RxSlot>
    var curRx: Counter
    var errors: nat

    // The controller.
    var cursor: nat
    var budget: nat

    // The allocator's next buffer, and the stack: buffers it has been given, packets it has got.
    var nextSkb: Skb
    ghost var given: set<Skb>
    var delivered: seq<seq<byte>>

    // How often the allocator has had no buffer.
    ghost var refusals: nat

    // The ring, what the controller has received, and what has been dealt with.
    ghost var w: Window
    ghost var arrivals: seq<Received>
    ghost var log: seq<Handled>

    /** The ring matches the counter; the first `k` received buffers are already in the log. */
    ghost predicate Matches(k: nat)
      reads this, ring
    {
      && ring.Length == SIZE
      && w.view == View(ring[..], w.base) && w.base == curRx % SIZE
      && cursor == Slot(w.base, w.host, SIZE)
      && k <= w.host && Arrivals(log) <= arrivals && |arrivals| == |log| + w.host - k
      && (forall i | k <= i < w.host :: w.view[i].report.Tells(arrivals[|log| - k + i]))
      && delivered == Delivered(log) && errors == Errors(log)
    }

    /** The oldest buffer received and not yet dealt with. */
    ghost function Oldest(): Received
      reads this
    {
      if |log| < |arrivals| then arrivals[|log|] else Part(true)
    }

    /** Each slot has a buffer of its own, and the stack has none of them. */
    ghost predicate Separate()
      reads this
    {
      && w.Distinct() && w.Private(nextSkb, given) && 0 < nextSkb
      && forall b | b in given :: b < nextSkb
    }

    ghost predicate Valid()
      reads this, ring
    {
      Matches(0) && Separate()
    }

    method Put(i: nat, ghost k: nat, s: RxSlot, ghost to: Window)
      requires ring.Length == SIZE && w.view == View(ring[..], w.base)
      requires k < SIZE && i == Slot(w.base, k, SIZE)
      requires to.view == w.view[k := s] && to.base == w.base
      modifies ring, `w
      ensures w == to && w.view == View(ring[..], w.base)
    {
      ghost var r := ring[..];
      ViewSet(r, w.base, k, s);
      ring[i] := s;
      assert ring[..] == r[i := s];
      w := to;
    }

    method ControllerStep(r: Report, e: Received, ghost k: nat)
      requires Matches(k) && Separate()
      modifies `cursor, `w, `arrivals, ring
      ensures Matches(k) && Separate() && old(w).Leads(w) && old(arrivals) <= arrivals
    {
      AtCursor(k);
      if ring[cursor].own && r.Tells(e) {
        Fill(r, e, k);
      }
    }

    lemma AtCursor(k: nat)
      requires Matches(k)
      ensures cursor < SIZE && (ring[cursor].own ==> w.host < SIZE && ring[cursor] == w.view[w.host])
    {
      ViewAt(ring[..], w.base, if w.host < SIZE then w.host else 0);
    }

    method Fill(r: Report, ghost e: Received, ghost k: nat)
      requires Matches(k) && Separate() && cursor < SIZE && w.host < SIZE && ring[cursor] == w.view[w.host]
      requires r.Tells(e)
      modifies `cursor, `w, `arrivals, ring
      ensures Matches(k) && Separate() && old(w).Leads(w) && old(arrivals) <= arrivals
    {
      ghost var to := Filled(w, r);
      SlotStep(w.base, w.host, SIZE);
      Put(cursor, w.host, ring[cursor].(own := false, report := r), to);
      cursor, arrivals := Inc(cursor, SIZE), arrivals + [e];
    }

    /** Any number of controller steps. */
    method Controller(ghost k: nat)
      requires Matches(k) && Separate()
      modifies `cursor, `w, `arrivals, `budget, ring
      ensures Matches(k) && Separate() && old(w).Leads(w) && budget <= old(budget) && old(arrivals) <= arrivals
    {
      while *
        invariant Matches(k) && Separate() && old(w).Leads(w) && budget <= old(budget) && old(arrivals) <= arrivals
        decreases budget
      {
        if budget == 0 { break; }
        budget := budget - 1;
        var r: Report, e: Received := *, *;
        ControllerStep(r, e, k);
      }
    }

    constructor (budget: nat, bases: seq<nat>)
      requires |bases| == SIZE && 0 !in bases
      ensures Valid() && fresh(ring) && log == [] && arrivals == [] && curRx == refusals == 0 && this.budget == budget
    {
      ring := new RxSlot[SIZE](i requires 0 <= i < SIZE => RxSlot(true, NOTHING, bases[i], -ROOM, i + 1, bases[i]));
      this.budget := budget;
      curRx, cursor, errors, nextSkb := 0, 0, 0, SIZE + 1;
      given, delivered, arrivals, log, refusals := {}, [], [], [], 0;
      w := RxWindow(0, seq(SIZE, i requires 0 <= i < SIZE =>
                        RxSlot(true, NOTHING, bases[i], -ROOM, i + 1, bases[i])), 0);
      new;
      ViewWhole(ring[..]);
      assert ring[..] == w.view;
    }

    /** The driver reads a slot; the controller may have run since its last access. */
    method Read(i: nat, ghost k: nat, ghost j: nat) returns (s: RxSlot)
      requires Matches(k) && Separate() && j < SIZE && i == Slot(w.base, j, SIZE)
      modifies `cursor, `w, `arrivals, `budget, ring
      ensures Matches(k) && Separate() && old(w).Leads(w) && budget <= old(budget) && old(arrivals) <= arrivals
      ensures s == w.view[j]
    {
      Controller(k);
      ViewAt(ring[..], w.base, j);
      s := ring[i];
    }

    /** The received buffer at `cur_rx` has been dealt with; the stack gets `packets`. */
    method Settle(ghost fate: Fate, packets: seq<seq<byte>>, failures: nat)
      requires Matches(0) && 0 < w.host && packets == Handled(Oldest(), fate).Delivered()
      requires failures == Handled(Oldest(), fate).Errors()
      modifies `log, `delivered, `errors
      ensures Matches(1) && log == old(log) + [Handled(old(Oldest()), fate)]
    {
      LogSnoc(log, Handled(Oldest(), fate));
      log, delivered := log + [Handled(Oldest(), fate)], delivered + packets;
      errors := errors + failures;
    }

    /** Sets OWN on the slot at `cur_rx` and moves on. */
    method GiveBack()
      requires Matches(1) && Separate() && !w.view[0].report.Faulty()
      modifies `w, `curRx, ring
      ensures Valid() && curRx == Next(old(curRx)) && w.host == old(w.host) - 1
    {
      var entry := curRx % SIZE;
      ghost var r, s := ring[..], ring[entry].(own := true);
      ViewAt(r, w.base, 0);
      ghost var x := Advanced(w, s);
      ViewSet(r, w.base, 0, s);
      ViewStep(r[entry := s], w.base);
      MaskNext(curRx, SIZE);
      SlotStep(w.base, w.host - 1, SIZE);
      ring[entry] := ring[entry].(own := true);
      assert ring[..] == r[entry := s];
      w, curRx := x, Next(curRx);
    }

    /** The end of a turn of the receive loop: the length is restored, then OWN is set. */
    method HandBack()
      requires Matches(1) && Separate() && !w.view[0].report.Faulty()
      modifies `w, `curRx, `cursor, `arrivals, `budget, ring
      ensures Valid() && curRx == Next(old(curRx)) && w.host < SIZE
      ensures budget <= old(budget) && old(arrivals) <= arrivals
    {
      Controller(1);
      Restore();
      Controller(1);
      GiveBack();
    }

    /** Writes the buffer length, which the controller has left alone. */
    method Restore()
      requires Matches(1) && Separate()
      modifies `w, ring
      ensures Matches(1) && Separate() && w.view[0].report == old(w.view[0].report)
    {
      ViewAt(ring[..], w.base, 0);
      var entry := curRx % SIZE;
      Rewrite(ring[entry].(length := -ROOM));
    }

    /** Writes to the slot at `cur_rx`, already in the log. */
    method Rewrite(s: RxSlot)
      requires Matches(1) && w.Distinct() && s.Armed() && !s.own
      requires forall i | 0 < i < SIZE :: w.view[i].skb != s.skb
      modifies `w, ring
      ensures Matches(1) && w.Distinct() && w == Rewritten(old(w), s)
    {
      Put(curRx % SIZE, 0, s, Rewritten(w, s));
    }

    /** Clears the error bits of a faulty packet. */
    method ClearErrors()
      requires Matches(1) && Separate()
      modifies `w, ring
      ensures Matches(1) && Separate() && !w.view[0].report.Faulty()
    {
      ViewAt(ring[..], w.base, 0);
      var s := ring[curRx % SIZE];
      Rewrite(s.(report := s.report.(err := false, fram := false, oflo := false, crc := false, buff := false)));
    }

    /** Puts a new buffer in the place of the one the stack has been given. */
    method Replace(dma: nat, contents: seq<byte>)
      requires Matches(1) && Separate() && dma != 0 && |contents| == ROOM
      modifies `w, `given, `nextSkb, ring
      ensures Matches(1) && Separate() && given == old(given) + {old(w.view[0].skb)}
      ensures w.view[0].report.Faulty() == old(w.view[0].report.Faulty())
    {
      ViewAt(ring[..], w.base, 0);
      var s := ring[curRx % SIZE];
      ghost var w0 := w;
      Rewrite(s.(skb := nextSkb, dma := dma, base := dma, report := s.report.(data := contents)));
      ReplacedPrivate(w0, w.view[0], nextSkb, given);
      given, nextSkb := given + {s.skb}, nextSkb + 1;
    }

    /** `dev_alloc_skb`, which may find no memory. */
    method Allocate() returns (ok: bool)
      modifies `refusals
      ensures refusals == old(refusals) + if ok then 0 else 1
    {
      ok := *;
      if !ok { refusals := refusals + 1; }
    }

    /** A packet longer than the copy break goes to the stack in its own buffer, if there is
        another to take its place. */
    method PassInPlace(s: RxSlot) returns (ok: bool)
      requires Valid() && 0 < w.host && s == w.view[0] && s.report.Acceptable()
      modifies `w, `log, `delivered, `errors, `given, `nextSkb, `refusals, ring
      ensures Separate() && (if ok then Matches(1) && !w.view[0].report.Faulty() else Matches(0))
      ensures ok ==> log == old(log) + [Handled(old(Oldest()), Kept)] && given == old(given) + {s.skb}
      ensures refusals == old(refusals) + if ok then 0 else 1
      ensures !ok ==> log == old(log) && w == old(w)
    {
      ok := Allocate();
      if ok {
        var dma: nat, contents: seq<byte> := *, *;
        if dma == 0 || |contents| != ROOM {
          dma, contents := 1, s.report.data;
        }
        GiveStack(s);
        Replace(dma, contents);
      }
    }

    /** A short packet is copied into a new buffer, if there is one. */
    method PassCopy(s: RxSlot) returns (ok: bool)
      requires Valid() && 0 < w.host && s == w.view[0] && s.report.Acceptable()
      modifies `log, `delivered, `errors, `given, `nextSkb, `refusals
      ensures Separate() && (if ok then Matches(1) else Matches(0))
      ensures ok ==> log == old(log) + [Handled(old(Oldest()), Kept)] && given == old(given) + {old(nextSkb)}
      ensures !ok ==> log == old(log)
      ensures refusals == old(refusals) + if ok then 0 else 1
    {
      ok := Allocate();
      if ok {
        GiveNew();
        GiveStack(s);
      }
    }

    /** The stack gets a new buffer. */
    method GiveNew()
      requires Valid()
      modifies `given, `nextSkb
      ensures Valid() && given == old(given) + {old(nextSkb)}
    {
      given, nextSkb := given + {nextSkb}, nextSkb + 1;
    }

    /** The stack gets the frame at `cur_rx`. */
    method GiveStack(s: RxSlot)
      requires Valid() && 0 < w.host && s == w.view[0] && s.report.Acceptable()
      modifies `log, `delivered, `errors
      ensures Matches(1) && Separate() && log == old(log) + [Handled(old(Oldest()), Kept)]
    {
      ToldPacket(s.report, Oldest());
      Settle(Kept, [s.report.Packet()], 0);
    }

    /** Looks for a slot the controller owns. */
    method FindOwned() returns (i: nat)
      requires Valid() && 0 < w.host
      modifies `cursor, `w, `arrivals, `budget, ring
      ensures Valid() && old(w).Leads(w) && budget <= old(budget) && old(arrivals) <= arrivals
      ensures i <= SIZE && i <= w.host && (i < SIZE ==> w.host == i)
    {
      i := 0;
      var found := false;
      while i < SIZE && !found
        invariant i <= SIZE && Valid() && old(w).Leads(w) && budget <= old(budget) && old(arrivals) <= arrivals
        invariant i <= w.host && (found ==> i < SIZE && w.host == i)
        decreases SIZE - i, !found
      {
        var s := Read(Slot(curRx % SIZE, i, SIZE), 0, i);
        found := s.own;
        if !found { i := i + 1; }
      }
    }

    /** Memory is short: unless the controller has hardly a buffer left, the packet waits. */
    method Squeeze() returns (dropped: bool)
      requires Valid() && 0 < w.host && !w.view[0].report.Faulty()
      modifies `cursor, `w, `arrivals, `budget, `curRx, `log, `delivered, `errors, ring
      ensures Valid() && w.host < SIZE && budget <= old(budget) && old(arrivals) <= arrivals
      ensures dropped ==> curRx == Next(old(curRx)) && log == old(log) + [Handled(old(Oldest()), Squeezed)]
      ensures dropped ==> SIZE - 2 <= w.host
      ensures !dropped ==> curRx == old(curRx) && log == old(log) && 0 < w.host <= SIZE - 2
    {
      var i := FindOwned();
      dropped := i > SIZE - 2;
      if dropped {
        DropPacket();
      }
    }

    /** Gives the buffer at `cur_rx` back with the packet in it. */
    method DropPacket()
      requires Valid() && SIZE - 1 <= w.host && !w.view[0].report.Faulty()
      modifies `cursor, `w, `arrivals, `budget, `curRx, `log, `delivered, `errors, ring
      ensures Valid() && SIZE - 2 <= w.host < SIZE && budget <= old(budget) && old(arrivals) <= arrivals
      ensures curRx == Next(old(curRx)) && log == old(log) + [Handled(old(Oldest()), Squeezed)]
    {
      Settle(Squeezed, [], 0);
      HandOn();
    }

    method HandOn()
      requires Matches(1) && Separate() && !w.view[0].report.Faulty()
      modifies `cursor, `w, `arrivals, `budget, `curRx, ring
      ensures Valid() && old(w.host) - 1 <= w.host < SIZE && budget <= old(budget) && old(arrivals) <= arrivals
      ensures curRx == Next(old(curRx))
    {
      Controller(1);
      GiveBack();
    }

    /** The two ways to pass on an acceptable packet. */
    method TryPass(s: RxSlot) returns (passed: bool)
      requires Valid() && 0 < w.host && s == w.view[0] && s.report.Acceptable()
      modifies `w, `log, `delivered, `errors, `given, `nextSkb, `refusals, ring
      ensures Separate() && (if passed then Matches(1) && !w.view[0].report.Faulty() else Matches(0))
      ensures passed ==> log == old(log) + [Handled(old(Oldest()), Kept)]
      ensures passed ==> given == old(given) + {if s.report.Length() > COPY_BREAK then s.skb else old(nextSkb)}
      ensures !passed ==> log == old(log) && w == old(w)
      ensures refusals == old(refusals) + if passed then 0 else 1
    {
      if s.report.Length() > COPY_BREAK {
        passed := PassInPlace(s);
      } else {
        passed := PassCopy(s);
      }
    }

    /** Passes on an acceptable packet; without memory for it, see `Squeeze`. */
    method Pass(s: RxSlot) returns (passed: bool, dropped: bool)
      requires Valid() && 0 < w.host && s == w.view[0] && s.report.Acceptable()
      modifies `cursor, `w, `arrivals, `budget, `curRx, `log, `delivered, `errors, `given, `nextSkb, `refusals, ring
      ensures Valid() && w.host < SIZE && budget <= old(budget) && old(arrivals) <= arrivals
      ensures passed ==> !dropped && log == old(log) + [Handled(old(Oldest()), Kept)]
      ensures !passed && dropped ==> log == old(log) + [Handled(old(Oldest()), Squeezed)]
      ensures curRx == if passed || dropped then Next(old(curRx)) else old(curRx)
      ensures !passed && !dropped ==> log == old(log)
      ensures refusals == old(refusals) + if passed then 0 else 1
    {
      dropped := false;
      passed := PassOn(s);
      if !passed {
        dropped := Squeeze();
      }
    }

    method PassOn(s: RxSlot) returns (passed: bool)
      requires Valid() && 0 < w.host && s == w.view[0] && s.report.Acceptable()
      modifies `cursor, `w, `arrivals, `budget, `curRx, `log, `delivered, `errors, `given, `nextSkb, `refusals, ring
      ensures Valid() && budget <= old(budget) && old(arrivals) <= arrivals
      ensures refusals == old(refusals) + if passed then 0 else 1
      ensures if passed
              then w.host < SIZE && log == old(log) + [Handled(old(Oldest()), Kept)] && curRx == Next(old(curRx))
              else log == old(log) && w == old(w) && curRx == old(curRx)
    {
      passed := TryPass(s);
      if passed {
        HandBack();
      }
    }

    /** A faulty packet, an impossible one or a runt is counted and its buffer given back. */
    method Reject(s: RxSlot)
      requires Valid() && 0 < w.host && s == w.view[0] && !s.report.Acceptable()
      modifies `cursor, `w, `arrivals, `budget, `curRx, `log, `delivered, `errors, ring
      ensures Valid() && w.host < SIZE && budget <= old(budget) && old(arrivals) <= arrivals
      ensures curRx == Next(old(curRx)) && log == old(log) + [Handled(old(Oldest()), Kept)]
      ensures delivered == old(delivered)
    {
      CountErrors(s);
      if !s.report.Clean() {
        ClearErrors();
      }
      HandBack();
    }

    method CountErrors(s: RxSlot)
      requires Valid() && 0 < w.host && s == w.view[0] && !s.report.Acceptable()
      modifies `log, `delivered, `errors
      ensures Matches(1) && Separate() && log == old(log) + [Handled(old(Oldest()), Kept)]
      ensures delivered == old(delivered)
    {
      var failures := 1;
      if !s.report.Clean() {
        if !s.report.enp { failures := 0; }
      }
      ToldPacket(s.report, Oldest());
      Settle(Kept, [], failures);
    }

    /** One turn of the receive loop. */
    method Turn() returns (handled: bool, more: bool)
      requires Valid()
      modifies `cursor, `w, `arrivals, `budget, `curRx, `log, `delivered, `errors, `given, `nextSkb, `refusals, ring
      ensures Valid() && budget <= old(budget) && old(arrivals) <= arrivals && (handled || !more ==> w.host < SIZE)
      ensures more ==> handled
      ensures curRx == if handled then Next(old(curRx)) else old(curRx)
      ensures old(log) <= log && |log| == |old(log)| + if handled then 1 else 0
      ensures handled ==> !log[|old(log)|].fate.Lost?
      ensures if more then refusals == old(refusals) && log[|old(log)|].fate.Kept?
              else (!handled && w.host == 0 && refusals == old(refusals)) || refusals == old(refusals) + 1
    {
      var s := Read(curRx % SIZE, 0, 0);
      handled, more := false, false;
      if !s.own {
        if s.report.Acceptable() {
          var dropped;
          more, dropped := Pass(s);
          handled := more || dropped;
        } else {
          Reject(s);
          handled, more := true, true;
        }
      }
    }

    /** `pcnet32_rx`. At its last access to the ring the controller has a buffer. It stops when
        nothing received is left, when it has dealt with half a ring, or when memory is short;
        and only then may a packet be dropped. */
    method Rx()
      requires Valid()
      modifies `cursor, `w, `arrivals, `budget, `curRx, `log, `delivered, `errors, `given, `nextSkb, `refusals, ring
      ensures Valid() && w.host < SIZE && budget <= old(budget) && old(arrivals) <= arrivals
      ensures old(log) <= log && |log| <= |old(log)| + SIZE / 2
      ensures Ahead(curRx, old(curRx)) == |log| - |old(log)|
      ensures arrivals == Arrivals(log) || |log| == |old(log)| + SIZE / 2 || refusals == old(refusals) + 1
      ensures old(refusals) <= refusals <= old(refusals) + 1
      ensures forall i | |old(log)| <= i < |log| :: !log[i].fate.Lost?
      ensures refusals == old(refusals) ==> forall i | |old(log)| <= i < |log| :: log[i].fate.Kept?
    {
      var boguscnt := SIZE / 2;
      var more := true;
      while more
        invariant Valid() && budget <= old(budget) && old(arrivals) <= arrivals && (!more ==> w.host < SIZE)
        invariant old(log) <= log && |log| - |old(log)| == Ahead(curRx, old(curRx)) <= SIZE / 2
        invariant more ==> 0 < boguscnt == SIZE / 2 - Ahead(curRx, old(curRx)) && refusals == old(refusals)
        invariant !more ==> w.host == 0 || |log| == |old(log)| + SIZE / 2 || refusals == old(refusals) + 1
        invariant old(refusals) <= refusals <= old(refusals) + 1
        invariant forall i | |old(log)| <= i < |log| :: !log[i].fate.Lost?
        invariant refusals == old(refusals) ==> forall i | |old(log)| <= i < |log| :: log[i].fate.Kept?
        decreases boguscnt, more
      {
        AheadNext(curRx, old(curRx));
        var handled;
        handled, more := Turn();
        if more {
          boguscnt := boguscnt - 1;
          if boguscnt <= 0 { more := false; }
        }
      }
    }

    /** Every slot has a buffer, so initialising the ring again allocates none and cannot fail.
        What was received and not yet handled is lost. */
    method InitRing() returns (ok: bool)
      requires Valid()
      modifies `cursor, `w, `curRx, `log, ring
      ensures ok && Valid() && curRx == 0 && delivered == old(delivered)
      ensures forall i | 0 <= i < SIZE :: ring[i].own && ring[i].report.Blank()
      ensures log == old(log) + Abandoned(arrivals[|old(log)|..]) && Arrivals(log) == arrivals
      ensures forall i | |old(log)| <= i < |log| :: log[i].fate.Lost?
    {
      Lose();
      ok := Rearm();
    }

    /** Gives every slot to the controller, the first one next. */
    method Rearm() returns (ok: bool)
      requires ring.Length == SIZE && w.view == View(ring[..], w.base) && Separate()
      modifies `cursor, `w, `curRx, ring
      ensures ok && curRx == cursor == 0 && Separate()
      ensures forall i | 0 <= i < SIZE :: ring[i].own && ring[i].report.Blank()
      ensures w.base == w.host == 0 && w.view == View(ring[..], 0)
    {
      Unrolled(ring[..], w);
      ok := InitSlots();
      curRx, cursor := 0, 0;
      ViewWhole(ring[..]);
      w := RxWindow(0, ring[..], 0);
    }

    /** What waits in the ring counts as lost. */
    ghost method Lose()
      requires Matches(0)
      modifies `log
      ensures log == old(log) + Abandoned(arrivals[|old(log)|..]) && arrivals == Arrivals(log)
      ensures delivered == Delivered(log) && errors == Errors(log)
    {
      ghost var rest := arrivals[|log|..];
      Remainder(Arrivals(log), arrivals);
      LostReceived(log, rest);
      log := log + Abandoned(rest);
    }

    method InitSlots() returns (ok: bool)
      requires ring.Length == SIZE && forall i | 0 <= i < SIZE :: ring[i].Armed()
      modifies ring
      ensures ok && forall i | 0 <= i < SIZE :: ring[i] == old(ring[i]).Rearmed()
    {
      ok := true;
      for i := 0 to SIZE
        invariant forall j | i <= j < SIZE :: ring[j] == old(ring[j])
        invariant forall j | 0 <= j < i :: ring[j] == old(ring[j]).Rearmed()
      {
        if ring[i].skb == 0 {
          assert false;    // no buffer here: one has to be allocated
        }
        ring[i] := ring[i].(base := ring[i].dma, length := -ROOM);
        ring[i] := ring[i].(own := true, report := ring[i].report.Wiped());
      }
    }
  }

  /** What holds of the slots in order of age holds of them in order of place. */
  lemma {:induction false} Unrolled(r: seq<RxSlot>, w: Window)
    requires |r| == SIZE && w.view == View(r, w.base)
    ensures forall i | 0 <= i < SIZE :: r[i].Armed() && r[i] in w.view
    ensures w.Distinct() ==> forall i, j | 0 <= i < j < SIZE :: r[i].skb != r[j].skb
  {
    forall i | 0 <= i < SIZE
      ensures r[i].Armed() && r[i] == w.view[Age(i, w.base)] && r[i] in w.view
    {
      ViewAt(r, w.base, Age(i, w.base));
    }
  }

  /** How many slots after slot `base` slot `i` comes. */
  function Age(i: nat, base: nat): nat
    requires i < SIZE && base < SIZE
  {
    if base <= i then i - base else i + SIZE - base
  }
}
