/** The transmit ring as a queue: packets the controller has finished with, the packet it is
    sending, packets waiting for it, and free descriptors.
 */
module TxLayout {
  import opened Descriptors
  import opened Rings

  /** What is sent after the last complete packet of descriptors `a` up to `b`. */
  function Tail(v: seq<TxDesc>, a: nat, b: nat): Wire
    requires a <= b <= |v|
    decreases b
  {
    if a == b || v[b - 1].enp then [] else Tail(v, a, b - 1) + v[b - 1].Sends()
  }

  /** The frames that descriptors `a` up to `b` hold; ENP closes a frame. */
  function Frames(v: seq<TxDesc>, a: nat, b: nat): seq<Wire>
    requires a <= b <= |v|
    decreases b
  {
    if a == b then []
    else if v[b - 1].enp then Frames(v, a, b - 1) + [Tail(v, a, b - 1) + v[b - 1].Sends()]
    else Frames(v, a, b - 1)
  }

  /** What descriptors `a` up to `b` send, end to end. */
  function Payload(v: seq<TxDesc>, a: nat, b: nat): Wire
    requires a <= b <= |v|
    decreases b
  {
    if a == b then [] else Payload(v, a, b - 1) + v[b - 1].Sends()
  }

  /** Frames depend on nothing the controller writes. */
  lemma {:induction false} FramesSame(v: seq<TxDesc>, w: seq<TxDesc>, a: nat, b: nat)
    requires a <= b <= |v| && b <= |w| && forall i | a <= i < b :: w[i].Carries(v[i])
    ensures Frames(v, a, b) == Frames(w, a, b) && Tail(v, a, b) == Tail(w, a, b)
    decreases b
  {
    if a < b {
      FramesSame(v, w, a, b - 1);
    }
  }

  /** Nor do they depend on where the descriptors are. */
  lemma {:induction false} FramesShift(v: seq<TxDesc>, w: seq<TxDesc>, a: nat, b: nat)
    requires 0 < a <= b <= |v| && b - 1 <= |w| && forall i | a <= i < b :: w[i - 1] == v[i]
    ensures Frames(v, a, b) == Frames(w, a - 1, b - 1) && Tail(v, a, b) == Tail(w, a - 1, b - 1)
    decreases b
  {
    if a < b {
      FramesShift(v, w, a, b - 1);
    }
  }

  /** A run of descriptors split after a packet. */
  lemma {:induction false} FramesSplit(v: seq<TxDesc>, a: nat, b: nat, c: nat)
    requires a <= b <= c <= |v| && (a < b ==> v[b - 1].enp)
    ensures Frames(v, a, c) == Frames(v, a, b) + Frames(v, b, c)
    ensures Tail(v, a, c) == Tail(v, b, c)
    decreases c
  {
    if b < c {
      FramesSplit(v, a, b, c - 1);
    }
  }

  lemma {:induction false} FramesNone(v: seq<TxDesc>, a: nat, b: nat)
    requires a <= b <= |v| && forall i | a <= i < b :: !v[i].enp
    ensures Frames(v, a, b) == [] && Tail(v, a, b) == Payload(v, a, b)
    decreases b
  {
    if a < b {
      FramesNone(v, a, b - 1);
    }
  }

  /** One packet holds one frame. */
  lemma {:induction false} FramesOne(v: seq<TxDesc>, a: nat, b: nat)
    requires a < b <= |v| && v[b - 1].enp && forall i | a <= i < b - 1 :: !v[i].enp
    ensures Frames(v, a, b) == [Payload(v, a, b)]
  {
    FramesNone(v, a, b - 1);
  }

  /** A descriptor starts a packet exactly when its predecessor ended one. */
  ghost predicate Joined(v: seq<TxDesc>, i: nat)
    requires 0 < i < |v|
  {
    v[i].stp <==> v[i - 1].enp
  }

  /** The ring from the oldest descriptor in use. The first `skip` belong to a packet being
      cleared, packets up to `done` are finished, descriptors up to `out` are the host's and
      those up to `live` are published. The controller can get no further than `live`. */
  ghost predicate Layout(v: seq<TxDesc>, skip: nat, done: nat, out: nat, live: nat) {
    && skip <= done <= out <= live <= |v|
    && (forall i | 0 <= i < out :: !v[i].own)
    && (forall i | out <= i < live :: v[i].own && !v[i].err)
    && (forall i | done <= i < out :: !v[i].enp && !v[i].err)
    && (live < |v| ==> !v[live].own)
    && (0 < skip ==> v[skip - 1].enp)
    && (0 < done ==> v[done - 1].enp)
    && (0 < live ==> v[live - 1].enp)
    && (skip < live ==> v[skip].stp)
    && (forall i | skip < i < live :: Joined(v, i))
  }

  /** What became of an accepted frame: taken back by the driver, or dropped by a reset after or
      before the controller was finished with it. */
  datatype Fate = Reclaimed | Dropped(sent: bool)

  datatype Fated = Fated(frame: Wire, fate: Fate)

  function FramesOf(log: seq<Fated>): (s: seq<Wire>)
    ensures |s| == |log|
  {
    seq(|log|, i requires 0 <= i < |log| => log[i].frame)
  }

  /** The frames the controller was finished with. */
  function SentOf(log: seq<Fated>): seq<Wire> {
    if log == [] then []
    else
      var n := |log| - 1;
      SentOf(log[..n]) + if log[n].fate == Dropped(false) then [] else [log[n].frame]
  }

  lemma {:induction false} FatedSnoc(log: seq<Fated>, x: Fated)
    ensures FramesOf(log + [x]) == FramesOf(log) + [x.frame]
    ensures SentOf(log + [x]) == SentOf(log) + if x.fate == Dropped(false) then [] else [x.frame]
  {
    assert (log + [x])[..|log|] == log;
  }

  /** Since `log` every frame has been taken back. */
  ghost predicate ReclaimedOn(log: seq<Fated>, to: seq<Fated>) {
    log <= to && forall i | |log| <= i < |to| :: to[i].fate.Reclaimed?
  }

  /** Since `log` some frame has been taken back. */
  ghost predicate TookBack(log: seq<Fated>, to: seq<Fated>) {
    log <= to && exists i | |log| <= i < |to| :: to[i].fate.Reclaimed?
  }

  lemma TookBackOn(a: seq<Fated>, b: seq<Fated>, c: seq<Fated>)
    requires a <= b <= c && (TookBack(a, b) || TookBack(b, c))
    ensures TookBack(a, c)
  {
    if TookBack(a, b) {
      var i :| |a| <= i < |b| && b[i].fate.Reclaimed?;
      assert c[i].fate.Reclaimed?;
    }
  }

  lemma TookBackEither(a: seq<Fated>, b: seq<Fated>, c: seq<Fated>, d: seq<Fated>, first: bool, last: bool)
    requires a <= b <= c <= d && (first ==> TookBack(a, b)) && (last ==> TookBack(c, d))
    ensures first || last ==> TookBack(a, d)
  {
    if first { TookBackOn(a, b, d); }
    if last { TookBackOn(a, c, d); }
  }

  lemma TookBackSome(log: seq<Fated>, to: seq<Fated>)
    requires ReclaimedOn(log, to)
    ensures |log| < |to| ==> TookBack(log, to)
  {
    assert |log| < |to| ==> to[|log|].fate.Reclaimed?;
  }

  /** `accepted` is every frame ever published and `finished` every frame the controller was
      ever finished with, in order; `log` tells what became of the accepted frames, up to those
      still in the ring. `underruns` is how often the controller has ever run dry, `dry` whether
      it has since the ring was last initialised; only the controller adds to the one and sets
      the other. */
  datatype TxState = TxState(base: nat, view: seq<TxDesc>, skip: nat, done: nat, out: nat, live: nat,
                             accepted: seq<Wire>, finished: seq<Wire>, log: seq<Fated>,
                             dry: bool, underruns: nat)
  {
    ghost predicate Sound() {
      && base < |view|
      && Layout(view, skip, done, out, live)
      && accepted == FramesOf(log) + Frames(view, skip, live)
      && finished == SentOf(log) + Frames(view, skip, done)
      && Reported()
    }

    /** An underrun that a descriptor reports has been entered. */
    ghost predicate Reported() {
      done <= |view| && forall i | 0 <= i < done :: view[i].Underrun() ==> dry
    }

    /** If the controller has run dry meanwhile, it has been counted. */
    ghost predicate Counts(to: TxState) {
      underruns <= to.underruns && (to.dry ==> dry || underruns < to.underruns)
    }

    /** A finished packet reports an underrun; the transmitter has turned itself off. */
    ghost predicate Underrun() {
      done <= |view| && exists i :: 0 <= i < done && view[i].Underrun()
    }

    /** A finished packet waits to be reclaimed. */
    predicate HasDone() { skip < done }

    /** No packet takes more than `m` descriptors: with one each, every descriptor ends its
        packet; with two, every descriptor starts or ends it. */
    ghost predicate Bounded(m: nat) {
      && live <= |view|
      && (m <= 2 ==> forall i | skip <= i < live :: view[i].enp || (m == 2 && view[i].stp))
    }

    /** The packet the controller is working on ends at descriptor `end`. */
    ghost predicate EndsAt(end: nat) {
      out <= end < live <= |view| && view[end].enp && forall i | out <= i < end :: !view[i].enp
    }

    /** The first `k` descriptors are the host's and none of them ends a search. */
    ghost predicate Searched(k: nat) {
      k <= out <= |view| && forall i | 0 <= i < k :: !view[i].enp && !view[i].err
    }

    /** No packet ends within the first `k` descriptors. */
    ghost predicate Within(k: nat) {
      k <= |view| && forall i | 0 <= i < k :: !view[i].enp
    }

    /** Nothing beyond the published descriptors has OWN set. */
    ghost predicate Idle() {
      forall i | live <= i < |view| :: !view[i].own
    }

    /** The free descriptors from `live` on hold `chain` as one packet, all but the first
        already marked for the controller; that one is about to become `d`. */
    ghost predicate Holds(chain: seq<seq<byte>>, pad: nat, d: TxDesc) {
      && chain != [] && live + |chain| <= |view|
      && Describes(d, chain[0], true, true, |chain| == 1, pad)
      && (forall k | live < k < live + |chain| ::
            Describes(view[k], chain[k - live], true, false, k + 1 == live + |chain|, pad))
      && (forall k | live + |chain| <= k < |view| :: !view[k].own)
    }

    /** From descriptor `from` on the controller owns `chain` as one packet, from STP to ENP,
        every descriptor with the length of its buffer, the last one with the padding. */
    ghost predicate Whole(from: nat, chain: seq<seq<byte>>, pad: nat) {
      && from + |chain| <= |view|
      && forall i | from <= i < from + |chain| ::
           Describes(view[i], chain[i - from], true, i == from, i + 1 == from + |chain|, pad)
    }

    /** The first `n` descriptors from `live` on hold `chain`, those after the `p`-th already
        marked for the controller, the last one carrying ENP and the padding of a short
        packet. */
    ghost predicate Prepared(chain: seq<seq<byte>>, n: nat, p: int, last: int, pad: nat) {
      && live + |chain| <= |view| && n <= |chain|
      && (forall k | live <= k < live + n ::
            Describes(view[k], chain[k - live], p < k - live, false, k - live == last, pad))
      && (forall k | live + n <= k < |view| :: !view[k].own)
    }

    /** Only the `k`-th descriptor differs, and is now `d`. */
    ghost predicate Sets(k: nat, d: TxDesc, to: TxState) {
      && to.live == live && |to.view| == |view| && live <= k < |view| && to.view[k] == d
      && (forall j | live <= j < |view| && j != k :: to.view[j] == view[j])
    }

    /** The driver has only prepared free descriptors meanwhile. */
    ghost predicate Aside(to: TxState) {
      && to.base == base && to.skip == skip && to.live == live && |to.view| == |view|
      && to.accepted == accepted && to.log == log && finished <= to.finished
      && out <= to.out && done <= to.done && Counts(to)
    }

    /** Frames have only been finished and taken back. */
    ghost predicate TakenTo(to: TxState) {
      to.accepted == accepted && finished <= to.finished && ReclaimedOn(log, to.log) && Counts(to)
    }

    /** The part of `Leads` that does not speak of single descriptors. */
    ghost predicate Near(to: TxState) {
      && Aside(to)
      && (Idle() ==> to.Idle())
    }

    /** What controller steps can turn this state into. */
    ghost predicate Leads(to: TxState) {
      && Near(to)
      && (forall i | 0 <= i < |view| && (i < out || live <= i) :: to.view[i] == view[i])
      && (forall i | 0 <= i < |view| :: to.view[i].Carries(view[i]))
    }
  }

  const FREE := TxDesc(false, false, false, false, false, false, NO_EXT, 0, [])

  function Empty(view: seq<TxDesc>, log: seq<Fated>, underruns: nat): (q: TxState)
    requires view != [] && forall d | d in view :: !d.own
    ensures q.Sound() && forall m: nat :: q.Bounded(m)
  {
    TxState(0, view, 0, 0, 0, 0, FramesOf(log), SentOf(log), log, false, underruns)
  }

  type TxQueue = q: TxState | q.Sound() ghost witness Empty([FREE], [], 0)

  lemma {:induction false} NearOn(a: TxState, b: TxState, c: TxState)
    requires a.Near(b) && b.Near(c)
    ensures a.Near(c)
  {
  }

  lemma {:induction false} TakenToOn(a: TxState, b: TxState, c: TxState)
    requires a.TakenTo(b) && b.TakenTo(c)
    ensures a.TakenTo(c)
  {
  }

  lemma {:induction false} NearTaken(a: TxState, b: TxState)
    requires a.Near(b)
    ensures a.TakenTo(b) && b.live == a.live
  {
  }

  lemma {:induction false} AsideOn(a: TxState, b: TxState, c: TxState)
    requires a.Aside(b) && b.Aside(c)
    ensures a.Aside(c)
  {
  }

  lemma {:induction false} LeadsLong(a: TxState, b: TxState, c: TxState)
    requires a.Leads(b) && b.Leads(c)
    ensures a.Leads(c)
  {
    NearOn(a, b, c);
    forall i | 0 <= i < |a.view|
      ensures c.view[i].Carries(a.view[i])
    {
      assert b.view[i].Carries(a.view[i]) && c.view[i].Carries(b.view[i]);
    }
  }

  lemma {:induction false} LeadsOn(a: TxState, b: TxState, c: TxState, k: nat)
    requires a.Leads(b) && b.Leads(c) && c.out <= |c.view|
    ensures a.Leads(c)
    ensures b.Searched(k) ==> c.Searched(k)
    ensures b.Within(k) ==> c.Within(k)
  {
    LeadsLong(a, b, c);
  }

  /** One descriptor in the middle of a packet no longer has OWN. */
  ghost predicate Advances(q: TxState, r: TxState) {
    && q.out < q.live <= |q.view| && !q.view[q.out].enp
    && r == q.(view := q.view[q.out := q.view[q.out].(own := false)], out := q.out + 1)
  }

  lemma ReleaseSound(q: TxQueue, r: TxState)
    requires Advances(q, r)
    ensures r.Sound()
  {
    FramesSame(q.view, r.view, q.skip, q.done);
    RelinquishSound(q, r);
  }

  lemma ReleaseLeads(q: TxQueue, r: TxState)
    requires Advances(q, r)
    ensures q.Leads(r) && forall m: nat | q.Bounded(m) :: r.Bounded(m)
  {
  }

  /** The controller gives up one descriptor in the middle of a packet. */
  function Release(q: TxQueue): (r: TxQueue)
    requires q.out < q.live && !q.view[q.out].enp
    ensures q.Leads(r) && r.out == q.out + 1 && forall m: nat | q.Bounded(m) :: r.Bounded(m)
  {
    var r := q.(view := q.view[q.out := q.view[q.out].(own := false)], out := q.out + 1);
    ReleaseSound(q, r);
    ReleaseLeads(q, r);
    r
  }

  /** The controller finishes a packet at descriptor `out`, giving up the rest of it, through
      `end`, in the same step. */
  function Finish(q: TxQueue, end: nat, d: TxDesc): (r: TxQueue)
    requires q.EndsAt(end)
    requires d.Carries(q.view[q.out]) && !d.own
    ensures r.HasDone() && r.done == r.out == end + 1
    ensures r.finished == q.finished + [Payload(q.view, q.done, end + 1)]
    ensures r.dry == (q.dry || d.Underrun()) && r.underruns == q.underruns + if d.Underrun() then 1 else 0
  {
    var r := q.(view := GivenUp(q.view, q.out, end, d), out := end + 1, done := end + 1,
                finished := q.finished + [Payload(q.view, q.done, end + 1)],
                dry := q.dry || d.Underrun(), underruns := q.underruns + if d.Underrun() then 1 else 0);
    FinishSound(q, end, d, r);
    r
  }

  /** A packet whose last descriptor the controller is at ends there. */
  lemma FirstEnds(q: TxState, end: nat)
    requires q.EndsAt(end) && q.view[q.out].enp
    ensures end == q.out
  {
  }

  /** Finishing or failing a packet gives up the whole of it, reports in the descriptor the
      controller was working on, and adds one finished frame. */
  lemma {:induction false} FinishGivesUp(q: TxQueue, end: nat, d: TxDesc, i: nat)
    requires q.EndsAt(end) && d.Carries(q.view[q.out]) && !d.own && i < |q.view|
    ensures var r := Finish(q, end, d);
            && r.view[q.out] == d && (q.out <= i <= end ==> !r.view[i].own)
            && (i < q.out || end < i ==> r.view[i] == q.view[i])
            && (q.out < i <= end ==> r.view[i] == q.view[i].(own := false))
            && |r.finished| == |q.finished| + 1 && (r.underruns > q.underruns <==> d.Underrun())
  {
  }

  lemma {:induction false} FinishLeads(q: TxQueue, end: nat, d: TxDesc)
    requires q.EndsAt(end) && d.Carries(q.view[q.out]) && !d.own
    ensures q.Leads(Finish(q, end, d))
  {
    GivenUpLeads(q, Finish(q, end, d), end, d);
  }

  lemma {:induction false} GivenUpLeads(q: TxState, r: TxState, end: nat, d: TxDesc)
    requires q.done <= q.out <= end < q.live <= |q.view| && d.Carries(q.view[q.out])
    requires r == q.(view := GivenUp(q.view, q.out, end, d), out := end + 1, done := end + 1,
                     finished := r.finished, dry := r.dry, underruns := r.underruns)
    requires q.finished <= r.finished && q.Counts(r)
    ensures q.Leads(r)
  {
  }

  lemma {:induction false} FinishBounded(q: TxQueue, end: nat, d: TxDesc, most: nat)
    requires q.EndsAt(end) && d.Carries(q.view[q.out]) && !d.own && q.Bounded(most)
    ensures Finish(q, end, d).Bounded(most)
  {
    var r := Finish(q, end, d);
    assert forall i | 0 <= i < |q.view| :: r.view[i].Carries(q.view[i]);
  }

  lemma {:induction false} FinishSound(q: TxQueue, end: nat, d: TxDesc, r: TxState)
    requires q.out <= end < q.live && q.view[end].enp && forall i | q.out <= i < end :: !q.view[i].enp
    requires d.Carries(q.view[q.out]) && !d.own
    requires r == q.(view := GivenUp(q.view, q.out, end, d), out := end + 1, done := end + 1,
                     finished := q.finished + [Payload(q.view, q.done, end + 1)],
                     dry := q.dry || d.Underrun(), underruns := q.underruns + if d.Underrun() then 1 else 0)
    ensures r.Sound()
  {
    GivenUpRelinquished(q.view, q.done, q.out, end, d, q.live);
    FinishFrames(q, end, r.view);
    RelinquishSound(q, r);
  }

  lemma {:induction false} FinishFrames(q: TxQueue, end: nat, w: seq<TxDesc>)
    requires q.out <= end < q.live && q.view[end].enp && forall i | q.out <= i < end :: !q.view[i].enp
    requires |w| == |q.view| && forall i | 0 <= i < |w| :: w[i].Carries(q.view[i])
    ensures q.finished + [Payload(q.view, q.done, end + 1)] == SentOf(q.log) + Frames(w, q.skip, end + 1)
  {
    OneMoreFrame(q, end);
    FramesSame(q.view, w, q.skip, end + 1);
  }

  lemma {:induction false} OneMoreFrame(q: TxQueue, end: nat)
    requires q.out <= end < q.live && q.view[end].enp && forall i | q.out <= i < end :: !q.view[i].enp
    ensures q.finished + [Payload(q.view, q.done, end + 1)] == SentOf(q.log) + Frames(q.view, q.skip, end + 1)
  {
    FinishedOne(q.view, q.skip, q.done, end + 1);
    Prefixes(SentOf(q.log), Frames(q.view, q.skip, q.done), [Payload(q.view, q.done, end + 1)]);
  }

  lemma {:induction false} GivenUpRelinquished(v: seq<TxDesc>, done: nat, out: nat, end: nat, d: TxDesc, live: nat)
    requires done <= out <= end < live <= |v| && v[end].enp
    requires d.Carries(v[out]) && !d.own
    ensures Relinquished(v, GivenUp(v, out, end, d), done, out, end + 1, end + 1, live)
  {
  }

  function GivenUp(v: seq<TxDesc>, from: nat, end: nat, d: TxDesc): (w: seq<TxDesc>)
    requires from <= end < |v|
    ensures |w| == |v|
  {
    seq(|v|, i requires 0 <= i < |v| =>
      if i == from then d else if from < i <= end then v[i].(own := false) else v[i])
  }

  lemma {:induction false} GivenUpMore(v: seq<TxDesc>, from: nat, end: nat, d: TxDesc)
    requires from <= end && end + 1 < |v|
    ensures GivenUp(v, from, end, d)[end + 1 := v[end + 1].(own := false)] == GivenUp(v, from, end + 1, d)
    ensures GivenUp(v, from, end, d)[end + 1] == v[end + 1]
  {
  }

  lemma {:induction false} RelinquishSound(q: TxQueue, r: TxState)
    requires r.base == q.base && r.skip == q.skip && r.live == q.live && |r.view| == |q.view|
    requires r.accepted == q.accepted && r.log == q.log
    requires Relinquished(q.view, r.view, q.done, q.out, r.done, r.out, q.live)
    requires r.finished == SentOf(r.log) + Frames(r.view, r.skip, r.done) && r.Reported()
    ensures r.Sound()
  {
    RelinquishLayout(q.view, r.view, q.skip, q.done, q.out, r.done, r.out, q.live);
    FramesSame(q.view, r.view, q.skip, q.live);
  }

  /** The controller has given up descriptors `out..out2`, either one inside a packet or all
      up to the end of one. */
  ghost predicate Relinquished(v: seq<TxDesc>, w: seq<TxDesc>, done: nat, out: nat, done2: nat,
                               out2: nat, live: nat) {
    && |w| == |v| && done <= done2 <= out2 <= live <= |v| && out < out2
    && (forall i | 0 <= i < |v| && (i < out || out2 <= i) :: w[i] == v[i])
    && (forall i | 0 <= i < |v| :: w[i].Carries(v[i]))
    && (forall i | out <= i < out2 :: !w[i].own)
    && (|| (done2 == done && out2 == out + 1 && !w[out].enp && !w[out].err)
        || (done2 == out2 && w[out2 - 1].enp))
  }

  lemma {:induction false} RelinquishLayout(v: seq<TxDesc>, w: seq<TxDesc>, skip: nat, done: nat, out: nat, done2: nat,
                         out2: nat, live: nat)
    requires Layout(v, skip, done, out, live) && Relinquished(v, w, done, out, done2, out2, live)
    ensures Layout(w, skip, done2, out2, live)
  {
    forall i | skip < i < live
      ensures Joined(w, i)
    {
      assert Joined(v, i) && w[i].Carries(v[i]) && w[i - 1].Carries(v[i - 1]);
    }
    if 0 < skip { assert w[skip - 1].Carries(v[skip - 1]); }
    if 0 < done { assert w[done - 1].Carries(v[done - 1]); }
    if 0 < live { assert w[live - 1].Carries(v[live - 1]); }
    if skip < live { assert w[skip].Carries(v[skip]); }
  }

  /** Finishing a packet finishes one more frame. */
  lemma {:induction false} FinishedOne(w: seq<TxDesc>, skip: nat, done: nat, done2: nat)
    requires skip <= done < done2 <= |w|
    requires skip < done ==> w[done - 1].enp
    requires w[done2 - 1].enp && forall i | done <= i < done2 - 1 :: !w[i].enp
    ensures Frames(w, skip, done2) == Frames(w, skip, done) + [Payload(w, done, done2)]
  {
    FramesSplit(w, skip, done, done2);
    FramesOne(w, done, done2);
  }

  /** The driver prepares a free descriptor; while the one at `live` lacks OWN the controller
      sees none of this. */
  function Stage(q: TxQueue, k: nat, d: TxDesc): (r: TxQueue)
    requires q.live <= k < |q.view| && (k == q.live ==> !d.own)
    ensures forall m: nat | q.Bounded(m) :: r.Bounded(m)
  {
    var r := q.(view := q.view[k := d]);
    StageLayout(q.view, q.skip, q.done, q.out, q.live, k, d);
    FramesSame(q.view, r.view, q.skip, q.live);
    FramesSame(q.view, r.view, q.skip, q.done);
    r
  }

  lemma {:induction false} StageLayout(v: seq<TxDesc>, skip: nat, done: nat, out: nat, live: nat,
                                       k: nat, d: TxDesc)
    requires Layout(v, skip, done, out, live) && live <= k < |v| && (k == live ==> !d.own)
    ensures Layout(v[k := d], skip, done, out, live)
  {
    var w := v[k := d];
    forall i | skip < i < live
      ensures Joined(w, i)
    {
      assert Joined(v, i);
    }
  }

  /** What a descriptor is filled with for the buffer `m` of a chain. */
  function ChainDesc(m: seq<byte>): TxDesc {
    TxDesc(false, false, false, false, false, false, NO_EXT, -|m|, m)
  }

  /** `d` is filled for `m`; a descriptor with ENP has the padding. */
  predicate Describes(d: TxDesc, m: seq<byte>, own: bool, stp: bool, enp: bool, pad: nat) {
    && d.own == own && !d.err && !d.more && !d.one && d.stp == stp && d.enp == enp
    && d.ext == NO_EXT && d.length == -|m| - (if enp then pad else 0) && d.data == m
  }

  /** Which descriptors of a filled chain have OWN, ENP and the padding differs at the `k`-th
      only. */
  ghost predicate Alike(chain: seq<seq<byte>>, k: nat, p: int, last: int, pad: nat, p2: int, last2: int, pad2: nat) {
    forall j {:trigger chain[j]} | 0 <= j < |chain| && j != k ::
      (p2 < j) == (p < j) && (j == last2) == (j == last) && (j == last ==> pad2 == pad)
  }

  /** Completing a filled chain, or setting OWN on its `p`-th descriptor. */
  lemma {:induction false} PreparedSets(q: TxState, r: TxState, chain: seq<seq<byte>>, p: int, last: int, pad: nat,
                                        k: nat, d: TxDesc, p2: int, last2: int, pad2: nat)
    requires q.Prepared(chain, |chain|, p, last, pad) && k < |chain|
    requires q.Sets(q.live + k, d, r) && Describes(d, chain[k], p2 < k, false, k == last2, pad2)
    requires Alike(chain, k, p, last, pad, p2, last2, pad2)
    ensures r.Prepared(chain, |chain|, p2, last2, pad2)
  {
    forall i | r.live <= i < r.live + |chain|
      ensures Describes(r.view[i], chain[i - r.live], p2 < i - r.live, false, i - r.live == last2, pad2)
    {
      var j := i - r.live;
      assert j == k || r.view[i] == q.view[i];
    }
    assert forall i | r.live + |chain| <= i < |r.view| :: r.view[i] == q.view[i];
  }

  /** One more descriptor of a chain is filled. */
  lemma {:induction false} PreparedMore(q: TxState, r: TxState, chain: seq<seq<byte>>, i: nat)
    requires i < |chain| && q.Prepared(chain, i, |chain|, -1, 0)
    requires q.Sets(q.live + i, ChainDesc(chain[i]), r)
    ensures r.Prepared(chain, i + 1, |chain|, -1, 0)
  {
    assert forall k | r.live <= k < |r.view| && k != r.live + i :: r.view[k] == q.view[k];
  }

  /** A chain whose descriptors are all but the first the controller's is a packet. */
  lemma {:induction false} PreparedHolds(q: TxState, chain: seq<seq<byte>>, pad: nat)
    requires chain != [] && q.Prepared(chain, |chain|, 0, |chain| - 1, pad)
    ensures q.Holds(chain, pad, q.view[q.live].(own := true, stp := true))
  {
  }

  lemma {:induction false} HoldsOn(a: TxState, b: TxState, chain: seq<seq<byte>>, pad: nat, d: TxDesc)
    requires a.Leads(b) && a.Holds(chain, pad, d)
    ensures b.Holds(chain, pad, d)
  {
    assert forall k | a.live <= k < |a.view| :: b.view[k] == a.view[k];
  }

  /** Descriptors `from..to` are a packet, its first descriptor being `d`. */
  ghost predicate IsPacket(v: seq<TxDesc>, from: nat, to: nat, d: TxDesc) {
    && from < to <= |v|
    && d.own && d.stp && !d.err && (d.enp <==> from + 1 == to)
    && (forall i | from < i < to :: v[i].own && !v[i].stp && !v[i].err && (v[i].enp <==> i + 1 == to))
    && (to < |v| ==> !v[to].own)
  }

  lemma {:induction false} PublishBounded(q: TxState, m: nat, d: TxDesc, r: TxState, most: nat)
    requires IsPacket(q.view, q.live, q.live + m, d) && q.Bounded(most) && 0 < m <= most
    requires r.view == q.view[q.live := d] && r.live == q.live + m && r.skip == q.skip <= q.live
    ensures r.Bounded(most)
  {
  }

  lemma {:induction false} HeldPayload(q: TxState, chain: seq<seq<byte>>, pad: nat, d: TxDesc)
    requires q.Holds(chain, pad, d)
    ensures Payload(q.view[q.live := d], q.live, q.live + |chain|) == Plain(Flatten(chain)) + Strays(pad)
  {
    WholePayload(q.view[q.live := d], q.live, chain, pad);
  }

  lemma {:induction false} HeldPacket(q: TxState, chain: seq<seq<byte>>, pad: nat, d: TxDesc)
    requires q.Holds(chain, pad, d)
    ensures IsPacket(q.view, q.live, q.live + |chain|, d)
  {
  }

  lemma {:induction false} HeldIdle(q: TxState, chain: seq<seq<byte>>, pad: nat, d: TxDesc, r: TxState)
    requires q.Holds(chain, pad, d) && r.view == q.view[q.live := d] && r.live == q.live + |chain|
    ensures r.Idle()
  {
  }

  lemma {:induction false} PublishLayout(v: seq<TxDesc>, skip: nat, done: nat, out: nat, live: nat,
                                         m: nat, d: TxDesc)
    requires Layout(v, skip, done, out, live) && IsPacket(v, live, live + m, d)
    ensures Layout(v[live := d], skip, done, out, live + m)
  {
    var w := v[live := d];
    forall i | skip < i < live + m
      ensures Joined(w, i)
    {
      assert i < live ==> Joined(v, i);
    }
  }

  lemma {:induction false} PublishFrames(q: TxQueue, m: nat, d: TxDesc, w: seq<TxDesc>)
    requires IsPacket(q.view, q.live, q.live + m, d) && w == q.view[q.live := d]
    ensures q.accepted + [Payload(w, q.live, q.live + m)] == FramesOf(q.log) + Frames(w, q.skip, q.live + m)
    ensures q.finished == SentOf(q.log) + Frames(w, q.skip, q.done)
  {
    FramesBefore(q.view, w, q.skip, q.done, q.live);
    OneMorePending(q.view, q.skip, q.live, m, d, w);
    Prefixes(FramesOf(q.log), Frames(q.view, q.skip, q.live), [Payload(w, q.live, q.live + m)]);
  }

  lemma {:induction false} OneMorePending(v: seq<TxDesc>, skip: nat, live: nat, m: nat, d: TxDesc, w: seq<TxDesc>)
    requires skip <= live < |v| && (0 < live ==> v[live - 1].enp)
    requires IsPacket(v, live, live + m, d) && w == v[live := d]
    ensures Frames(w, skip, live + m) == Frames(v, skip, live) + [Payload(w, live, live + m)]
  {
    FramesBefore(v, w, skip, live, live);
    FinishedOne(w, skip, live, live + m);
  }

  lemma {:induction false} FramesBefore(v: seq<TxDesc>, w: seq<TxDesc>, a: nat, b: nat, k: nat)
    requires a <= b <= k < |v| && |w| == |v| && forall i | 0 <= i < k :: w[i] == v[i]
    ensures Frames(v, a, b) == Frames(w, a, b)
  {
    FramesSame(v, w, a, b);
  }

  /** The write that gives the first descriptor of a held chain to the controller publishes the
      whole packet. */
  lemma {:induction false} PublishedWhole(q: TxState, chain: seq<seq<byte>>, pad: nat, d: TxDesc, r: TxState)
    requires q.Holds(chain, pad, d) && r.view == q.view[q.live := d]
    ensures r.Whole(q.live, chain, pad)
  {
  }

  lemma {:induction false} PublishSound(q: TxQueue, m: nat, d: TxDesc, r: TxState)
    requires IsPacket(q.view, q.live, q.live + m, d)
    requires r == q.(view := q.view[q.live := d], live := q.live + m,
                     accepted := q.accepted + [Payload(q.view[q.live := d], q.live, q.live + m)])
    ensures r.Sound()
  {
    PublishLayout(q.view, q.skip, q.done, q.out, q.live, m, d);
    PublishFrames(q, m, d, r.view);
    Balances(r);
  }

  /** What it takes for the books of a ring to balance. */
  lemma {:induction false} Balances(r: TxState)
    requires r.base < |r.view| && Layout(r.view, r.skip, r.done, r.out, r.live)
    requires r.accepted == FramesOf(r.log) + Frames(r.view, r.skip, r.live)
    requires r.finished == SentOf(r.log) + Frames(r.view, r.skip, r.done) && r.Reported()
    ensures r.Sound()
  {
  }

  lemma {:induction false} HeldSound(q: TxQueue, chain: seq<seq<byte>>, pad: nat, d: TxDesc, r: TxState)
    requires q.Holds(chain, pad, d)
    requires r == q.(view := q.view[q.live := d], live := q.live + |chain|,
                     accepted := q.accepted + [Plain(Flatten(chain)) + Strays(pad)])
    ensures r.Sound()
  {
    HeldPayload(q, chain, pad, d);
    HeldPacket(q, chain, pad, d);
    PublishSound(q, |chain|, d, r);
  }

  /** One more frame is accepted. */
  lemma {:induction false} PublishHeld(q: TxQueue, chain: seq<seq<byte>>, pad: nat, d: TxDesc, most: nat)
      returns (r: TxQueue)
    requires q.Holds(chain, pad, d) && q.Bounded(most) && |chain| <= most
    ensures r == q.(view := q.view[q.live := d], live := q.live + |chain|,
                    accepted := q.accepted + [Plain(Flatten(chain)) + Strays(pad)])
    ensures r.Idle() && r.Bounded(most) && r.Whole(q.live, chain, pad)
  {
    var p := q.(view := q.view[q.live := d], live := q.live + |chain|,
                accepted := q.accepted + [Plain(Flatten(chain)) + Strays(pad)]);
    HeldSound(q, chain, pad, d, p);
    HeldIdle(q, chain, pad, d, p);
    PublishedWhole(q, chain, pad, d, p);
    HeldPacket(q, chain, pad, d);
    PublishBounded(q, |chain|, d, p, most);
    r := p;
  }

  /** The driver takes back the first finished packet, `view[..e + 1]`. */
  function Take(q: TxQueue, e: nat): (r: TxQueue)
    requires q.skip == 0 && e < q.done && q.view[e].enp && forall i | 0 <= i < e :: !q.view[i].enp
  {
    TakeSound(q, e);
    Taken(q, e)
  }

  function Taken(q: TxQueue, e: nat): (r: TxState)
    requires e < q.done
  {
    q.(skip := e + 1, log := q.log + [Fated(Payload(q.view, 0, e + 1), Reclaimed)])
  }

  lemma {:induction false} TakeSound(q: TxQueue, e: nat)
    requires q.skip == 0 && e < q.done && q.view[e].enp && forall i | 0 <= i < e :: !q.view[i].enp
    ensures Taken(q, e).Sound()
  {
    TakeLayout(q.view, q.done, q.out, q.live, e);
    TakeBooks(q, e, Fated(Payload(q.view, 0, e + 1), Reclaimed));
  }

  lemma {:induction false} TakeKeeps(q: TxState, e: nat, r: TxState)
    requires q.skip <= e && r.view == q.view && r.live == q.live && r.skip == e + 1
    ensures forall m: nat | q.Bounded(m) :: r.Bounded(m)
  {
  }

  lemma {:induction false} TakeBooks(q: TxQueue, e: nat, x: Fated)
    requires q.skip == 0 && e < q.done && q.view[e].enp && forall i | 0 <= i < e :: !q.view[i].enp
    requires x == Fated(Payload(q.view, 0, e + 1), Reclaimed)
    ensures q.accepted == FramesOf(q.log + [x]) + Frames(q.view, e + 1, q.live)
    ensures q.finished == SentOf(q.log + [x]) + Frames(q.view, e + 1, q.done)
  {
    FatedSnoc(q.log, x);
    TakeFrames(q.view, q.live, e);
    TakeFrames(q.view, q.done, e);
    Prefixes(FramesOf(q.log), [x.frame], Frames(q.view, e + 1, q.live));
    Prefixes(SentOf(q.log), [x.frame], Frames(q.view, e + 1, q.done));
  }

  lemma {:induction false} TakeLayout(v: seq<TxDesc>, done: nat, out: nat, live: nat, e: nat)
    requires Layout(v, 0, done, out, live) && e < done && v[e].enp
    ensures Layout(v, e + 1, done, out, live)
  {
    assert e + 1 < live ==> Joined(v, e + 1);
  }

  lemma {:induction false} TakeFrames(v: seq<TxDesc>, b: nat, e: nat)
    requires e < b <= |v| && v[e].enp && forall i | 0 <= i < e :: !v[i].enp
    ensures Frames(v, 0, b) == [Payload(v, 0, e + 1)] + Frames(v, e + 1, b)
  {
    FramesOne(v, 0, e + 1);
    FramesSplit(v, 0, e + 1, b);
  }

  /** The driver clears the oldest descriptor of the packet it took. */
  function Clear(q: TxQueue): (r: TxQueue)
    requires 0 < q.skip
  {
    ClearSound(q);
    Cleared(q)
  }

  function Cleared(q: TxQueue): (r: TxState)
    requires 0 < q.skip
  {
    TxState(Inc(q.base, |q.view|), q.view[1..] + [q.view[0].Cleared()], q.skip - 1, q.done - 1, q.out - 1,
            q.live - 1, q.accepted, q.finished, q.log, q.dry, q.underruns)
  }

  lemma {:induction false} ClearSound(q: TxQueue)
    requires 0 < q.skip
    ensures Cleared(q).Sound()
  {
    ClearedLayout(q);
    ClearedLive(q);
    ClearedDone(q);
    ClearedReported(q);
    SameBooks(q, Cleared(q));
  }

  lemma {:induction false} ClearedReported(q: TxQueue)
    requires 0 < q.skip
    ensures Cleared(q).Reported()
  {
    var r := Cleared(q);
    assert forall i | 0 <= i < r.done :: r.view[i] == q.view[i + 1];
  }

  lemma {:induction false} ClearedLayout(q: TxQueue)
    requires 0 < q.skip
    ensures var r := Cleared(q); Layout(r.view, r.skip, r.done, r.out, r.live)
  {
    ClearLayout(q.view, q.skip, q.done, q.out, q.live);
  }

  lemma {:induction false} ClearedLive(q: TxQueue)
    requires 0 < q.skip
    ensures var r := Cleared(q); Frames(r.view, r.skip, r.live) == Frames(q.view, q.skip, q.live)
  {
    ClearFrames(q.view, q.view[0].Cleared(), q.skip, q.live);
  }

  lemma {:induction false} ClearedDone(q: TxQueue)
    requires 0 < q.skip
    ensures var r := Cleared(q); Frames(r.view, r.skip, r.done) == Frames(q.view, q.skip, q.done)
  {
    ClearFrames(q.view, q.view[0].Cleared(), q.skip, q.done);
  }

  lemma {:induction false} ClearFrames(v: seq<TxDesc>, d: TxDesc, a: nat, b: nat)
    requires 0 < a <= b <= |v|
    ensures Frames(v[1..] + [d], a - 1, b - 1) == Frames(v, a, b)
  {
    FramesShift(v, v[1..] + [d], a, b);
  }

  /** What a ring accounts for depends only on its layout and the frames in it. */
  lemma {:induction false} SameBooks(q: TxState, r: TxState)
    requires q.Sound() && r.base < |r.view| && Layout(r.view, r.skip, r.done, r.out, r.live)
    requires Frames(r.view, r.skip, r.live) == Frames(q.view, q.skip, q.live)
    requires Frames(r.view, r.skip, r.done) == Frames(q.view, q.skip, q.done)
    requires r.accepted == q.accepted && r.finished == q.finished && r.log == q.log && r.Reported()
    ensures r.Sound()
  {
  }

  lemma {:induction false} ClearKeeps(q: TxQueue)
    requires 0 < q.skip
    ensures forall m: nat | q.Bounded(m) :: Clear(q).Bounded(m)
    ensures q.Idle() ==> Clear(q).Idle()
  {
    var r := Clear(q);
    assert forall i | 0 <= i < |q.view| - 1 :: r.view[i] == q.view[i + 1];
  }

  lemma {:induction false} ClearLayout(v: seq<TxDesc>, skip: nat, done: nat, out: nat, live: nat)
    requires Layout(v, skip, done, out, live) && 0 < skip
    ensures Layout(v[1..] + [v[0].Cleared()], skip - 1, done - 1, out - 1, live - 1)
  {
    var w := v[1..] + [v[0].Cleared()];
    assert forall i | 0 <= i < |v| - 1 :: w[i] == v[i + 1];
    forall i | skip - 1 < i < live - 1
      ensures Joined(w, i)
    {
      assert Joined(v, i + 1);
    }
  }

  /** Descriptors with the lengths of their buffers send the buffers, end to end. */
  lemma {:induction false} ChainPayload(v: seq<TxDesc>, a: nat, chain: seq<seq<byte>>, n: nat)
    requires a + n <= |v| && n <= |chain|
    requires forall i | a <= i < a + n :: v[i].data == chain[i - a] && v[i].length == -|chain[i - a]|
    ensures Payload(v, a, a + n) == Plain(Flatten(chain[..n]))
  {
    if n > 0 {
      ChainPayload(v, a, chain, n - 1);
      FlattenSnoc(chain, n - 1);
      PlainAppend(Flatten(chain[..n - 1]), chain[n - 1]);
      SelectedIs(v[a + n - 1].length, chain[n - 1], 0);
    } else {
      assert chain[..0] == [];
    }
  }

  /** A chain is sent with its padding at the end. */
  lemma {:induction false} WholePayload(v: seq<TxDesc>, a: nat, chain: seq<seq<byte>>, pad: nat)
    requires chain != [] && a + |chain| <= |v|
    requires forall i | a <= i < a + |chain| ::
               && v[i].data == chain[i - a]
               && v[i].length == -|chain[i - a]| - if i + 1 == a + |chain| then pad else 0
    ensures Payload(v, a, a + |chain|) == Plain(Flatten(chain)) + Strays(pad)
  {
    var n := |chain| - 1;
    ChainPayload(v, a, chain, n);
    FlattenSnoc(chain, n);
    assert chain[..n + 1] == chain;
    PlainAppend(Flatten(chain[..n]), chain[n]);
    SelectedIs(v[a + n].length, chain[n], pad);
    assert Plain(Flatten(chain[..n])) + (Plain(chain[n]) + Strays(pad)) == Plain(Flatten(chain)) + Strays(pad);
  }

  /** Over the whole run: frames finish in the order they were accepted in, passing over those
      that a reset dropped unsent; of the frames in the ring the finished ones come first. */
  lemma {:induction false} InOrder(q: TxQueue)
    ensures q.finished == SentOf(q.log) + Frames(q.view, q.skip, q.done)
    ensures q.accepted == FramesOf(q.log) + Frames(q.view, q.skip, q.done) + Frames(q.view, q.done, q.live)
  {
    FramesSplit(q.view, q.skip, q.done, q.live);
    Prefixes(FramesOf(q.log), Frames(q.view, q.skip, q.done), Frames(q.view, q.done, q.live));
  }

  /** Frames with one and the same fate. */
  function Doomed(frames: seq<Wire>, sent: bool): (log: seq<Fated>)
    ensures |log| == |frames|
  {
    seq(|frames|, i requires 0 <= i < |frames| => Fated(frames[i], Dropped(sent)))
  }

  /** What becomes of a ring that is reset: all frames in it are dropped. */
  function Dropping(q: TxQueue): (log: seq<Fated>)
    ensures q.log <= log
  {
    q.log + Doomed(Frames(q.view, q.skip, q.done), true) + Doomed(Frames(q.view, q.done, q.live), false)
  }

  /** Frames the controller was finished with count as such, the others do not. */
  lemma {:induction false} SentMore(log: seq<Fated>, to: seq<Fated>, sent: bool)
    requires log <= to && forall i | |log| <= i < |to| :: to[i].fate == Dropped(sent)
    ensures SentOf(to) == SentOf(log) + if sent then FramesOf(to)[|log|..] else []
    decreases |to|
  {
    if |log| < |to| {
      var n := |to| - 1;
      SentMore(log, to[..n], sent);
      assert FramesOf(to)[|log|..] == FramesOf(to[..n])[|log|..] + [to[n].frame];
    } else {
      assert log == to;
    }
  }

  lemma DoomedAfter(log: seq<Fated>, frames: seq<Wire>, sent: bool)
    ensures FramesOf(log + Doomed(frames, sent)) == FramesOf(log) + frames
    ensures SentOf(log + Doomed(frames, sent)) == SentOf(log) + if sent then frames else []
  {
    var to := log + Doomed(frames, sent);
    SentMore(log, to, sent);
    assert FramesOf(to)[|log|..] == frames;
  }

  /** A reset forgets no frame. */
  lemma {:induction false} DroppingKeeps(q: TxQueue)
    ensures FramesOf(Dropping(q)) == q.accepted && SentOf(Dropping(q)) == q.finished
  {
    var s, t := Frames(q.view, q.skip, q.done), Frames(q.view, q.done, q.live);
    InOrder(q);
    DoomedAfter(q.log, s, true);
    DoomedAfter(q.log + Doomed(s, true), t, false);
  }

  /** With no finished packet in the ring, every finished frame has its fate. */
  lemma {:induction false} NoneDone(q: TxQueue)
    requires !q.HasDone()
    ensures q.finished == SentOf(q.log)
  {
    assert q.skip == q.done;
  }

  lemma Prefixes<T>(a: seq<T>, b: seq<T>, c: seq<T>)
    ensures a <= a + b <= a + b + c == a + (b + c)
  {
    assert a + (b + c) == a + b + c;
  }

  /** When every packet is a single descriptor, the descriptors in use are the frames in the
      ring. */
  lemma {:induction false} FramesSingle(v: seq<TxDesc>, a: nat, b: nat)
    requires a <= b <= |v| && forall i | a <= i < b :: v[i].enp
    ensures |Frames(v, a, b)| == b - a
    decreases b
  {
    if a < b {
      FramesSingle(v, a, b - 1);
    }
  }

  lemma {:induction false} PendingFrames(q: TxQueue)
    requires q.skip == 0 && q.Bounded(1)
    ensures |Frames(q.view, q.skip, q.live)| == q.live
  {
    FramesSingle(q.view, q.skip, q.live);
  }

  /** The frames a log has with a fate that `p` picks. */
  function Picked(log: seq<Fated>, p: Fate -> bool): (m: multiset<Wire>) {
    if log == [] then multiset{}
    else
      var n := |log| - 1;
      Picked(log[..n], p) + if p(log[n].fate) then multiset{log[n].frame} else multiset{}
  }

  const RECLAIMED: Fate -> bool := (f: Fate) => f.Reclaimed?
  const DROPPED: Fate -> bool := (f: Fate) => f.Dropped?

  lemma {:induction false} PickedAll(log: seq<Fated>)
    ensures multiset(FramesOf(log)) == Picked(log, RECLAIMED) + Picked(log, DROPPED)
  {
    if log == [] {
      assert FramesOf(log) == [];
    } else {
      var n := |log| - 1;
      PickedAll(log[..n]);
      assert FramesOf(log) == FramesOf(log[..n]) + [log[n].frame];
    }
  }

  /** Every frame ever accepted has been taken back, is in the ring, or was dropped. */
  lemma {:induction false} Conserved(q: TxQueue)
    ensures multiset(q.accepted) ==
            Picked(q.log, RECLAIMED) + Picked(q.log, DROPPED) + multiset(Frames(q.view, q.skip, q.live))
  {
    PickedAll(q.log);
  }

  lemma {:induction false} SentGrows(log: seq<Fated>, to: seq<Fated>)
    requires log <= to
    ensures SentOf(log) <= SentOf(to)
    decreases |to|
  {
    if |log| < |to| {
      SentGrows(log, to[..|to| - 1]);
    } else {
      assert log == to;
    }
  }
}
