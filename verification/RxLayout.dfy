/** The receive ring as a queue: complete packets, then the packet being received, then
    descriptors the controller owns.
 */
module RxLayout {
  import opened Descriptors
  import opened Rings

  const ENDS: RxDesc -> bool := (d: RxDesc) => d.Ends()

  /** The contents of a packet's buffers, end to end. */
  function Bytes(f: seq<RxDesc>): (b: seq<byte>) {
    if f == [] then [] else Bytes(f[..|f| - 1]) + f[|f| - 1].data
  }

  lemma {:induction false} BytesSnoc(f: seq<RxDesc>, d: RxDesc)
    ensures Bytes(f + [d]) == Bytes(f) + d.data
  {
    assert (f + [d])[..|f|] == f;
  }

  lemma {:induction false} BytesLength(f: seq<RxDesc>)
    requires forall d | d in f :: |d.data| == BUFFER_SIZE
    ensures |Bytes(f)| == |f| * BUFFER_SIZE
  {
    if f != [] {
      BytesLength(f[..|f| - 1]);
    }
  }

  /** The first `n` bytes of a run of buffers, or all of them if there are fewer. */
  ghost predicate Copied(pkt: seq<byte>, g: seq<RxDesc>, n: nat) {
    |Bytes(g)| == |g| * BUFFER_SIZE && pkt == Bytes(g)[..if n <= |Bytes(g)| then n else |Bytes(g)|]
  }

  lemma {:induction false} CopyOne(pkt: seq<byte>, f: seq<RxDesc>, i: nat, n: nat)
    requires i < |f| && Copied(pkt, f[..i], n)
    ensures |pkt| <= n
    ensures |f[i].data| == BUFFER_SIZE ==>
            var amount := if n - |pkt| < BUFFER_SIZE then n - |pkt| else BUFFER_SIZE;
            Copied(pkt + f[i].data[..amount], f[..i + 1], n)
  {
    assert f[..i + 1] == f[..i] + [f[i]];
    BytesSnoc(f[..i], f[i]);
  }

  /** One controller write to the receive ring: `size` bytes of a frame, its status bits, and
      whatever the rest of the buffer holds. */
  datatype Chunk = Chunk(data: seq<byte>, size: nat, err: bool, fram: bool, oflo: bool, crc: bool,
                         buff: bool, enp: bool)
  {
    predicate Last() { enp || err }

    /** What a well-behaved controller writes after `before` descriptors of the same frame:
        full buffers but the last, and a frame never takes every descriptor of the ring. */
    predicate Proper(before: nat, n: nat) {
      && |data| == BUFFER_SIZE
      && size <= BUFFER_SIZE
      && before + 1 < n
      && (!Last() ==> size == BUFFER_SIZE)
      && (Last() && !err ==>
            && 0 < size
            && 2 * ADDRESS_LENGTH + CRC_LENGTH <= before * BUFFER_SIZE + size <= COUNT_MASK)
    }

    function Write(before: nat, length: int): RxDesc {
      RxDesc(false, err, fram, oflo, crc, buff, before == 0, enp, length, before * BUFFER_SIZE + size, data)
    }

    /** The arrival this chunk completes, `before` being the bytes already stored. */
    function Finishes(before: seq<byte>): seq<Arrival>
      requires size <= |data|
    {
      if Last() then [Arrive(before + data[..size], err)] else []
    }
  }

  /** An undamaged arrival is one the controller reports no error for; it only does so for a
      frame of an acceptable length. */
  function Arrive(b: seq<byte>, err: bool): Arrival {
    if !err && 2 * ADDRESS_LENGTH + CRC_LENGTH <= |b| <= COUNT_MASK then Good(b) else Bad
  }

  /** The message length of an error-free packet is its byte count, and it reaches into the
      packet's last buffer. */
  predicate Measured(f: seq<RxDesc>) {
    f != [] &&
    var d := f[|f| - 1];
    d.err || (&& 2 * ADDRESS_LENGTH + CRC_LENGTH <= d.count <= COUNT_MASK
              && (|f| - 1) * BUFFER_SIZE < d.count <= |f| * BUFFER_SIZE
              && |Bytes(f)| == |f| * BUFFER_SIZE)
  }

  /** What a complete packet in the ring stands for. */
  function Meaning(f: seq<RxDesc>): Arrival {
    if Measured(f) && !f[|f| - 1].err then Good(Bytes(f)[..f[|f| - 1].count]) else Bad
  }

  function Meanings(fs: seq<seq<RxDesc>>): seq<Arrival> {
    seq(|fs|, i requires 0 <= i < |fs| => Meaning(fs[i]))
  }

  lemma {:induction false} MeaningsAppend(fs: seq<seq<RxDesc>>, gs: seq<seq<RxDesc>>)
    ensures Meanings(fs + gs) == Meanings(fs) + Meanings(gs)
  {
  }

  /** A descriptor starts a packet exactly when its predecessor ended one. */
  ghost predicate Joined(v: seq<RxDesc>, i: nat)
    requires 0 < i < |v|
  {
    v[i].stp <==> v[i - 1].Ends()
  }

  /** The ring from the oldest descriptor not yet returned. The first `skip` descriptors
      belong to a packet already taken, the first `h` are the host's. */
  ghost predicate Layout(v: seq<RxDesc>, skip: nat, h: nat) {
    && skip <= h <= |v|
    && (forall i | 0 <= i < h :: !v[i].own)
    && (forall i | h <= i < |v| :: v[i].Blank())
    && (forall i | 0 <= i < |v| :: |v[i].data| == BUFFER_SIZE && v[i].length == -BUFFER_SIZE)
    && (0 < skip ==> v[skip - 1].Ends())
    && (skip < h ==> v[skip].stp)
    && (forall i | skip < i < h :: Joined(v, i))
    && (skip == 0 && h == |v| ==> exists i :: 0 <= i < |v| - 1 && v[i].Ends())
  }

  /** What became of an arrival: taken by the driver, or lost in a reset. */
  datatype Handled = Handled(arrival: Arrival, taken: bool)

  function Arrivals(log: seq<Handled>): (a: seq<Arrival>)
    ensures |a| == |log|
  {
    seq(|log|, i requires 0 <= i < |log| => log[i].arrival)
  }

  /** Since `log` everything has been taken. */
  ghost predicate TakenOn(log: seq<Handled>, to: seq<Handled>) {
    log <= to && forall i | |log| <= i < |to| :: to[i].taken
  }

  /** The receive side seen whole. `view` is the ring from slot `base`; `arrivals` is all the
      controller has ever finished, `log` what became of it, up to what still waits in the ring. */
  datatype RxState = RxState(base: nat, view: seq<RxDesc>, skip: nat, host: nat,
                             arrivals: seq<Arrival>, log: seq<Handled>)
  {
    ghost predicate Sound() {
      && base < |view|
      && Layout(view, skip, host)
      && AllMeasured(Waiting())
      && arrivals == Arrivals(log) + Meanings(Waiting())
    }

    /** Complete packets the driver has not taken. */
    function Waiting(): seq<seq<RxDesc>> {
      if skip <= host <= |view| then Packets(view[skip..host], ENDS) else []
    }

    /** The packet the controller is storing. */
    function Open(): seq<RxDesc> {
      if skip <= host <= |view| then Rest(view[skip..host], ENDS) else []
    }

    ghost predicate HasPacket() {
      host <= |view| && exists i :: skip <= i < host && view[i].Ends()
    }

    /** The first `k` descriptors are the host's and none of them ends a packet. */
    ghost predicate Searched(k: nat) {
      k <= host <= |view| && forall i | 0 <= i < k :: !view[i].Ends()
    }

    /** What controller steps can turn this state into. */
    ghost predicate Leads(to: RxState) {
      && to.base == base && to.skip == skip && to.log == log && |to.view| == |view|
      && host <= to.host && arrivals <= to.arrivals
      && (forall i | 0 <= i < host && i < |view| :: to.view[i] == view[i])
    }
  }

  /** The first `skip` descriptors are what is left of the taken packet `f`. */
  ghost predicate LeftOf(f: seq<RxDesc>, v: seq<RxDesc>, skip: nat) {
    skip <= |f| && skip <= |v| && forall i | 0 <= i < skip :: v[i] == f[|f| - skip + i]
  }

  lemma LeftStill(f: seq<RxDesc>, a: RxQueue, b: RxQueue)
    requires a.Leads(b) && LeftOf(f, a.view, a.skip)
    ensures LeftOf(f, b.view, b.skip)
  {
  }

  lemma {:induction false} LeadsOn(a: RxQueue, b: RxQueue, c: RxQueue, k: nat)
    requires a.Leads(b) && b.Leads(c)
    ensures a.Leads(c)
    ensures b.Searched(k) ==> c.Searched(k)
  {
  }

  lemma {:induction false} LeadsStill(a: RxState, b: RxState, c: RxState)
    requires a.Leads(b) && b.Leads(c)
    ensures a.Leads(c) && (b.HasPacket() && c.host <= |c.view| ==> c.HasPacket())
  {
    if b.HasPacket() {
      var i :| b.skip <= i < b.host && b.view[i].Ends();
      assert c.view[i].Ends();
    }
  }

  ghost predicate AllMeasured(fs: seq<seq<RxDesc>>) {
    forall f | f in fs :: Measured(f)
  }

  /** A ring the controller owns whole. */
  function Fresh(view: seq<RxDesc>, log: seq<Handled>): (q: RxState)
    requires view != []
    requires forall d | d in view :: d.Blank() && |d.data| == BUFFER_SIZE && d.length == -BUFFER_SIZE
    ensures q.Sound() && q.Open() == []
  {
    assert view[0..0] == [];
    RxState(0, view, 0, 0, Arrivals(log), log)
  }

  const BLANK := RxDesc(true, false, false, false, false, false, false, false, -BUFFER_SIZE, 0,
                        seq(BUFFER_SIZE, _ => 0))

  type RxQueue = q: RxState | q.Sound() ghost witness Fresh([BLANK], [])

  /** The open packet is empty exactly at a packet boundary, and a finished one precedes it. */
  lemma {:induction false} RestShape(s: seq<RxDesc>)
    ensures Rest(s, ENDS) == [] <==> s == [] || s[|s| - 1].Ends()
    ensures |Rest(s, ENDS)| <= |s|
    ensures |Rest(s, ENDS)| < |s| ==> s[|s| - |Rest(s, ENDS)| - 1].Ends()
    ensures forall d | d in Rest(s, ENDS) :: d in s
  {
    if s != [] && !ENDS(s[|s| - 1]) {
      RestShape(s[..|s| - 1]);
    }
  }

  /** The open packet fills its buffers. */
  lemma {:induction false} OpenBytes(q: RxQueue)
    ensures |Bytes(q.Open())| == |q.Open()| * BUFFER_SIZE
  {
    RestShape(q.view[q.skip..q.host]);
    BytesLength(q.Open());
  }

  lemma {:induction false} StoredLayout(v: seq<RxDesc>, skip: nat, h: nat, d: RxDesc)
    requires Layout(v, skip, h) && h < |v|
    requires !d.own && |d.data| == BUFFER_SIZE && d.length == -BUFFER_SIZE
    requires d.stp <==> Rest(v[skip..h], ENDS) == []
    requires |Rest(v[skip..h], ENDS)| + 1 < |v|
    ensures Layout(v[h := d], skip, h + 1)
  {
    var s, w := v[skip..h], v[h := d];
    RestShape(s);
    forall i | skip < i < h + 1
      ensures Joined(w, i)
    {
      assert i < h ==> Joined(v, i);
    }
    if skip == 0 && h + 1 == |w| {
      assert w[h - |Rest(s, ENDS)| - 1].Ends();
    }
  }

  /** A finished packet stands for the frame the controller was storing. */
  lemma {:induction false} FinishedPacket(open: seq<RxDesc>, c: Chunk, length: int)
    requires c.Proper(|open|, |open| + 2) && c.Last()
    requires |Bytes(open)| == |open| * BUFFER_SIZE
    ensures Measured(open + [c.Write(|open|, length)])
    ensures [Meaning(open + [c.Write(|open|, length)])] == c.Finishes(Bytes(open))
  {
    var d := c.Write(|open|, length);
    BytesSnoc(open, d);
    if !c.err {
      assert (Bytes(open) + c.data)[..d.count] == Bytes(open) + c.data[..c.size];
    }
  }

  /** The controller stores one more descriptor; a final one completes an arrival. */
  function Store(q: RxQueue, c: Chunk): (r: RxQueue)
    requires q.host < |q.view| && c.Proper(|q.Open()|, |q.view|)
    ensures q.Leads(r) && r.host == q.host + 1
    ensures |r.Open()| == if c.Last() then 0 else |q.Open()| + 1
    ensures c.Last() ==> r.HasPacket()
    ensures r.arrivals == q.arrivals + c.Finishes(Bytes(q.Open()))
    ensures Bytes(r.Open()) == if c.Last() then [] else Bytes(q.Open()) + c.data
  {
    var d := c.Write(|q.Open()|, q.view[q.host].length);
    var r := q.(view := q.view[q.host := d], host := q.host + 1,
                arrivals := q.arrivals + c.Finishes(Bytes(q.Open())));
    StoreSound(q, c, r);
    StoreOpens(q, c, r);
    assert c.Last() ==> r.view[q.host].Ends();
    r
  }

  lemma {:induction false} StoreSound(q: RxQueue, c: Chunk, r: RxState)
    requires q.host < |q.view| && c.Proper(|q.Open()|, |q.view|)
    requires r == q.(view := q.view[q.host := c.Write(|q.Open()|, q.view[q.host].length)],
                  host := q.host + 1, arrivals := q.arrivals + c.Finishes(Bytes(q.Open())))
    ensures r.Sound()
  {
    StoreLayout(q, c, r);
    StoreOpens(q, c, r);
  }

  lemma {:induction false} StoreLayout(q: RxQueue, c: Chunk, r: RxState)
    requires q.host < |q.view| && c.Proper(|q.Open()|, |q.view|)
    requires r.skip == q.skip && r.host == q.host + 1
    requires r.view == q.view[q.host := c.Write(|q.Open()|, q.view[q.host].length)]
    ensures Layout(r.view, r.skip, r.host)
  {
    RestShape(q.view[q.skip..q.host]);
    StoredLayout(q.view, q.skip, q.host, r.view[q.host]);
  }

  lemma {:induction false} StoreOpens(q: RxQueue, c: Chunk, r: RxState)
    requires q.host < |q.view| && c.Proper(|q.Open()|, |q.view|)
    requires r.skip == q.skip && r.host == q.host + 1
    requires r.view == q.view[q.host := c.Write(|q.Open()|, q.view[q.host].length)]
    ensures AllMeasured(r.Waiting())
    ensures Meanings(r.Waiting()) == Meanings(q.Waiting()) + c.Finishes(Bytes(q.Open()))
    ensures |r.Open()| == if c.Last() then 0 else |q.Open()| + 1
    ensures Bytes(r.Open()) == if c.Last() then [] else Bytes(q.Open()) + c.data
  {
    var s := q.view[q.skip..q.host];
    OpenBytes(q);
    assert r.view[r.skip..r.host] == s + [r.view[q.host]];
    StoredPackets(s, c, q.view[q.host].length);
  }

  lemma {:induction false} StoredPackets(s: seq<RxDesc>, c: Chunk, length: int)
    requires c.Proper(|Rest(s, ENDS)|, |Rest(s, ENDS)| + 2)
    requires |Bytes(Rest(s, ENDS))| == |Rest(s, ENDS)| * BUFFER_SIZE
    requires AllMeasured(Packets(s, ENDS))
    ensures var open := Rest(s, ENDS);
            var d := c.Write(|open|, length);
            && AllMeasured(Packets(s + [d], ENDS))
            && Meanings(Packets(s + [d], ENDS)) == Meanings(Packets(s, ENDS)) + c.Finishes(Bytes(open))
            && Rest(s + [d], ENDS) == (if c.Last() then [] else open + [d])
            && Bytes(Rest(s + [d], ENDS)) == if c.Last() then [] else Bytes(open) + c.data
  {
    var open := Rest(s, ENDS);
    var d := c.Write(|open|, length);
    PacketsSnoc(s, ENDS, d);
    BytesSnoc(open, d);
    if c.Last() {
      FinishedPacket(open, c, length);
      MeaningsAppend(Packets(s, ENDS), [open + [d]]);
    }
  }

  /** The driver takes the first complete packet, `view[..k + 1]`. */
  function Take(q: RxQueue, k: nat): (r: RxQueue)
    requires q.skip == 0 && k < q.host && q.view[k].Ends() && forall i | 0 <= i < k :: !q.view[i].Ends()
    ensures k + 1 < |q.view| && Measured(q.view[..k + 1]) && r.Open() == q.Open()
  {
    var r := q.(skip := k + 1, log := q.log + [Handled(Meaning(q.view[..k + 1]), true)]);
    TakeSound(q, k, r);
    r
  }

  lemma {:induction false} TakeSound(q: RxQueue, k: nat, r: RxState)
    requires q.skip == 0 && k < q.host && q.view[k].Ends() && forall i | 0 <= i < k :: !q.view[i].Ends()
    requires r == q.(skip := k + 1, log := q.log + [Handled(Meaning(q.view[..k + 1]), true)])
    ensures k + 1 < |q.view| && r.Sound() && Measured(q.view[..k + 1]) && r.Open() == q.Open()
  {
    TakeLayout(q.view, q.host, k);
    TakeWaiting(q, k, r);
    TakeMeasured(q.view[..k + 1], q.Waiting(), r.Waiting());
  }

  lemma {:induction false} TakeMeasured(p: seq<RxDesc>, before: seq<seq<RxDesc>>, after: seq<seq<RxDesc>>)
    requires before == [p] + after && AllMeasured(before)
    ensures Measured(p) && AllMeasured(after) && Meanings(before) == [Meaning(p)] + Meanings(after)
  {
    assert p == before[0];
    assert forall f | f in after :: f in before;
    MeaningsAppend([p], after);
  }

  lemma {:induction false} TakeWaiting(q: RxQueue, k: nat, r: RxState)
    requires q.skip == 0 && k < q.host && q.view[k].Ends() && forall i | 0 <= i < k :: !q.view[i].Ends()
    requires r.view == q.view && r.host == q.host && r.skip == k + 1
    ensures q.Waiting() == [q.view[..k + 1]] + r.Waiting() && r.Open() == q.Open()
  {
    TakePackets(q.view, q.host, k);
  }

  lemma {:induction false} TakeLayout(v: seq<RxDesc>, h: nat, k: nat)
    requires Layout(v, 0, h) && k < h && v[k].Ends() && forall i | 0 <= i < k :: !v[i].Ends()
    ensures k + 1 < |v| && Layout(v, k + 1, h)
  {
    assert k + 1 < h ==> Joined(v, k + 1);
  }

  lemma {:induction false} TakePackets(v: seq<RxDesc>, h: nat, k: nat)
    requires k < h <= |v| && v[k].Ends() && forall i | 0 <= i < k :: !v[i].Ends()
    ensures Packets(v[0..h], ENDS) == [v[..k + 1]] + Packets(v[k + 1..h], ENDS)
    ensures Rest(v[0..h], ENDS) == Rest(v[k + 1..h], ENDS)
  {
    var s := v[0..h];
    assert s[..k + 1] == v[..k + 1] && s[k + 1..] == v[k + 1..h];
    PacketsFirst(s, ENDS, k);
  }

  /** The driver gives the oldest descriptor of the packet it took back to the controller. */
  function GiveBack(q: RxQueue): (r: RxQueue)
    requires 0 < q.skip
    ensures r.Open() == q.Open()
  {
    var r := q.(base := Inc(q.base, |q.view|), view := q.view[1..] + [q.view[0].Returned()],
                skip := q.skip - 1, host := q.host - 1);
    GiveBackLayout(q.view, q.skip, q.host);
    assert r.view[r.skip..r.host] == q.view[q.skip..q.host];
    r
  }

  /** What remains of the packet taken after one of its descriptors is given back. */
  lemma {:induction false} GiveBackRest(v: seq<RxDesc>, skip: nat, d: RxDesc, f: seq<RxDesc>)
    requires 0 < skip <= |v| && skip <= |f| && v[..skip] == f[|f| - skip..]
    ensures (v[1..] + [d])[..skip - 1] == f[|f| - (skip - 1)..]
  {
    assert (v[1..] + [d])[..skip - 1] == v[..skip][1..];
  }

  lemma {:induction false} GiveBackLayout(v: seq<RxDesc>, skip: nat, h: nat)
    requires Layout(v, skip, h) && 0 < skip
    ensures Layout(v[1..] + [v[0].Returned()], skip - 1, h - 1)
  {
    var w := v[1..] + [v[0].Returned()];
    assert forall i | 0 <= i < |v| - 1 :: w[i] == v[i + 1];
    forall i | skip - 1 < i < h - 1
      ensures Joined(w, i)
    {
      assert Joined(v, i + 1);
    }
  }

  /** What becomes of a ring that is reset: everything that waits in it is lost. */
  function Abandoned(q: RxQueue): (log: seq<Handled>)
    ensures Arrivals(log) == q.arrivals && q.log <= log
    ensures forall i | |q.log| <= i < |log| :: !log[i].taken
  {
    q.log + seq(|q.arrivals| - |q.log|, i requires 0 <= i < |q.arrivals| - |q.log| =>
                  Handled(q.arrivals[|q.log| + i], false))
  }

  /** With nothing waiting, every arrival has been dealt with. */
  lemma {:induction false} NoneWaiting(q: RxQueue)
    requires !q.HasPacket()
    ensures q.arrivals == Arrivals(q.log)
  {
    var s := q.view[q.skip..q.host];
    forall i | 0 <= i < |s|
      ensures !ENDS(s[i])
    {
      assert s[i] == q.view[q.skip + i];
    }
    PacketsNone(s, ENDS);
  }

  /** The frames the network stack is given: taken, error-free, not from our own address,
      without the check sequence. */
  function Delivered(log: seq<Handled>, mac: seq<byte>): (out: seq<seq<byte>>) {
    if log == [] then []
    else
      var n := |log| - 1;
      Delivered(log[..n], mac) + if log[n].taken then Passed(log[n].arrival, mac) else []
  }

  function Passed(a: Arrival, mac: seq<byte>): (out: seq<seq<byte>>) {
    if a.Good? && a.frame[ADDRESS_LENGTH..2 * ADDRESS_LENGTH] != mac
    then [a.frame[..|a.frame| - CRC_LENGTH]]
    else []
  }

  /** What the stack is given for an undamaged packet, in terms of its buffers. */
  lemma {:induction false} PassedIs(f: seq<RxDesc>, mac: seq<byte>)
    requires Measured(f) && !f[|f| - 1].err
    ensures var n := f[|f| - 1].count - CRC_LENGTH;
            && 2 * ADDRESS_LENGTH <= n <= |Bytes(f)|
            && Passed(Meaning(f), mac) ==
               if Bytes(f)[..n][ADDRESS_LENGTH..2 * ADDRESS_LENGTH] != mac then [Bytes(f)[..n]] else []
  {
    var b, n := Bytes(f), f[|f| - 1].count - CRC_LENGTH;
    assert b[..n + CRC_LENGTH][..n] == b[..n];
    assert b[..n + CRC_LENGTH][ADDRESS_LENGTH..2 * ADDRESS_LENGTH] == b[..n][ADDRESS_LENGTH..2 * ADDRESS_LENGTH];
  }

  /** The frames counted as input errors. */
  function Damaged(log: seq<Handled>): nat {
    if log == [] then 0
    else
      var n := |log| - 1;
      Damaged(log[..n]) + if log[n].taken && log[n].arrival.Bad? then 1 else 0
  }

  lemma {:induction false} LogSnoc(log: seq<Handled>, h: Handled, mac: seq<byte>)
    ensures Delivered(log + [h], mac) == Delivered(log, mac) + if h.taken then Passed(h.arrival, mac) else []
    ensures Damaged(log + [h]) == Damaged(log) + if h.taken && h.arrival.Bad? then 1 else 0
  {
    assert (log + [h])[..|log|] == log;
  }

  lemma TakenOne(log: seq<Handled>, a: Arrival)
    ensures TakenOn(log, log + [Handled(a, true)])
  {
  }

  /** What is lost is neither delivered nor counted. */
  lemma {:induction false} LostNothing(log: seq<Handled>, to: seq<Handled>, mac: seq<byte>)
    requires log <= to && forall i | |log| <= i < |to| :: !to[i].taken
    ensures Delivered(to, mac) == Delivered(log, mac) && Damaged(to) == Damaged(log)
    decreases |to|
  {
    if |log| < |to| {
      LostNothing(log, to[..|to| - 1], mac);
    } else {
      assert log == to;
    }
  }
}
