/** What `lnc_rint` leaves behind when no packet can be allocated: the packet's descriptors stay
    with the host, and the driver moves on.
 */
module AllocationFailure {
  import opened Descriptors
  import opened Rings
  import opened RxLayout

  /** The ring and the two places in it: the driver's, and the controller's. */
  datatype Place = Place(recvNext: nat, cursor: nat, view: seq<RxDesc>)
  {
    /** Driver and controller agree: from `recvNext` on there are packets, up to the cursor,
        and the rest of the ring is the controller's. */
    ghost predicate InStep() {
      && recvNext < |view|
      && exists h: nat :: h <= |view| && Layout(view, 0, h) && cursor == Slot(recvNext, h, |view|)
    }
  }

  /** All descriptors of the packet taken are given back. */
  function GiveBackAll(q: RxQueue): (r: RxQueue)
    ensures r.skip == 0 && q.skip <= q.host <= |q.view| && r.host == q.host - q.skip
    ensures |r.view| == |q.view| && r.base == Slot(q.base, q.skip, |q.view|)
    ensures Slot(r.base, r.host, |r.view|) == Slot(q.base, q.host, |q.view|)
    decreases q.skip
  {
    if q.skip == 0 then q
    else
      SlotStep(q.base, q.skip - 1, |q.view|);
      SlotStep(q.base, q.host - 1, |q.view|);
      GiveBackAll(GiveBack(q))
  }

  /** After the packet `view[..k + 1]` has been dealt with. */
  function Handled(q: RxQueue, k: nat, copied: bool): Place
    requires q.skip == 0 && k < q.host && q.view[k].Ends() && forall i | 0 <= i < k :: !q.view[i].Ends()
  {
    var r := GiveBackAll(Take(q, k));
    var cursor := Slot(q.base, q.host, |q.view|);
    Place(r.base, cursor, if copied then r.view else q.view[k + 1..] + q.view[..k + 1])
  }

  /** Driver and controller stay in step exactly when the allocation succeeds. */
  lemma {:induction false} InStepIffCopied(q: RxQueue, k: nat, copied: bool)
    requires q.skip == 0 && k < q.host && q.view[k].Ends() && forall i | 0 <= i < k :: !q.view[i].Ends()
    ensures Handled(q, k, copied).InStep() <==> copied
  {
    var r, p := GiveBackAll(Take(q, k)), Handled(q, k, copied);
    if copied {
      assert Layout(r.view, 0, r.host);
    } else {
      forall h: nat | h <= |p.view| && Layout(p.view, 0, h)
        ensures p.cursor != Slot(p.recvNext, h, |p.view|)
      {
        StaleAtEnd(q, k, p.view, h);
      }
    }
  }

  /** The stale packet comes last in the ring, so nothing may be the controller's; but the
      controller still waits for the stale packet's first descriptor. */
  lemma {:induction false} StaleAtEnd(q: RxQueue, k: nat, v: seq<RxDesc>, h: nat)
    requires q.skip == 0 && k < q.host && k + 1 < |q.view|
    requires v == q.view[k + 1..] + q.view[..k + 1] && h <= |v| && Layout(v, 0, h)
    ensures Slot(q.base, q.host, |v|) != Slot(Slot(q.base, k + 1, |v|), h, |v|)
  {
    var n := |v|;
    assert v[n - 1] == q.view[k];
    assert v[n - k - 2] == q.view[n - 1];
  }

  /** The ring with both places in it, when every packet is one descriptor. */
  datatype Ring = Ring(slots: seq<RxDesc>, recvNext: nat, cursor: nat)

  /** A frame arrives; without a descriptor of its own the controller misses it. */
  function Arrives(r: Ring, frame: seq<byte>): Ring
    requires r.cursor < |r.slots| && CRC_LENGTH <= |frame| <= BUFFER_SIZE
  {
    var d := r.slots[r.cursor];
    if !d.own then r
    else
      var filled := RxDesc(false, false, false, false, false, false, true, true, d.length, |frame|,
                           frame + seq(BUFFER_SIZE - |frame|, _ => 0));
      r.(slots := r.slots[r.cursor := filled], cursor := Inc(r.cursor, |r.slots|))
  }

  /** The receive loop over one-descriptor packets; `copied` tells which allocations succeed. */
  function Rint(r: Ring, copied: seq<bool>): (served: (Ring, seq<seq<byte>>))
    requires r.recvNext < |r.slots|
    requires forall d | d in r.slots :: CRC_LENGTH <= d.count <= |d.data| || !d.stp
    ensures |served.0.slots| == |r.slots| && served.0.recvNext < |r.slots| && served.0.cursor == r.cursor
    decreases |copied|
  {
    var d := r.slots[r.recvNext];
    if !d.stp || copied == [] then (r, [])
    else
      var slots := if copied[0] then r.slots[r.recvNext := d.Returned()] else r.slots;
      var (s, more) := Rint(Ring(slots, Inc(r.recvNext, |slots|), r.cursor), copied[1..]);
      (s, (if copied[0] then [d.data[..d.count - CRC_LENGTH]] else []) + more)
  }

  /** One failed allocation in a ring of two: the packet is delivered after its successor, and
      then the third frame stays in the ring, although it is complete and RINT is raised. The
      driver finds the controller's descriptor, on which a debugging build resets. */
  lemma {:induction false} FrameOverlooked(a: seq<byte>, b: seq<byte>, c: seq<byte>)
    requires CRC_LENGTH <= |a| <= BUFFER_SIZE && CRC_LENGTH <= |b| <= BUFFER_SIZE
    requires CRC_LENGTH <= |c| <= BUFFER_SIZE
    ensures var r0 := Ring([BLANK, BLANK], 0, 0);
            var (r1, none) := Rint(Arrives(r0, a), [false]);
            var (r2, late) := Rint(Arrives(r1, b), [true, true]);
            var r3 := Arrives(r2, c);
            var (r4, nothing) := Rint(r3, [true]);
            && none == [] && late == [b[..|b| - CRC_LENGTH], a[..|a| - CRC_LENGTH]]
            && !r3.slots[0].own && r3.slots[0].enp && r3.slots[0].data[..|c|] == c
            && r3.slots[r3.recvNext].own
            && r4 == r3 && nothing == []
  {
    var r0 := Ring([BLANK, BLANK], 0, 0);
    var fa := Arrives(r0, a);
    var (r1, none) := Rint(fa, [false]);
    assert r1 == Ring(fa.slots, 1, 1) && none == [];
    var fb := Arrives(r1, b);
    assert fb.slots[0] == fa.slots[0] && fb.cursor == 0;
    var back := Ring([fa.slots[0], fb.slots[1].Returned()], 0, 0);
    assert fb.slots[1 := fb.slots[1].Returned()] == back.slots;
    var end := Ring([fa.slots[0].Returned(), fb.slots[1].Returned()], 1, 0);
    assert back.slots[0 := fa.slots[0].Returned()] == end.slots;
    assert Rint(end, []) == (end, []);
    assert [true, true][1..] == [true] && [true][1..] == [];
    assert fa.slots[0].data[..|a| - CRC_LENGTH] == a[..|a| - CRC_LENGTH];
    assert fb.slots[1].data[..|b| - CRC_LENGTH] == b[..|b| - CRC_LENGTH];
    assert Rint(back, [true]).1 == [a[..|a| - CRC_LENGTH]] + Rint(end, []).1;
    assert Rint(back, [true]).0 == Rint(end, []).0;
    assert Rint(fb, [true, true]).0 == end;
    assert Rint(fb, [true, true]).1 == [b[..|b| - CRC_LENGTH]] + Rint(back, [true]).1;
  }

  /** The first buffer of a frame that takes more than one. */
  function Begins(r: Ring, chunk: seq<byte>): Ring
    requires r.cursor < |r.slots| && |chunk| == BUFFER_SIZE
  {
    var d := r.slots[r.cursor];
    if !d.own then r
    else
      var filled := RxDesc(false, false, false, false, false, false, true, false, d.length, 0, chunk);
      r.(slots := r.slots[r.cursor := filled], cursor := Inc(r.cursor, |r.slots|))
  }

  /** Where the search for the end of a packet stops, at `p` or within the next `n` steps. */
  function Stop(slots: seq<RxDesc>, p: nat, n: nat): (q: nat)
    requires p < |slots|
    ensures q < |slots|
    decreases n
  {
    var d := slots[p];
    if d.stp || d.own || d.Ends() || n == 0 then p else Stop(slots, Inc(p, |slots|), n - 1)
  }

  /** Serving the packet at `recvNext`. */
  lemma ServeOne(r: Ring, rest: seq<bool>)
    requires r.recvNext < |r.slots| && r.slots[r.recvNext].stp
    requires forall d | d in r.slots :: CRC_LENGTH <= d.count <= |d.data| || !d.stp
    ensures var s := Ring(r.slots[r.recvNext := r.slots[r.recvNext].Returned()], Inc(r.recvNext, |r.slots|), r.cursor);
            && (forall d | d in s.slots :: CRC_LENGTH <= d.count <= |d.data| || !d.stp)
            && Rint(r, [true] + rest).0 == Rint(s, rest).0
  {
    assert ([true] + rest)[1..] == rest;
  }

  /** Serving a full ring of four from slot 1 gives every slot back. */
  lemma ServeAll(r: Ring)
    requires |r.slots| == 4 && r.recvNext == 1
    requires forall d | d in r.slots :: d.stp && CRC_LENGTH <= d.count <= |d.data|
    ensures var s := Rint(r, [true, true, true, true]).0;
            && |s.slots| == 4 && s.recvNext == 1 && s.cursor == r.cursor
            && forall i | 0 <= i < 4 :: s.slots[i].own
  {
    ServeOne(r, [true, true, true]);
    var s1 := Ring(r.slots[1 := r.slots[1].Returned()], 2, r.cursor);
    ServeOne(s1, [true, true]);
    var s2 := Ring(s1.slots[2 := s1.slots[2].Returned()], 3, r.cursor);
    ServeOne(s2, [true]);
    var s3 := Ring(s2.slots[3 := s2.slots[3].Returned()], 0, r.cursor);
    ServeOne(s3, []);
    var s4 := Ring(s3.slots[0 := s3.slots[0].Returned()], 1, r.cursor);
    assert Rint(s4, []).0 == s4;
  }

  /** Any build can reset: in a ring of four the first allocation fails, then the other slots and
      the stale packet are served. With a frame complete at slot 0, for which RINT is raised, and
      a longer one begun at slot 1, the search that starts at slot 1 meets a descriptor of the
      controller's, and that for the first packet it looks for. */
  lemma {:induction false} SearchLost(a: seq<byte>, b: seq<byte>, c: seq<byte>, d: seq<byte>,
                                      e: seq<byte>, f: seq<byte>)
    requires CRC_LENGTH <= |a| <= BUFFER_SIZE && CRC_LENGTH <= |b| <= BUFFER_SIZE
    requires CRC_LENGTH <= |c| <= BUFFER_SIZE && CRC_LENGTH <= |d| <= BUFFER_SIZE
    requires CRC_LENGTH <= |e| <= BUFFER_SIZE && |f| == BUFFER_SIZE
    ensures var r0 := Ring([BLANK, BLANK, BLANK, BLANK], 0, 0);
            var r1 := Rint(Arrives(r0, a), [false]).0;
            var full := Arrives(Arrives(Arrives(r1, b), c), d);
            var r2 := Rint(full, [true, true, true, true]).0;
            var r3 := Begins(Arrives(r2, e), f);
            && r3.recvNext == 1 && !r3.slots[0].own && r3.slots[0].enp
            && r3.slots[1].stp && !r3.slots[1].Ends() && r3.slots[Stop(r3.slots, 2, 4)].own
  {
    var r0 := Ring([BLANK, BLANK, BLANK, BLANK], 0, 0);
    var fa := Arrives(r0, a);
    var r1 := Ring(fa.slots, 1, 1);
    assert Rint(fa, [false]).0 == r1;
    var full := Arrives(Arrives(Arrives(r1, b), c), d);
    assert full.recvNext == 1 && full.cursor == 0 && |full.slots| == 4;
    ServeAll(full);
  }
}
