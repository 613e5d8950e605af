/** Ring cursors, the ring as seen from a cursor, and the splitting of a run of
    descriptors into packets.

    A cursor is always below the ring size, so wrap-around needs one conditional
    subtraction and no modulo.
 */
module Rings {

  /** LNC_INC_MD_PTR. */
  function Inc(p: nat, n: nat): nat {
    if p + 1 >= n then 0 else p + 1
  }

  /** DEC_MD_PTR. */
  function Dec(p: nat, n: nat): nat
    requires 0 < n
  {
    if p == 0 then n - 1 else p - 1
  }

  /** The slot `k` steps after cursor `p`. */
  function Slot(p: nat, k: nat, n: nat): nat
    requires p < n && k <= n
  {
    if p + k >= n then p + k - n else p + k
  }

  lemma SlotStep(p: nat, k: nat, n: nat)
    requires p < n && k < n
    ensures Inc(Slot(p, k, n), n) == Slot(p, k + 1, n)
    ensures Slot(Inc(p, n), k, n) == Slot(p, k + 1, n)
  {
  }

  lemma SlotInjective(p: nat, j: nat, k: nat, n: nat)
    requires p < n && j < n && k < n
    ensures Slot(p, j, n) == Slot(p, k, n) <==> j == k
  {
  }

  /** The ring read from cursor `p` onwards, once around. */
  function View<T>(ring: seq<T>, p: nat): (v: seq<T>)
    requires p < |ring|
    ensures |v| == |ring|
  {
    Round(ring, p, |ring|)
  }

  /** The first `n` slots from cursor `p` onwards. */
  function Round<T>(ring: seq<T>, p: nat, n: nat): (v: seq<T>)
    requires p < |ring| && n <= |ring|
    ensures |v| == n
  {
    if n == 0 then [] else Round(ring, p, n - 1) + [ring[Slot(p, n - 1, |ring|)]]
  }

  lemma {:induction false} RoundAt<T>(ring: seq<T>, p: nat, n: nat, k: nat)
    requires p < |ring| && k < n <= |ring|
    ensures Round(ring, p, n)[k] == ring[Slot(p, k, |ring|)]
  {
    if k < n - 1 {
      RoundAt(ring, p, n - 1, k);
    }
  }

  lemma ViewAt<T>(ring: seq<T>, p: nat, k: nat)
    requires p < |ring| && k < |ring|
    ensures View(ring, p)[k] == ring[Slot(p, k, |ring|)]
  {
    RoundAt(ring, p, |ring|, k);
  }

  lemma ViewWhole<T>(ring: seq<T>)
    requires ring != []
    ensures View(ring, 0) == ring
  {
    forall k | 0 <= k < |ring|
      ensures View(ring, 0)[k] == ring[k]
    {
      ViewAt(ring, 0, k);
    }
  }

  /** The part up to the end of the ring, then the part before the cursor. */
  lemma ViewParts<T>(ring: seq<T>, p: nat)
    requires p < |ring|
    ensures View(ring, p) == ring[p..] + ring[..p]
  {
    forall k | 0 <= k < |ring|
      ensures View(ring, p)[k] == (ring[p..] + ring[..p])[k]
    {
      ViewAt(ring, p, k);
    }
  }

  lemma ViewSet<T>(ring: seq<T>, p: nat, k: nat, x: T)
    requires p < |ring| && k < |ring|
    ensures View(ring[Slot(p, k, |ring|) := x], p) == View(ring, p)[k := x]
  {
    var n := |ring|;
    var v, w := View(ring[Slot(p, k, n) := x], p), View(ring, p)[k := x];
    forall j | 0 <= j < n
      ensures v[j] == w[j]
    {
      SlotInjective(p, j, k, n);
      ViewAt(ring, p, j);
      ViewAt(ring[Slot(p, k, n) := x], p, j);
    }
  }

  lemma ViewStep<T>(ring: seq<T>, p: nat)
    requires p < |ring|
    ensures View(ring, Inc(p, |ring|)) == View(ring, p)[1..] + [View(ring, p)[0]]
  {
    var n := |ring|;
    var v, w := View(ring, Inc(p, n)), View(ring, p)[1..] + [View(ring, p)[0]];
    forall j | 0 <= j < n
      ensures v[j] == w[j]
    {
      SlotStep(p, j, n);
      ViewAt(ring, p, if j + 1 < n then j + 1 else 0);
      ViewAt(ring, Inc(p, n), j);
    }
  }

  /** Concatenation of a sequence of sequences. */
  function Flatten<T>(ss: seq<seq<T>>): seq<T> {
    if ss == [] then [] else ss[0] + Flatten(ss[1..])
  }

  lemma {:induction false} FlattenAppend<T>(ss: seq<seq<T>>, ts: seq<seq<T>>)
    ensures Flatten(ss + ts) == Flatten(ss) + Flatten(ts)
  {
    if ss == [] {
      assert ss + ts == ts;
    } else {
      assert (ss + ts)[1..] == ss[1..] + ts;
      FlattenAppend(ss[1..], ts);
    }
  }

  lemma FlattenSnoc<T>(ss: seq<seq<T>>, i: nat)
    requires i < |ss|
    ensures Flatten(ss[..i + 1]) == Flatten(ss[..i]) + ss[i]
  {
    assert ss[..i + 1] == ss[..i] + [ss[i]];
    FlattenAppend(ss[..i], [ss[i]]);
  }

  /** What follows the last complete packet; `last` marks the final descriptor of a packet. */
  function Rest<T>(s: seq<T>, last: T -> bool): (t: seq<T>)
  {
    if s == [] then []
    else
      var n := |s| - 1;
      if last(s[n]) then [] else Rest(s[..n], last) + [s[n]]
  }

  /** The complete packets of a run of descriptors, in order. */
  function Packets<T>(s: seq<T>, last: T -> bool): (ps: seq<seq<T>>)
  {
    if s == [] then []
    else
      var n := |s| - 1;
      var ps := Packets(s[..n], last);
      if last(s[n]) then ps + [Rest(s[..n], last) + [s[n]]] else ps
  }

  /** One more descriptor either closes the open packet or lengthens it. */
  lemma {:induction false} PacketsSnoc<T>(s: seq<T>, last: T -> bool, x: T)
    ensures Packets(s + [x], last) ==
            if last(x) then Packets(s, last) + [Rest(s, last) + [x]] else Packets(s, last)
    ensures Rest(s + [x], last) == if last(x) then [] else Rest(s, last) + [x]
  {
    assert (s + [x])[..|s|] == s;
  }

  /** The open packet is the longest suffix without a final descriptor. */
  lemma {:induction false} RestIs<T>(s: seq<T>, last: T -> bool, k: nat)
    requires k <= |s| && forall i | k <= i < |s| :: !last(s[i])
    requires 0 < k ==> last(s[k - 1])
    ensures Rest(s, last) == s[k..]
  {
    if k < |s| {
      var n := |s| - 1;
      RestIs(s[..n], last, k);
      assert s[k..] == s[..n][k..] + [s[n]];
    }
  }

  lemma {:induction false} PacketsNone<T>(s: seq<T>, last: T -> bool)
    requires forall i | 0 <= i < |s| :: !last(s[i])
    ensures Packets(s, last) == []
  {
    if s != [] {
      PacketsNone(s[..|s| - 1], last);
    }
  }

  /** A run that closes its last packet splits independently of what follows it. */
  lemma {:induction false} PacketsAppend<T>(s: seq<T>, t: seq<T>, last: T -> bool)
    requires Rest(s, last) == []
    ensures Packets(s + t, last) == Packets(s, last) + Packets(t, last)
    ensures Rest(s + t, last) == Rest(t, last)
  {
    if t == [] {
      assert s + t == s;
    } else {
      var n := |t| - 1;
      assert s + t == (s + t[..n]) + [t[n]];
      PacketsSnoc(s + t[..n], last, t[n]);
      PacketsAppend(s, t[..n], last);
    }
  }

  /** Peels off the first packet. */
  lemma {:induction false} PacketsFirst<T>(s: seq<T>, last: T -> bool, k: nat)
    requires k < |s| && last(s[k]) && forall i | 0 <= i < k :: !last(s[i])
    ensures Packets(s, last) == [s[..k + 1]] + Packets(s[k + 1..], last)
    ensures Rest(s, last) == Rest(s[k + 1..], last)
  {
    var p := s[..k];
    assert s[..k + 1] == p + [s[k]] && s == s[..k + 1] + s[k + 1..];
    PacketsNone(p, last);
    RestIs(p, last, 0);
    PacketsSnoc(p, last, s[k]);
    PacketsAppend(s[..k + 1], s[k + 1..], last);
  }
}
