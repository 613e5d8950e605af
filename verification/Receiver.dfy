/** The receive half of the adapter: `lnc_rint` and `mbuf_packet` against a controller that
    may store descriptors between any two of the driver's accesses to the ring.
 */
module ReceiveEngine {
  import opened Descriptors
  import opened Rings
  import opened RxLayout

  class Receiver {
    // The ring and its interrupt flag, shared with the controller.
    const rx: array<RxDesc>
    var rint: bool

    // The controller: its place in the ring, the descriptors of the frame it is storing, and
    // the number of steps it takes before it falls silent.
    var cursor: nat
    var inFrame: nat
    var budget: nat

    // The driver.
    const mac: seq<byte>
    var recvNext: nat
    var inputQueue: seq<seq<byte>>
    var inputErrors: nat

    // The ring, and what became of every frame the controller has finished.
    ghost var q: RxQueue

    ghost predicate Valid()
      reads this, rx
    {
      && recvNext < rx.Length == |q.view|
      && q.view == View(rx[..], q.base)
      && cursor == Slot(q.base, q.host, rx.Length)
      && inFrame == |q.Open()|
    }

    /** No packet is half returned, and the stack has been given exactly what it is owed. */
    ghost predicate Settled()
      reads this
    {
      && q.skip == 0 && recvNext == q.base
      && inputQueue == Delivered(q.log, mac)
      && inputErrors == Damaged(q.log)
    }

    constructor (n: nat, mac: seq<byte>, budget: nat)
      requires 0 < n
      ensures Ready() && !rint && fresh(rx) && rx.Length == n
      ensures this.mac == mac && this.budget == budget && inputQueue == [] && q.arrivals == []
    {
      rx := new RxDesc[n](_ => BLANK);
      this.mac, this.budget := mac, budget;
      recvNext, cursor, inFrame, rint, inputQueue, inputErrors := 0, 0, 0, false, [], 0;
      q := Fresh(seq(n, _ => BLANK), []);
      new;
      ViewWhole(rx[..]);
      assert rx[..] == seq(n, _ => BLANK);
    }

    /** The receive side of `lnc_init`, and of the chip reset before it: frames still in the
        ring are lost. */
    method Init()
      requires Valid()
      modifies `cursor, `inFrame, `rint, `q, `recvNext, rx
      ensures Valid() && q.skip == 0 && recvNext == q.base && !rint
      ensures q.log == Abandoned(old(q)) && q.arrivals == old(q.arrivals)
      ensures forall i | 0 <= i < rx.Length :: rx[i].Blank() && rx[i].count == 0
      ensures Delivered(q.log, mac) == Delivered(old(q.log), mac) && Damaged(q.log) == Damaged(old(q.log))
    {
      Buffers();
      recvNext, cursor, inFrame, rint := 0, 0, 0, false;
      BlankAll();
      EnterLost();
    }

    /** The ring is the controller's, and what waited in it counts as lost. */
    ghost method EnterLost()
      requires 0 < rx.Length
      requires forall i | 0 <= i < rx.Length ::
                 rx[i].Blank() && rx[i].length == -BUFFER_SIZE && |rx[i].data| == BUFFER_SIZE
      modifies `q
      ensures q == Fresh(rx[..], Abandoned(old(q))) && q.view == View(rx[..], 0)
      ensures Delivered(q.log, mac) == Delivered(old(q.log), mac) && Damaged(q.log) == Damaged(old(q.log))
    {
      LostNothing(q.log, Abandoned(q), mac);
      ViewWhole(rx[..]);
      q := Fresh(rx[..], Abandoned(q));
    }

    method BlankAll()
      requires forall i | 0 <= i < rx.Length :: |rx[i].data| == BUFFER_SIZE
      modifies rx
      ensures forall i | 0 <= i < rx.Length :: rx[i].Blank() && rx[i].length == -BUFFER_SIZE && rx[i].count == 0
      ensures forall i | 0 <= i < rx.Length :: |rx[i].data| == BUFFER_SIZE
    {
      for i := 0 to rx.Length
        invariant forall j | 0 <= j < rx.Length :: |rx[j].data| == BUFFER_SIZE
        invariant forall j | 0 <= j < i :: rx[j].Blank() && rx[j].length == -BUFFER_SIZE && rx[j].count == 0
      {
        rx[i] := rx[i].Returned().(length := -BUFFER_SIZE, count := 0);
      }
    }

    lemma Buffers()
      requires Valid()
      ensures forall i | 0 <= i < rx.Length :: |rx[i].data| == BUFFER_SIZE
    {
      forall i | 0 <= i < rx.Length
        ensures |rx[i].data| == BUFFER_SIZE
      {
        var k := if q.base <= i then i - q.base else i + rx.Length - q.base;
        ViewAt(rx[..], q.base, k);
        assert |q.view[k].data| == BUFFER_SIZE;
      }
    }

    /** A write to the `k`-th descriptor of the view. */
    method Put(i: nat, ghost k: nat, d: RxDesc, ghost to: RxQueue)
      requires Valid() && k < rx.Length && i == Slot(q.base, k, rx.Length)
      requires to.view == q.view[k := d] && to.base == q.base
      modifies rx, `q
      ensures q == to && q.view == View(rx[..], q.base)
    {
      ghost var ring := rx[..];
      ViewSet(ring, q.base, k, d);
      rx[i] := d;
      assert rx[..] == ring[i := d];
      q := to;
    }

    lemma AtCursor()
      requires Valid()
      ensures rx[cursor].own ==> q.host < rx.Length && q.view[q.host] == rx[cursor]
    {
      ViewAt(rx[..], q.base, if q.host < rx.Length then q.host else 0);
    }

    /** The controller finds its descriptor owned and stores one chunk, or does nothing. */
    method ControllerStep(c: Chunk)
      requires Valid()
      modifies `cursor, `inFrame, `rint, `q, rx
      ensures Valid() && old(q).Leads(q)
      ensures old(rint) ==> rint
      ensures rint && !old(rint) ==> q.HasPacket()
    {
      if rx[cursor].own && c.Proper(inFrame, rx.Length) {
        rint := rint || c.Last();
        StoreChunk(c);
      }
    }

    method StoreChunk(c: Chunk)
      requires Valid() && rx[cursor].own && c.Proper(inFrame, rx.Length)
      modifies `cursor, `inFrame, `q, rx
      ensures Valid() && old(q).Leads(q)
      ensures c.Last() || old(q.HasPacket()) ==> q.HasPacket()
    {
      AtCursor();
      SlotStep(q.base, q.host, rx.Length);
      ghost var to := Store(q, c);
      LeadsStill(q, q, to);
      Put(cursor, q.host, c.Write(inFrame, rx[cursor].length), to);
      cursor, inFrame := Inc(cursor, rx.Length), if c.Last() then 0 else inFrame + 1;
    }

    /** Any number of controller steps. */
    method Controller()
      requires Valid()
      modifies `cursor, `inFrame, `rint, `q, `budget, rx
      ensures Valid() && old(q).Leads(q)
      ensures budget <= old(budget) && (budget == old(budget) ==> q == old(q) && rint == old(rint))
      ensures old(rint) ==> rint
      ensures rint && !old(rint) ==> q.HasPacket()
    {
      while *
        invariant Valid() && old(q).Leads(q)
        invariant budget <= old(budget) && (budget == old(budget) ==> q == old(q) && rint == old(rint))
        invariant old(rint) ==> rint
        invariant rint && !old(rint) ==> q.HasPacket()
        decreases budget
      {
        if budget == 0 { break; }
        var c: Chunk := *;
        ControllerNext(c, old(q));
      }
    }

    method ControllerNext(c: Chunk, ghost q0: RxState)
      requires Valid() && 0 < budget && q0.Leads(q)
      modifies `cursor, `inFrame, `rint, `q, `budget, rx
      ensures Valid() && q0.Leads(q) && budget == old(budget) - 1
      ensures old(rint) ==> rint
      ensures rint ==> old(rint) || q.HasPacket()
      ensures old(q).HasPacket() ==> q.HasPacket()
    {
      budget := budget - 1;
      ghost var q1 := q;
      ControllerStep(c);
      LeadsStill(q0, q1, q);
    }

    /** The driver reads a descriptor; the controller may have run since its last access. */
    method Read(i: nat, ghost k: nat) returns (d: RxDesc)
      requires Valid() && k < rx.Length && i == Slot(q.base, k, rx.Length)
      modifies `cursor, `inFrame, `rint, `q, `budget, rx
      ensures Valid() && old(q).Leads(q)
      ensures budget <= old(budget) && (budget == old(budget) ==> q == old(q))
      ensures old(rint) ==> rint
      ensures d == q.view[k]
    {
      Controller();
      d := rx[i];
      ViewAt(rx[..], q.base, k);
    }

    /** Sets the status of the oldest descriptor of a taken packet to RMD_OWN. */
    method Return(i: nat)
      requires Valid() && 0 < q.skip && i == q.base
      modifies `q, rx
      ensures Valid() && q == GiveBack(old(q))
    {
      ghost var ring, d, n := rx[..], q.view[0].Returned(), rx.Length;
      ViewSet(ring, q.base, 0, d);
      ViewStep(ring[i := d], q.base);
      SlotStep(q.base, q.host - 1, n);
      ViewAt(ring, q.base, 0);
      rx[i] := rx[i].Returned();
      assert rx[..] == ring[i := d];
      q := GiveBack(q);
    }

    /** Rewrites a length that already holds the buffer size. */
    method WriteLength(i: nat, ghost k: nat)
      requires Valid() && k < rx.Length && i == Slot(q.base, k, rx.Length)
      modifies rx
      ensures Valid()
    {
      ghost var ring := rx[..];
      ViewAt(ring, q.base, k);
      rx[i] := rx[i].(length := -BUFFER_SIZE);
      assert rx[..] == ring;
    }

    /** Without an end so far, the search has not come round to its start. */
    lemma RoomAhead(k: nat)
      requires q.skip == 0 && k < q.host && q.Searched(k) && !q.view[k].Ends()
      ensures k + 1 < |q.view| && q.Searched(k + 1)
    {
    }

    /** Steps to the next descriptor of a packet and reads it. */
    method Advance(ghost k: nat) returns (flags: RxDesc)
      requires Valid() && q.skip == 0 && q.Searched(k) && 0 < k < rx.Length
      requires recvNext == Slot(q.base, k - 1, rx.Length)
      modifies `cursor, `inFrame, `rint, `q, `budget, `recvNext, rx
      ensures Valid() && old(q).Leads(q)
      ensures budget <= old(budget) && (budget == old(budget) ==> q == old(q))
      ensures old(rint) ==> rint
      ensures recvNext == Slot(q.base, k, rx.Length) && q.Searched(k)
      ensures flags == q.view[k]
    {
      ghost var q0 := q;
      SlotStep(q.base, k - 1, rx.Length);
      recvNext := Inc(recvNext, rx.Length);
      flags := Read(recvNext, k);
      LeadsOn(q0, q0, q, k);
    }

    /** Reads on from a packet's first descriptor to one that ends it, starts another or is
        the controller's. */
    method Scan(first: RxDesc) returns (flags: RxDesc, ghost k: nat)
      requires Valid() && q.skip == 0 && recvNext == q.base
      requires 0 < q.host && q.view[0] == first && !first.Ends()
      modifies `cursor, `inFrame, `rint, `q, `budget, `recvNext, rx
      ensures Valid() && old(q).Leads(q)
      ensures budget <= old(budget) && (budget == old(budget) ==> q == old(q))
      ensures old(rint) ==> rint
      ensures 0 < k < rx.Length && recvNext == Slot(q.base, k, rx.Length) && q.Searched(k)
      ensures flags == q.view[k] && (flags.stp || flags.own || flags.Ends())
    {
      k, flags := 0, first;
      var more := true;
      while more
        invariant Scanning(k, flags, more, old(q), old(budget), old(rint)) && k < rx.Length
        decreases rx.Length - k, more
      {
        more, flags, k := ScanNext(flags, k, old(q), old(budget), old(rint));
      }
    }

    /** The search has read descriptor `k` since `was`; unless `more`, it stops there. */
    ghost predicate Scanning(k: nat, flags: RxDesc, more: bool, was: RxState, b: nat, raised: bool)
      reads this, rx
    {
      && Valid() && q.skip == 0 && was.Leads(q) && budget <= b && (budget == b ==> q == was) && (raised ==> rint)
      && k < rx.Length && recvNext == Slot(q.base, k, rx.Length) && q.Searched(k) && flags == q.view[k]
      && if more then k < q.host && !flags.Ends() else 0 < k && (flags.stp || flags.own || flags.Ends())
    }

    method ScanNext(seen: RxDesc, ghost k: nat, ghost was: RxState, ghost b: nat, ghost raised: bool)
      returns (more: bool, flags: RxDesc, ghost k': nat)
      requires Scanning(k, seen, true, was, b, raised)
      modifies `cursor, `inFrame, `rint, `q, `budget, `recvNext, rx
      ensures Scanning(k', flags, more, was, b, raised) && k < k'
    {
      RoomAhead(k);
      k' := k + 1;
      ghost var q1 := q;
      flags := Advance(k');
      LeadsStill(was, q1, q);
      more := !flags.stp && !flags.own && !flags.enp && !flags.err;
    }

    /** The descriptor a search stops at continues the packet; if it is the controller's, no
        packet is complete. */
    lemma StopsInside(k: nat)
      requires q.skip == 0 && q.Searched(k) && 0 < k < |q.view|
      ensures !q.view[k].stp
      ensures q.view[k].own ==> !q.HasPacket()
      ensures !q.view[k].own ==> k < q.host
    {
      assert k < q.host ==> Joined(q.view, k);
    }

    /** Searches from the start of a packet for its last descriptor. The branches on which
        the source reports lost synchronisation and resets cannot be taken. */
    method FindEnd(first: RxDesc, lookahead: nat) returns (found: bool, flags: RxDesc, ghost k: nat)
      requires Valid() && q.skip == 0 && recvNext == q.base
      requires 0 < q.host && q.view[0] == first
      requires lookahead == 0 ==> q.HasPacket()
      modifies `cursor, `inFrame, `rint, `q, `budget, `recvNext, rx
      ensures Valid() && old(q).Leads(q)
      ensures budget <= old(budget) && (budget == old(budget) ==> q == old(q))
      ensures old(rint) ==> rint
      ensures found ==> k < q.host && q.Searched(k) && q.view[k] == flags && flags.Ends()
      ensures found ==> recvNext == Slot(q.base, k, rx.Length)
      ensures !found ==> recvNext == q.base && !q.HasPacket()
    {
      var startOfPacket := recvNext;
      flags, k, found := first, 0, true;
      if !flags.enp && !flags.err {
        flags, k := Scan(first);
        StopsInside(k);
        if flags.stp {
          assert false;    // start of packet found before end of previous
        }
        if flags.own {
          found := false;
          if lookahead == 0 {
            assert false;  // end of received packet not found
          }
          recvNext := startOfPacket;
        }
      }
    }

    /** The descriptors still to be given back are the end of the taken packet `f`. */
    ghost predicate Returning(f: seq<RxDesc>, first: nat)
      reads this, rx
    {
      && Valid()
      && first == q.base && q.skip < rx.Length && recvNext == Slot(q.base, q.skip, rx.Length)
      && LeftOf(f, q.view, q.skip)
    }

    /** Controller steps between two accesses to a taken packet. */
    method Pause(ghost f: seq<RxDesc>, first: nat)
      requires Returning(f, first)
      modifies `cursor, `inFrame, `rint, `q, `budget, rx
      ensures Returning(f, first) && q.skip == old(q.skip) && q.log == old(q.log)
      ensures budget <= old(budget) && (budget == old(budget) ==> q.host == old(q.host))
      ensures old(rint) ==> rint
      ensures old(q.arrivals) <= q.arrivals
    {
      Controller();
      LeftStill(f, old(q), q);
    }

    /** Gives the oldest descriptor of a taken packet back and moves on to the next. */
    method ReturnNext(ghost f: seq<RxDesc>, first: nat) returns (next: nat)
      requires Returning(f, first) && 0 < q.skip
      modifies `q, rx
      ensures Returning(f, next) && q.skip == old(q.skip) - 1 && q.log == old(q.log)
      ensures q.host == old(q.host) - 1 && first == Slot(next, rx.Length - 1, rx.Length)
      ensures q.arrivals == old(q.arrivals)
    {
      SlotStep(q.base, q.skip - 1, rx.Length);
      GiveBackRest(q.view, q.skip, q.view[0].Returned(), f);
      Return(first);
      next := Inc(first, rx.Length);
    }

    /** Gives every descriptor of a damaged packet back. */
    method Drop(ghost f: seq<RxDesc>, first: nat)
      requires Returning(f, first)
      modifies `cursor, `inFrame, `rint, `q, `budget, rx
      ensures Valid() && q.skip == 0 && q.base == recvNext && q.log == old(q.log)
      ensures budget <= old(budget)
      ensures budget == old(budget) ==> q.host == old(q.host) - old(q.skip)
      ensures old(rint) ==> rint
      ensures old(q.arrivals) <= q.arrivals
    {
      var startOfPacket := first;
      while startOfPacket != recvNext
        invariant Returning(f, startOfPacket) && q.log == old(q.log)
        invariant budget <= old(budget)
        invariant budget == old(budget) ==> q.host - q.skip == old(q.host) - old(q.skip)
        invariant old(rint) ==> rint
        invariant old(q.arrivals) <= q.arrivals
        decreases q.skip
      {
        startOfPacket := DropOne(f, startOfPacket);
      }
    }

    method DropOne(ghost f: seq<RxDesc>, first: nat) returns (next: nat)
      requires Returning(f, first) && 0 < q.skip
      modifies `cursor, `inFrame, `rint, `q, `budget, rx
      ensures Returning(f, next) && q.skip == old(q.skip) - 1 && q.log == old(q.log)
      ensures budget <= old(budget) && (budget == old(budget) ==> q.host == old(q.host) - 1)
      ensures old(rint) ==> rint
      ensures old(q.arrivals) <= q.arrivals
    {
      Pause(f, first);
      WriteLength(first, 0);
      next := PauseAndReturn(f, first);
    }

    method PauseAndReturn(ghost f: seq<RxDesc>, first: nat) returns (next: nat)
      requires Returning(f, first) && 0 < q.skip
      modifies `cursor, `inFrame, `rint, `q, `budget, rx
      ensures Returning(f, next) && q.skip == old(q.skip) - 1 && q.log == old(q.log)
      ensures budget <= old(budget) && (budget == old(budget) ==> q.host == old(q.host) - 1)
      ensures old(rint) ==> rint
      ensures old(q.arrivals) <= q.arrivals && first == Slot(next, rx.Length - 1, rx.Length)
    {
      Pause(f, first);
      next := ReturnNext(f, first);
    }

    /** Reads a buffer of a taken packet. */
    method ReadBuffer(ghost f: seq<RxDesc>, first: nat) returns (data: seq<byte>)
      requires Returning(f, first) && 0 < q.skip
      modifies `cursor, `inFrame, `rint, `q, `budget, rx
      ensures Returning(f, first) && q.skip == old(q.skip) && q.log == old(q.log)
      ensures budget <= old(budget) && (budget == old(budget) ==> q.host == old(q.host))
      ensures old(rint) ==> rint
      ensures data == f[|f| - q.skip].data && |data| == BUFFER_SIZE
      ensures old(q.arrivals) <= q.arrivals
    {
      Pause(f, first);
      data := rx[first].data;
      ViewAt(rx[..], q.base, 0);
    }

    /** The order `mbuf_packet` uses: the length is rewritten after ownership has passed. */
    method ReturnBuffer(ghost f: seq<RxDesc>, first: nat) returns (next: nat)
      requires Returning(f, first) && 0 < q.skip
      modifies `cursor, `inFrame, `rint, `q, `budget, rx
      ensures Returning(f, next) && q.skip == old(q.skip) - 1 && q.log == old(q.log)
      ensures budget <= old(budget) && (budget == old(budget) ==> q.host == old(q.host) - 1)
      ensures old(rint) ==> rint
      ensures old(q.arrivals) <= q.arrivals
    {
      next := PauseAndReturn(f, first);
      Pause(f, next);
      WriteLength(first, rx.Length - 1);
    }

    /** Copies one buffer, or as much of it as the packet still needs, and gives it back. */
    method CopyBuffer(ghost f: seq<RxDesc>, first: nat, sofar: seq<byte>, left: nat)
      returns (pkt: seq<byte>, remaining: nat, next: nat)
      requires Returning(f, first) && 0 < q.skip
      requires Copied(sofar, f[..|f| - q.skip], |sofar| + left)
      modifies `cursor, `inFrame, `rint, `q, `budget, rx
      ensures Returning(f, next) && q.skip == old(q.skip) - 1 && q.log == old(q.log)
      ensures budget <= old(budget) && (budget == old(budget) ==> q.host == old(q.host) - 1)
      ensures old(rint) ==> rint
      ensures |pkt| + remaining == |sofar| + left
      ensures Copied(pkt, f[..|f| - q.skip], |pkt| + remaining)
      ensures old(q.arrivals) <= q.arrivals
    {
      var blen;
      var data := ReadBuffer(f, first);
      pkt, remaining, blen := CopyPart(f, |f| - q.skip, sofar, data, left);
      next := first;
      if blen == 0 {
        next := ReturnBuffer(f, first);
      }
    }

    /** Appends one buffer, or as much of it as is left to copy; `blen` is what is then left of
        that part. */
    static method CopyPart(ghost f: seq<RxDesc>, ghost i: nat, sofar: seq<byte>, data: seq<byte>, left: nat)
      returns (pkt: seq<byte>, remaining: nat, blen: nat)
      requires i < |f| && data == f[i].data && |data| == BUFFER_SIZE
      requires Copied(sofar, f[..i], |sofar| + left)
      ensures |pkt| + remaining == |sofar| + left && blen == 0
      ensures Copied(pkt, f[..i + 1], |pkt| + remaining)
    {
      CopyOne(sofar, f, i, |sofar| + left);
      blen := BUFFER_SIZE;
      if left < blen { blen := left; }
      var amount := blen;
      pkt := sofar + data[..amount];
      blen, remaining := blen - amount, left - amount;
    }

    /** Copies a packet out of its buffers, giving each descriptor back as it goes. */
    method MbufPacket(ghost f: seq<RxDesc>, first: nat, pktLen: nat) returns (pkt: seq<byte>)
      requires Returning(f, first) && q.skip == |f| && pktLen <= |f| * BUFFER_SIZE
      modifies `cursor, `inFrame, `rint, `q, `budget, rx
      ensures Valid() && q.skip == 0 && q.base == recvNext && q.log == old(q.log)
      ensures budget <= old(budget)
      ensures budget == old(budget) ==> q.host == old(q.host) - old(q.skip)
      ensures old(rint) ==> rint
      ensures pktLen <= |Bytes(f)| && pkt == Bytes(f)[..pktLen]
      ensures old(q.arrivals) <= q.arrivals
    {
      var startOfPacket, left := first, pktLen;
      pkt := [];
      assert f[..0] == [];
      while startOfPacket != recvNext
        invariant Returning(f, startOfPacket) && q.log == old(q.log)
        invariant budget <= old(budget)
        invariant budget == old(budget) ==> q.host - q.skip == old(q.host) - old(q.skip)
        invariant old(rint) ==> rint
        invariant |pkt| + left == pktLen && Copied(pkt, f[..|f| - q.skip], pktLen)
        invariant old(q.arrivals) <= q.arrivals
        decreases q.skip
      {
        pkt, left, startOfPacket := CopyBuffer(f, startOfPacket, pkt, left);
      }
      assert f[..|f|] == f;
    }

    /** `Settled` while `recvNext` is ahead, looking for the end of a packet. */
    ghost predicate Searching(startOfPacket: nat)
      reads this
    {
      && q.skip == 0 && startOfPacket == q.base
      && inputQueue == Delivered(q.log, mac)
      && inputErrors == Damaged(q.log)
    }

    /** The message length masked to 12 bits, less the check sequence, as a UInt16. */
    static function PacketLength(count: nat): (n: nat)
      ensures CRC_LENGTH <= count <= COUNT_MASK ==> n == count - CRC_LENGTH
    {
      (count % (COUNT_MASK + 1) - CRC_LENGTH) % 0x1_0000
    }

    /** Reads the last descriptor of a packet again, for its message length. */
    method ReadLast(ghost k: nat) returns (d: RxDesc)
      requires Valid() && k < q.host && q.Searched(k) && recvNext == Slot(q.base, k, rx.Length)
      modifies `cursor, `inFrame, `rint, `q, `budget, rx
      ensures Valid() && q.base == old(q.base) && q.skip == old(q.skip) && q.log == old(q.log)
      ensures k < q.host && q.Searched(k) && d == q.view[k] == old(q.view)[k]
      ensures budget <= old(budget) && (budget == old(budget) ==> q.host == old(q.host))
      ensures old(q.arrivals) <= q.arrivals
    {
      ghost var q0 := q;
      d := Read(recvNext, k);
      LeadsOn(q0, q0, q, k);
    }

    /** Takes the packet whose last descriptor was found, and reads its length. */
    method TakePacket(startOfPacket: nat, ghost k: nat) returns (pktLen: nat, ghost f: seq<RxDesc>)
      requires Valid() && q.skip == 0 && startOfPacket == q.base
      requires k < q.host && q.Searched(k) && q.view[k].Ends()
      requires recvNext == Slot(q.base, k, rx.Length)
      modifies `cursor, `inFrame, `rint, `q, `budget, `recvNext, rx
      ensures Returning(f, startOfPacket) && q.skip == |f|
      ensures Measured(f) && f[|f| - 1] == old(q.view)[k]
      ensures q.log == old(q.log) + [Handled(Meaning(f), true)]
      ensures budget <= old(budget) && (budget == old(budget) ==> q.host == old(q.host))
      ensures !f[|f| - 1].err ==> pktLen == f[|f| - 1].count - CRC_LENGTH
      ensures old(q.arrivals) <= q.arrivals
    {
      var desc := ReadLast(k);
      pktLen := PacketLength(desc.count);
      f := StepPast(k);
    }

    /** Moves on to the start of the next packet; the one found counts as taken. */
    method StepPast(ghost k: nat) returns (ghost f: seq<RxDesc>)
      requires Valid() && q.skip == 0 && k < q.host && q.Searched(k) && q.view[k].Ends()
      requires recvNext == Slot(q.base, k, rx.Length)
      modifies `q, `recvNext
      ensures Returning(f, old(q.base)) && q.skip == |f| && q.host == old(q.host)
      ensures Measured(f) && f[|f| - 1] == old(q.view)[k]
      ensures q.log == old(q.log) + [Handled(Meaning(f), true)] && q.arrivals == old(q.arrivals)
    {
      SlotStep(q.base, k, rx.Length);
      recvNext := Inc(recvNext, rx.Length);
      f := EnterTaken(k);
    }

    ghost method EnterTaken(k: nat) returns (f: seq<RxDesc>)
      requires Valid() && q.skip == 0 && k < q.host && q.Searched(k) && q.view[k].Ends()
      requires recvNext < rx.Length && recvNext == Slot(q.base, k + 1, rx.Length)
      modifies `q
      ensures Returning(f, old(q.base)) && q.skip == |f| && q.host == old(q.host)
      ensures Measured(f) && f[|f| - 1] == old(q.view)[k]
      ensures q.log == old(q.log) + [Handled(Meaning(f), true)] && q.arrivals == old(q.arrivals)
    {
      f := q.view[..k + 1];
      q := Take(q, k);
    }

    /** Everything but the packet `f`, just taken, has been dealt with. */
    ghost predicate Owes(f: seq<RxDesc>)
      reads this
    {
      && Delivered(q.log, mac) == inputQueue + Passed(Meaning(f), mac)
      && Damaged(q.log) == inputErrors + if Meaning(f).Bad? then 1 else 0
    }

    /** Takes a packet, which the stack, or the error count, is then owed. */
    method TakeOwed(startOfPacket: nat, ghost k: nat) returns (pktLen: nat, ghost f: seq<RxDesc>)
      requires Valid() && Searching(startOfPacket)
      requires k < q.host && q.Searched(k) && q.view[k].Ends()
      requires recvNext == Slot(q.base, k, rx.Length)
      modifies `cursor, `inFrame, `rint, `q, `budget, `recvNext, rx
      ensures Returning(f, startOfPacket) && q.skip == |f|
      ensures Measured(f) && f[|f| - 1] == old(q.view)[k] && Owes(f)
      ensures TakenOn(old(q.log), q.log) && |q.log| == |old(q.log)| + 1
      ensures budget <= old(budget) && (budget == old(budget) ==> q.host == old(q.host))
      ensures !f[|f| - 1].err ==> pktLen == f[|f| - 1].count - CRC_LENGTH
      ensures old(q.arrivals) <= q.arrivals
    {
      ghost var log := q.log;
      pktLen, f := TakePacket(startOfPacket, k);
      Owing(log, f);
    }

    lemma Owing(log: seq<Handled>, f: seq<RxDesc>)
      requires Measured(f) && q.log == log + [Handled(Meaning(f), true)]
      requires inputQueue == Delivered(log, mac) && inputErrors == Damaged(log)
      ensures Owes(f) && TakenOn(log, q.log) && |q.log| == |log| + 1
    {
      LogSnoc(log, Handled(Meaning(f), true), mac);
      TakenOne(log, Meaning(f));
    }

    /** Copies a taken packet and gives it to the stack unless we sent it ourselves. */
    method PassOn(ghost f: seq<RxDesc>, startOfPacket: nat, pktLen: nat) returns (queued: bool)
      requires Returning(f, startOfPacket) && q.skip == |f|
      requires Measured(f) && !f[|f| - 1].err && pktLen == f[|f| - 1].count - CRC_LENGTH
      requires Owes(f)
      modifies `cursor, `inFrame, `rint, `q, `budget, `inputQueue, rx
      ensures Valid() && Settled() && q.log == old(q.log)
      ensures budget <= old(budget)
      ensures budget == old(budget) ==> q.host == old(q.host) - |f|
      ensures old(inputQueue) <= inputQueue && (queued <==> |inputQueue| > |old(inputQueue)|)
      ensures old(q.arrivals) <= q.arrivals
    {
      PassedIs(f, mac);
      var pkt := MbufPacket(f, startOfPacket, pktLen);
      queued := pkt[ADDRESS_LENGTH..2 * ADDRESS_LENGTH] != mac;
      if queued {
        inputQueue := inputQueue + [pkt];
      }
    }

    /** Counts a damaged packet and returns it. */
    method Discard(ghost f: seq<RxDesc>, startOfPacket: nat)
      requires Returning(f, startOfPacket) && q.skip == |f| && f != [] && f[|f| - 1].err
      requires Owes(f)
      modifies `cursor, `inFrame, `rint, `q, `budget, `inputErrors, rx
      ensures Valid() && Settled() && q.log == old(q.log)
      ensures budget <= old(budget)
      ensures budget == old(budget) ==> q.host == old(q.host) - |f|
      ensures old(q.arrivals) <= q.arrivals
    {
      inputErrors := inputErrors + 1;
      Drop(f, startOfPacket);
    }

    /** One pass of the receive loop, from the end of a packet to the start of the next. */
    method Accept(startOfPacket: nat, flags: RxDesc, ghost k: nat) returns (queued: bool)
      requires Valid() && Searching(startOfPacket)
      requires k < q.host && q.Searched(k) && q.view[k] == flags && flags.Ends()
      requires recvNext == Slot(q.base, k, rx.Length)
      modifies `cursor, `inFrame, `rint, `q, `budget, `recvNext, `inputQueue, `inputErrors, rx
      ensures Valid() && Settled()
      ensures budget <= old(budget) && (budget == old(budget) ==> q.host < old(q.host))
      ensures TakenOn(old(q.log), q.log) && |q.log| == |old(q.log)| + 1
      ensures old(inputQueue) <= inputQueue && (queued <==> |inputQueue| > |old(inputQueue)|)
      ensures old(q.arrivals) <= q.arrivals
    {
      var pktLen, f := TakeOwed(startOfPacket, k);
      if flags.err {
        queued := false;
        Discard(f, startOfPacket);
      } else {
        queued := PassOn(f, startOfPacket, pktLen);
      }
    }

    /** Deals with a packet and reads the status of the descriptor after it. */
    method AcceptNext(startOfPacket: nat, last: RxDesc, ghost k: nat) returns (queued: bool, flags: RxDesc)
      requires Valid() && Searching(startOfPacket)
      requires k < q.host && q.Searched(k) && q.view[k] == last && last.Ends()
      requires recvNext == Slot(q.base, k, rx.Length)
      modifies `cursor, `inFrame, `rint, `q, `budget, `recvNext, `inputQueue, `inputErrors, rx
      ensures Valid() && Settled() && flags == q.view[0]
      ensures budget <= old(budget) && (budget == old(budget) ==> q.host < old(q.host))
      ensures TakenOn(old(q.log), q.log) && |q.log| == |old(q.log)| + 1
      ensures old(inputQueue) <= inputQueue && (queued <==> |inputQueue| > |old(inputQueue)|)
      ensures old(q.arrivals) <= q.arrivals
    {
      queued := Accept(startOfPacket, last, k);
      flags := Read(recvNext, 0);
    }

    /** Finds the end of the packet at `recvNext`, deals with it, and reads the status of the
        descriptor after it. */
    method Receive(first: RxDesc, lookahead: nat) returns (found: bool, queued: bool, flags: RxDesc)
      requires Valid() && Settled() && first == q.view[0] && first.stp
      requires lookahead == 0 ==> q.HasPacket()
      modifies `cursor, `inFrame, `rint, `q, `budget, `recvNext, `inputQueue, `inputErrors, rx
      ensures Valid() && Settled() && flags == q.view[0]
      ensures budget <= old(budget)
      ensures budget < old(budget) || q.host < old(q.host) || (!found && q.host == old(q.host))
      ensures TakenOn(old(q.log), q.log) && |q.log| == |old(q.log)| + if found then 1 else 0
      ensures old(inputQueue) <= inputQueue && (queued <==> |inputQueue| > |old(inputQueue)|)
      ensures !found ==> 0 < lookahead && !q.HasPacket()
      ensures old(q.arrivals) <= q.arrivals
    {
      var startOfPacket := recvNext;
      var complete, last, k := FindEnd(first, lookahead);
      found := complete;
      if found {
        queued, flags := AcceptNext(startOfPacket, last, k);
      } else {
        queued, flags := false, first;
      }
    }

    /** Where no packet starts, none is waiting. */
    lemma Drained()
      requires Valid() && q.skip == 0 && !q.view[0].stp
      ensures !q.HasPacket()
    {
    }

    /** The two checks on entry that a debugging build makes. */
    method CheckEntry()
      requires Valid() && Settled() && q.HasPacket()
      modifies `cursor, `inFrame, `rint, `q, `budget, rx
      ensures Valid() && Settled() && q.HasPacket() && old(q).Leads(q)
      ensures budget <= old(budget) && (budget == old(budget) ==> q == old(q))
    {
      ghost var q0 := q;
      CheckOwn();
      ghost var q1 := q;
      CheckStart();
      LeadsOn(q0, q1, q, 0);
    }

    method CheckOwn()
      requires Valid() && Settled() && q.HasPacket()
      modifies `cursor, `inFrame, `rint, `q, `budget, rx
      ensures Valid() && Settled() && q.HasPacket() && old(q).Leads(q)
      ensures budget <= old(budget) && (budget == old(budget) ==> q == old(q))
    {
      var d := Read(recvNext, 0);
      if d.own {
        assert false;      // receive interrupt with buffer still owned by controller
      }
    }

    method CheckStart()
      requires Valid() && Settled() && q.HasPacket()
      modifies `cursor, `inFrame, `rint, `q, `budget, rx
      ensures Valid() && Settled() && q.HasPacket() && old(q).Leads(q)
      ensures budget <= old(budget) && (budget == old(budget) ==> q == old(q))
    {
      var d := Read(recvNext, 0);
      if !d.stp {
        assert false;      // receive interrupt but not start of packet
      }
    }

    /** The entry checks, and the first reading of a status word. */
    method Enter() returns (flags: RxDesc)
      requires Valid() && Settled() && q.HasPacket()
      modifies `cursor, `inFrame, `rint, `q, `budget, rx
      ensures Valid() && Settled() && q.HasPacket() && flags == q.view[0]
      ensures budget <= old(budget) && (budget == old(budget) ==> q == old(q))
      ensures q.log == old(q.log) && old(q.arrivals) <= q.arrivals
    {
      CheckEntry();
      flags := Read(recvNext, 0);
    }

    /** Since `was` only packets have been taken, `some` of them, and `queued` tells whether the
        input queue has grown from `held`. */
    ghost predicate Taking(was: RxState, held: seq<seq<byte>>, queued: bool, some: bool)
      reads this
    {
      && TakenOn(was.log, q.log) && (some ==> |was.log| < |q.log|)
      && was.arrivals <= q.arrivals
      && held <= inputQueue && (queued <==> |held| < |inputQueue|)
    }

    /** One turn of the receive loop. */
    method Turn(first: RxDesc, lookahead: nat, sofar: bool, ghost was: RxState, ghost held: seq<seq<byte>>)
      returns (found: bool, queued: bool, flags: RxDesc)
      requires Valid() && Settled() && first == q.view[0] && first.stp
      requires Taking(was, held, sofar, 0 < lookahead) && (lookahead == 0 ==> q.HasPacket())
      modifies `cursor, `inFrame, `rint, `q, `budget, `recvNext, `inputQueue, `inputErrors, rx
      ensures Valid() && Settled() && flags == q.view[0]
      ensures Taking(was, held, queued, true)
      ensures budget <= old(budget)
      ensures budget < old(budget) || q.host < old(q.host) || (!found && q.host == old(q.host))
      ensures !found ==> 0 < lookahead && !q.HasPacket()
    {
      var handed;
      found, handed, flags := Receive(first, lookahead);
      queued := sofar || handed;
    }

    /** The receive loop: it ends when no complete packet is left. */
    method ReceiveAll(first: RxDesc, ghost was: RxState, ghost held: seq<seq<byte>>) returns (queued: bool)
      requires Valid() && Settled() && q.HasPacket() && first == q.view[0]
      requires Taking(was, held, false, false)
      modifies `cursor, `inFrame, `rint, `q, `budget, `recvNext, `inputQueue, `inputErrors, rx
      ensures Valid() && Settled() && !q.HasPacket() && Taking(was, held, queued, true)
      ensures budget <= old(budget)
    {
      queued := false;
      var lookahead, flags, found := 0, first, true;
      while flags.stp && found
        invariant Valid() && Settled() && flags == q.view[0]
        invariant Taking(was, held, queued, 0 < lookahead)
        invariant budget <= old(budget)
        invariant lookahead == 0 ==> q.HasPacket()
        invariant !found ==> 0 < lookahead && !q.HasPacket()
        decreases budget, q.host, found
      {
        found, queued, flags := Turn(flags, lookahead, queued, was, held);
        if found { lookahead := lookahead + 1; }
      }
      if !flags.stp {
        Drained();
      }
    }

    /** `lnc_rint`: every frame that had arrived on entry has been dealt with on return. */
    method LncRint() returns (queued: bool)
      requires Valid() && Settled() && q.HasPacket()
      modifies `cursor, `inFrame, `rint, `q, `budget, `recvNext, `inputQueue, `inputErrors, rx
      ensures Valid() && Settled() && !rint && budget <= old(budget)
      ensures old(q.arrivals) <= Arrivals(q.log)
      ensures Taking(old(q), old(inputQueue), queued, true)
    {
      var flags := Enter();
      queued := ReceiveAll(flags, old(q), old(inputQueue));
      NoneWaiting(q);
      Acknowledge();
    }

    /** Between interrupts: RINT means a complete packet at `recvNext`. */
    ghost predicate Ready()
      reads this, rx
    {
      Valid() && Settled() && (rint ==> q.HasPacket())
    }

    /** Controller steps while the driver is elsewhere. */
    method Background()
      requires Ready()
      modifies `cursor, `inFrame, `rint, `q, `budget, rx
      ensures Ready() && old(q).Leads(q)
      ensures old(rint) ==> rint
      ensures old(q.HasPacket()) ==> q.HasPacket()
      ensures budget <= old(budget) && (budget == old(budget) ==> rint == old(rint) && q == old(q))
    {
      Controller();
    }

    /** Part of the write that acknowledges what the handler read from CSR0. */
    method ClearRint()
      requires Ready()
      modifies `rint
      ensures Ready() && !rint
    {
      rint := false;
    }

    /** The write that clears RINT. */
    method Acknowledge()
      requires Valid() && Settled()
      modifies `cursor, `inFrame, `rint, `q, `budget, rx
      ensures Valid() && Settled() && !rint && old(q).Leads(q)
      ensures budget <= old(budget) && (budget == old(budget) ==> q == old(q))
    {
      Controller();
      rint := false;
    }
  }
}
