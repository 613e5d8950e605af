/** How `lnc_init` carves up the memory that `lnc_pci_attach` asks for. */
module MemoryMap {
  import Descriptors

  const RING_ENTRY := 8       // sizeof(struct host_ring_entry)
  const INIT_BLOCK := 28      // sizeof(struct pcnet32_init_block)
  const DESCRIPTOR := 16      // sizeof(struct pcnet32_mds)
  const BUFFER := Descriptors.BUFFER_SIZE
  const SLEW := 16            // LNC_MEM_SLEW

  /** LNC_NDESC. */
  function Ndesc(len2: nat): (n: nat)
    ensures 0 < n
  {
    if len2 == 0 then 1 else 2 * Ndesc(len2 - 1)
  }

  /** The sizes are the powers of two. */
  lemma {:induction false} NdescSum(m: nat, n: nat)
    ensures Ndesc(0) == 1 && Ndesc(1) == 2 && Ndesc(m + n) == Ndesc(m) * Ndesc(n)
  {
    if 0 < n {
      NdescSum(m, n - 1);
    }
  }

  /** The size `lnc_pci_attach` computes. */
  function MemSize(nrdre: nat, ntdre: nat): nat {
    (Ndesc(nrdre) + Ndesc(ntdre)) * RING_ENTRY
    + INIT_BLOCK + DESCRIPTOR * (Ndesc(nrdre) + Ndesc(ntdre)) + SLEW + 0x20
    + Ndesc(nrdre) * BUFFER + Ndesc(ntdre) * BUFFER
  }

  /** `(x + 1) & ~1`. */
  function RoundEven(x: nat): (y: nat)
    ensures x <= y <= x + 1 && y % 2 == 0
  {
    (x + 1) / 2 * 2
  }

  /** `(x + 0xF) & ~0xF`. */
  function RoundDescriptor(x: nat): (y: nat)
    ensures x <= y <= x + 15 && y % DESCRIPTOR == 0
  {
    (x + 15) / 16 * 16
  }

  datatype Region = Region(start: nat, size: nat)
  {
    function End(): nat { start + size }

    predicate Apart(r: Region) { End() <= r.start || r.End() <= start }
  }

  /** Regions one after the other, between `lo` and `hi`. */
  ghost predicate Packed(rs: seq<Region>, lo: nat, hi: nat) {
    && (forall i | 0 <= i < |rs| :: lo <= rs[i].start && rs[i].End() <= hi)
    && (forall i, j | 0 <= i < j < |rs| :: rs[i].End() <= rs[j].start)
  }

  lemma PackedSnoc(rs: seq<Region>, lo: nat, hi: nat, r: Region)
    requires Packed(rs, lo, hi) && lo <= hi <= r.start
    ensures Packed(rs + [r], lo, r.End())
  {
  }

  function Regions(starts: seq<nat>, size: nat): seq<Region> {
    seq(|starts|, i requires 0 <= i < |starts| => Region(starts[i], size))
  }

  /** `n` regions of one size, each starting where the one before ends. */
  method Carve(ghost rs: seq<Region>, ghost base: nat, lncMem: nat, n: nat, size: nat)
    returns (starts: seq<nat>, next: nat, ghost out: seq<Region>)
    requires Packed(rs, base, lncMem) && base <= lncMem
    ensures Packed(out, base, next) && base <= next == lncMem + n * size
    ensures |starts| == n && forall i | 0 <= i < n :: starts[i] == lncMem + i * size
    ensures out == rs + Regions(starts, size)
  {
    starts, next, out := [], lncMem, rs;
    for i := 0 to n
      invariant |starts| == i && next == lncMem + i * size && base <= next
      invariant forall j | 0 <= j < i :: starts[j] == lncMem + j * size
      invariant Packed(out, base, next)
      invariant out == rs + Regions(starts, size)
    {
      PackedSnoc(out, base, next, Region(next, size));
      out := out + [Region(next, size)];
      assert Regions(starts + [next], size) == Regions(starts, size) + [Region(next, size)];
      starts := starts + [next];
      next := next + size;
    }
  }

  /** What each ring has one of for every slot; multiples of 16 keep descriptors aligned. */
  method CarveBoth(ghost rs: seq<Region>, ghost base: nat, lncMem: nat, nrx: nat, ntx: nat, size: nat)
    returns (rx: seq<nat>, tx: seq<nat>, next: nat, ghost out: seq<Region>)
    requires Packed(rs, base, lncMem) && base <= lncMem
    ensures Packed(out, base, next) && base <= next == lncMem + nrx * size + ntx * size
    ensures |rx| == nrx && |tx| == ntx && out == rs + Regions(rx, size) + Regions(tx, size)
    ensures lncMem % DESCRIPTOR == 0 && size == DESCRIPTOR ==> forall a | a in rx + tx :: a % DESCRIPTOR == 0
  {
    rx, next, out := Carve(rs, base, lncMem, nrx, size);
    ghost var middle := next;
    tx, next, out := Carve(out, base, next, ntx, size);
    if lncMem % DESCRIPTOR == 0 && size == DESCRIPTOR {
      Aligned(rx, lncMem);
      Aligned(tx, middle);
    }
  }

  lemma Aligned(starts: seq<nat>, first: nat)
    requires first % DESCRIPTOR == 0 && forall i | 0 <= i < |starts| :: starts[i] == first + i * DESCRIPTOR
    ensures forall a | a in starts :: a % DESCRIPTOR == 0
  {
  }

  /** The carving in `lnc_init`: host rings, initialisation block, descriptors, buffers, with
      two rounds to alignment. */
  method LncInit(base: nat, nrdre: nat, ntdre: nat)
    returns (initBlock: nat, rxMd: seq<nat>, txMd: seq<nat>, rxData: seq<nat>, txData: seq<nat>,
             ghost rs: seq<Region>)
    ensures |rxMd| == |rxData| == Ndesc(nrdre) && |txMd| == |txData| == Ndesc(ntdre)
    ensures initBlock % 2 == 0
    ensures forall a | a in rxMd + txMd :: a % DESCRIPTOR == 0
    ensures rs == [Region(base, Ndesc(nrdre) * RING_ENTRY),
                   Region(base + Ndesc(nrdre) * RING_ENTRY, Ndesc(ntdre) * RING_ENTRY),
                   Region(initBlock, INIT_BLOCK)]
                  + Regions(rxMd, DESCRIPTOR) + Regions(txMd, DESCRIPTOR)
                  + Regions(rxData, BUFFER) + Regions(txData, BUFFER)
    ensures Packed(rs, base, base + MemSize(nrdre, ntdre))
  {
    var nrx, ntx := Ndesc(nrdre), Ndesc(ntdre);
    var lncMem;
    initBlock, lncMem, rs := Head(base, nrx, ntx);
    rxMd, txMd, lncMem, rs := CarveBoth(rs, base, lncMem, nrx, ntx, DESCRIPTOR);
    rxData, txData, lncMem, rs := CarveBoth(rs, base, lncMem, nrx, ntx, BUFFER);
  }

  /** The host rings and the initialisation block. */
  method Head(base: nat, nrx: nat, ntx: nat) returns (initBlock: nat, lncMem: nat, ghost rs: seq<Region>)
    ensures rs == [Region(base, nrx * RING_ENTRY),
                   Region(base + nrx * RING_ENTRY, ntx * RING_ENTRY), Region(initBlock, INIT_BLOCK)]
    ensures Packed(rs, base, lncMem) && initBlock % 2 == 0 && lncMem % DESCRIPTOR == 0
    ensures base <= lncMem <= base + (nrx + ntx) * RING_ENTRY + 1 + INIT_BLOCK + 15
  {
    var transRing := base + nrx * RING_ENTRY;
    lncMem := transRing + ntx * RING_ENTRY;
    initBlock := RoundEven(lncMem);
    lncMem := RoundDescriptor(initBlock + INIT_BLOCK);
    rs := [Region(base, nrx * RING_ENTRY), Region(transRing, ntx * RING_ENTRY), Region(initBlock, INIT_BLOCK)];
  }

  /** Regions in order are pairwise disjoint. */
  lemma PackedApart(rs: seq<Region>, lo: nat, hi: nat, i: nat, j: nat)
    requires Packed(rs, lo, hi) && i < |rs| && j < |rs| && i != j
    ensures rs[i].Apart(rs[j])
  {
  }
}
