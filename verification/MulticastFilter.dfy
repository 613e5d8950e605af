/** The logical address filter: 64 bits, indexed by the upper six bits of an address's CRC, in
    the byte form of `lnc_setladrf` and in the 16-bit form of `pcnet32_load_multicast`.
 */
module MulticastFilter {
  import opened Descriptors
  import Crc
  import Polynomials
  import ShiftRegister

  const BITS := 64
  const BYTES := 8            // MULTICAST_FILTER_LEN
  const WORDS := 4

  type Address = a: seq<byte> | |a| == ADDRESS_LENGTH witness [0, 0, 0, 0, 0, 0]

  /** The upper six bits of a word, as a number. */
  function Top6(c: bv32): (n: nat)
    ensures n < BITS
  {
    (if c & 0x8000_0000 != 0 then 32 else 0) + (if c & 0x4000_0000 != 0 then 16 else 0) +
    (if c & 0x2000_0000 != 0 then 8 else 0) + (if c & 0x1000_0000 != 0 then 4 else 0) +
    (if c & 0x800_0000 != 0 then 2 else 0) + (if c & 0x400_0000 != 0 then 1 else 0)
  }

  lemma Top6Is(c: bv32)
    ensures Top6(c) == (c >> 26) as nat
  {
  }

  /** The filter bit an address selects. */
  function Hash(a: Address): nat { Top6(ShiftRegister.Fed(Crc.Feed, Crc.INIT, Crc.Bits(a))) }

  function Weight(r: Polynomials.Poly, k: nat, w: nat): nat { if k in r then w else 0 }

  /** The hash is made of the six lowest coefficients of the check sequence, the lowest of them
      counting most. */
  lemma HashIs(a: Address, r: Polynomials.Poly)
    requires Polynomials.IsRemainder(Crc.Augmented(Crc.Bits(a)), Crc.GENERATOR, r)
    ensures Hash(a) == Weight(r, 0, 32) + Weight(r, 1, 16) + Weight(r, 2, 8) + Weight(r, 3, 4) +
                       Weight(r, 4, 2) + Weight(r, 5, 1)
  {
    var c := ShiftRegister.Fed(Crc.Feed, Crc.INIT, Crc.Bits(a));
    var s := Polynomials.FromBits(Crc.Register(c));
    Crc.CrcIsRemainder(Crc.Bits(a));
    Polynomials.RemainderUnique(Crc.Augmented(Crc.Bits(a)), Crc.GENERATOR, r, s);
    forall k: nat | k < 6
      ensures k in r <==> Crc.Bit(c, Crc.Mask(31 - k))
    {
      assert k in s <==> Polynomials.Coefficient(Crc.Register(c), k);
    }
  }

  function Hashes(addrs: seq<Address>): set<nat> { set a | a in addrs :: Hash(a) }

  function One(i: nat): byte {
    if i == 0 then 1 else if i == 1 then 2 else if i == 2 then 4 else if i == 3 then 8
    else if i == 4 then 16 else if i == 5 then 32 else if i == 6 then 64 else 128
  }

  predicate Has(b: byte, i: nat) { b & One(i) != 0 }

  /** The bits set in a filter given as bytes. */
  function Selected(ladrb: seq<byte>): set<nat>
    requires |ladrb| == BYTES
  {
    set k: nat | k < BITS && Has(ladrb[k / 8], k % 8)
  }

  lemma OrOne(b: byte, i: nat, j: nat)
    requires i < 8 && j < 8
    ensures Has(b | One(i), j) <==> Has(b, j) || i == j
  {
  }

  lemma Sets(ladrb: seq<byte>, k: nat)
    requires |ladrb| == BYTES && k < BITS
    ensures Selected(ladrb[k / 8 := ladrb[k / 8] | One(k % 8)]) == Selected(ladrb) + {k}
  {
    forall j: nat | j < BITS
      ensures Has(ladrb[k / 8 := ladrb[k / 8] | One(k % 8)][j / 8], j % 8) <==> Has(ladrb[j / 8], j % 8) || j == k
    {
      OrOne(ladrb[k / 8], k % 8, j % 8);
    }
  }

  /** `lnc_setladrf`: bit k is set exactly if some listed address selects it. */
  method SetLadrf(ladrb: array<byte>, addrs: seq<Address>, allMulti: bool)
    requires ladrb.Length == BYTES
    modifies ladrb
    ensures allMulti ==> forall k: nat | k < BITS :: k in Selected(ladrb[..])
    ensures !allMulti ==> Selected(ladrb[..]) == Hashes(addrs)
  {
    if allMulti {
      for i := 0 to BYTES
        invariant forall j | 0 <= j < i :: ladrb[j] == 0xff
      {
        ladrb[i] := 0xff;
      }
      AllBits(ladrb[..]);
    } else {
      for i := 0 to BYTES
        invariant forall j | 0 <= j < i :: ladrb[j] == 0
      {
        ladrb[i] := 0;
      }
      NoBits(ladrb[..]);
      assert Hashes(addrs[..0]) == {};
      for i := 0 to |addrs|
        invariant Selected(ladrb[..]) == Hashes(addrs[..i])
      {
        HashesSnoc(addrs, i);
        var crc := Crc.EtherCrc32Le(addrs[i]);
        Top6Is(crc);
        var index := (crc >> 26) as nat;
        ghost var was := ladrb[..];
        Sets(was, index);
        ladrb[index / 8] := ladrb[index / 8] | One(index % 8);
        assert ladrb[..] == was[index / 8 := was[index / 8] | One(index % 8)];
      }
      assert addrs[..|addrs|] == addrs;
    }
  }

  lemma AllBits(ladrb: seq<byte>)
    requires |ladrb| == BYTES && forall j | 0 <= j < BYTES :: ladrb[j] == 0xff
    ensures forall k: nat | k < BITS :: k in Selected(ladrb)
  {
    assert forall i: nat | i < 8 :: Has(0xff, i);
  }

  lemma NoBits(ladrb: seq<byte>)
    requires |ladrb| == BYTES && forall j | 0 <= j < BYTES :: ladrb[j] == 0
    ensures Selected(ladrb) == {}
  {
    assert forall i: nat | i < 8 :: !Has(0, i);
  }

  lemma HashesSnoc(addrs: seq<Address>, i: nat)
    requires i < |addrs|
    ensures Hashes(addrs[..i + 1]) == Hashes(addrs[..i]) + {Hash(addrs[i])}
  {
    assert addrs[..i + 1] == addrs[..i] + [addrs[i]];
    assert forall a | a in addrs[..i] :: a in addrs[..i + 1];
    assert addrs[i] in addrs[..i + 1];
  }

  /** The controller accepts a multicast frame if the bit its address selects is set. */
  predicate Accepts(ladrb: seq<byte>, a: Address)
    requires |ladrb| == BYTES
  {
    Has(ladrb[Hash(a) / 8], Hash(a) % 8)
  }

  /** An address is accepted exactly if it shares its hash with one that is listed; so every
      listed address is, and neither order nor repetition matters. */
  lemma AcceptsIff(ladrb: seq<byte>, addrs: seq<Address>, a: Address)
    requires |ladrb| == BYTES && Selected(ladrb) == Hashes(addrs)
    ensures Accepts(ladrb, a) <==> exists b :: b in addrs && Hash(b) == Hash(a)
  {
    assert Accepts(ladrb, a) <==> Hash(a) in Selected(ladrb);
  }

  function OneWord(i: nat): bv16 {
    if i == 0 then 0x1 else if i == 1 then 0x2 else if i == 2 then 0x4
    else if i == 3 then 0x8 else if i == 4 then 0x10 else if i == 5 then 0x20
    else if i == 6 then 0x40 else if i == 7 then 0x80 else if i == 8 then 0x100
    else if i == 9 then 0x200 else if i == 10 then 0x400 else if i == 11 then 0x800
    else if i == 12 then 0x1000 else if i == 13 then 0x2000 else if i == 14 then 0x4000
    else 0x8000
  }

  predicate BitOf(w: bv16, m: bv16) { w & m != 0 }

  predicate HasWord(w: bv16, i: nat) { BitOf(w, OneWord(i)) }

  /** The bits set in a filter given as 16-bit words. */
  function SelectedWords(table: seq<bv16>): set<nat>
    requires |table| == WORDS
  {
    set k: nat | k < BITS && HasWord(table[k / 16], k % 16)
  }

  lemma OrOneWord(w: bv16, i: nat, j: nat)
    requires i < 16 && j < 16
    ensures HasWord(w | OneWord(i), j) <==> HasWord(w, j) || i == j
  {
    OrBits(w, OneWord(i), OneWord(j));
    OneBits(i, j);
  }

  lemma OrBits(w: bv16, m: bv16, n: bv16)
    ensures BitOf(w | m, n) <==> BitOf(w, n) || BitOf(m, n)
  {
    AndOr(w, m, n);
    OrZero(w & n, m & n);
  }

  lemma AndOr(w: bv16, m: bv16, n: bv16)
    ensures (w | m) & n == (w & n) | (m & n)
  {
  }

  lemma OrZero(w: bv16, m: bv16)
    ensures w | m == 0 <==> w == 0 && m == 0
  {
  }

  lemma OneBits(i: nat, j: nat)
    requires i < 16 && j < 16
    ensures BitOf(OneWord(i), OneWord(j)) <==> i == j
  {
  }

  lemma SetsWord(table: seq<bv16>, k: nat)
    requires |table| == WORDS && k < BITS
    ensures SelectedWords(table[k / 16 := table[k / 16] | OneWord(k % 16)]) == SelectedWords(table) + {k}
  {
    forall j: nat | j < BITS
      ensures HasWord(table[k / 16 := table[k / 16] | OneWord(k % 16)][j / 16], j % 16) <==>
              HasWord(table[j / 16], j % 16) || j == k
    {
      OrOneWord(table[k / 16], k % 16, j % 16);
    }
  }

  /** The group bit of an address. */
  predicate Group(a: Address) { a[0] & 1 != 0 }

  /** The group addresses among those listed. */
  function Groups(addrs: seq<Address>): seq<Address> {
    if addrs == [] then []
    else
      var n := |addrs| - 1;
      Groups(addrs[..n]) + if Group(addrs[n]) then [addrs[n]] else []
  }

  /** `pcnet32_load_multicast`: only group addresses count. */
  method LoadMulticast(table: array<bv16>, addrs: seq<Address>, allMulti: bool)
    requires table.Length == WORDS
    modifies table
    ensures allMulti ==> forall i | 0 <= i < WORDS :: table[i] == 0xffff
    ensures !allMulti ==> SelectedWords(table[..]) == Hashes(Groups(addrs))
  {
    for i := 0 to WORDS
      invariant forall j | 0 <= j < i :: table[j] == if allMulti then 0xffff else 0
    {
      table[i] := if allMulti then 0xffff else 0;
    }
    if !allMulti {
      NoWordBits(table[..]);
      assert Hashes(Groups(addrs[..0])) == {};
      for i := 0 to |addrs|
        invariant SelectedWords(table[..]) == Hashes(Groups(addrs[..i]))
      {
        assert addrs[..i + 1][..i] == addrs[..i];
        if addrs[i][0] & 1 != 0 {
          GroupsSnoc(addrs, i);
          AddGroup(table, addrs[i]);
        }
      }
      assert addrs[..|addrs|] == addrs;
    }
  }

  /** Sets the bit one address selects. */
  method AddGroup(table: array<bv16>, a: Address)
    requires table.Length == WORDS
    modifies table
    ensures SelectedWords(table[..]) == SelectedWords(old(table[..])) + {Hash(a)}
  {
    var crc := Crc.EtherCrc32Le(a);
    Top6Is(crc);
    var index := (crc >> 26) as nat;
    ghost var was := table[..];
    SetsWord(was, index);
    table[index / 16] := table[index / 16] | OneWord(index % 16);
    assert table[..] == was[index / 16 := was[index / 16] | OneWord(index % 16)];
  }

  lemma GroupsSnoc(addrs: seq<Address>, i: nat)
    requires i < |addrs| && Group(addrs[i])
    ensures Hashes(Groups(addrs[..i + 1])) == Hashes(Groups(addrs[..i])) + {Hash(addrs[i])}
  {
    assert addrs[..i + 1][..i] == addrs[..i];
    var g := Groups(addrs[..i + 1]);
    assert g[..|g| - 1] == Groups(addrs[..i]);
    HashesSnoc(g, |g| - 1);
    assert g[..|g|] == g;
  }

  lemma NoWordBits(table: seq<bv16>)
    requires |table| == WORDS && forall j | 0 <= j < WORDS :: table[j] == 0
    ensures SelectedWords(table) == {}
  {
    assert forall i: nat | i < 16 :: !HasWord(0, i);
  }

  /** Two bytes as a little-endian word. */
  function Word(lo: byte, hi: byte): bv16 { ((hi as bv16) << 8) | (lo as bv16) }

  /** The eight bytes as four words, as they are in the initialisation block. */
  function Words(ladrb: seq<byte>): (t: seq<bv16>)
    requires |ladrb| == BYTES
    ensures |t| == WORDS
  {
    seq(WORDS, i requires 0 <= i < WORDS => Word(ladrb[2 * i], ladrb[2 * i + 1]))
  }

  lemma WordBits(lo: byte, hi: byte, i: nat)
    requires i < 16
    ensures HasWord(Word(lo, hi), i) <==> if i < 8 then Has(lo, i) else Has(hi, i - 8)
  {
    if i < 8 {
      LowBits(lo, hi, i);
    } else {
      HighBits(lo, hi, i);
    }
  }

  lemma LowBits(lo: byte, hi: byte, i: nat)
    requires i < 8
    ensures HasWord(Word(lo, hi), i) <==> Has(lo, i)
  {
  }

  lemma HighBits(lo: byte, hi: byte, i: nat)
    requires 8 <= i < 16
    ensures HasWord(Word(lo, hi), i) <==> Has(hi, i - 8)
  {
  }

  lemma WordsSelect(ladrb: seq<byte>)
    requires |ladrb| == BYTES
    ensures SelectedWords(Words(ladrb)) == Selected(ladrb)
  {
    forall k: nat | k < BITS
      ensures HasWord(Words(ladrb)[k / 16], k % 16) <==> Has(ladrb[k / 8], k % 8)
    {
      WordSelects(ladrb, k);
    }
  }

  lemma WordSelects(ladrb: seq<byte>, k: nat)
    requires |ladrb| == BYTES && k < BITS
    ensures HasWord(Words(ladrb)[k / 16], k % 16) <==> Has(ladrb[k / 8], k % 8)
  {
    InWord(k);
    WordBits(ladrb[2 * (k / 16)], ladrb[2 * (k / 16) + 1], k % 16);
  }

  /** Where bit `k` is among the bytes, in terms of the words. */
  lemma InWord(k: nat)
    ensures k / 8 == 2 * (k / 16) + if k % 16 < 8 then 0 else 1
    ensures k % 8 == k % 16 - if k % 16 < 8 then 0 else 8
  {
  }

  lemma SameBits(w: bv16, x: bv16)
    requires BitOf(w, 0x1) == BitOf(x, 0x1) && BitOf(w, 0x2) == BitOf(x, 0x2)
    requires BitOf(w, 0x4) == BitOf(x, 0x4) && BitOf(w, 0x8) == BitOf(x, 0x8)
    requires BitOf(w, 0x10) == BitOf(x, 0x10) && BitOf(w, 0x20) == BitOf(x, 0x20)
    requires BitOf(w, 0x40) == BitOf(x, 0x40) && BitOf(w, 0x80) == BitOf(x, 0x80)
    requires BitOf(w, 0x100) == BitOf(x, 0x100) && BitOf(w, 0x200) == BitOf(x, 0x200)
    requires BitOf(w, 0x400) == BitOf(x, 0x400) && BitOf(w, 0x800) == BitOf(x, 0x800)
    requires BitOf(w, 0x1000) == BitOf(x, 0x1000) && BitOf(w, 0x2000) == BitOf(x, 0x2000)
    requires BitOf(w, 0x4000) == BitOf(x, 0x4000) && BitOf(w, 0x8000) == BitOf(x, 0x8000)
    ensures w == x
  {
  }

  /** A word is determined by its bits. */
  lemma SameWord(w: bv16, x: bv16)
    requires forall i: nat | i < 16 :: HasWord(w, i) <==> HasWord(x, i)
    ensures w == x
  {
    forall i: nat | i < 16
      ensures BitOf(w, OneWord(i)) == BitOf(x, OneWord(i))
    {
      assert HasWord(w, i) <==> HasWord(x, i);
    }
    assert OneWord(0) == 0x1 && OneWord(1) == 0x2 && OneWord(2) == 0x4 && OneWord(3) == 0x8;
    assert OneWord(4) == 0x10 && OneWord(5) == 0x20 && OneWord(6) == 0x40 && OneWord(7) == 0x80;
    assert OneWord(8) == 0x100 && OneWord(9) == 0x200 && OneWord(10) == 0x400 && OneWord(11) == 0x800;
    assert OneWord(12) == 0x1000 && OneWord(13) == 0x2000 && OneWord(14) == 0x4000 && OneWord(15) == 0x8000;
    SameBits(w, x);
  }

  /** For group addresses both drivers hand the controller the same 64 bits. */
  lemma FormsAgree(ladrb: seq<byte>, table: seq<bv16>, addrs: seq<Address>)
    requires |ladrb| == BYTES && Selected(ladrb) == Hashes(addrs)
    requires |table| == WORDS && SelectedWords(table) == Hashes(Groups(addrs))
    requires forall a | a in addrs :: Group(a)
    ensures Words(ladrb) == table
  {
    AllGroups(addrs);
    WordsSelect(ladrb);
    SameFilter(Words(ladrb), table);
  }

  /** A filter is determined by the bits set in it. */
  lemma SameFilter(s: seq<bv16>, t: seq<bv16>)
    requires |s| == |t| == WORDS && SelectedWords(s) == SelectedWords(t)
    ensures s == t
  {
    forall i: nat | i < WORDS
      ensures s[i] == t[i]
    {
      forall j: nat | j < 16
        ensures HasWord(s[i], j) <==> HasWord(t[i], j)
      {
        var k := 16 * i + j;
        assert k in SelectedWords(s) <==> k in SelectedWords(t);
      }
      SameWord(s[i], t[i]);
    }
  }

  lemma {:induction false} AllGroups(addrs: seq<Address>)
    requires forall a | a in addrs :: Group(a)
    ensures Groups(addrs) == addrs
  {
    if addrs != [] {
      var n := |addrs| - 1;
      AllGroups(addrs[..n]);
      assert addrs == addrs[..n] + [addrs[n]];
    }
  }
}
