/** Shift registers that take in bits one at a time, or several at once. */
module ShiftRegister {

  /** The register after a sequence of bits. */
  function Fed<T>(feed: (T, bool) -> T, c: T, bits: seq<bool>): T {
    if bits == [] then c else feed(Fed(feed, c, bits[..|bits| - 1]), bits[|bits| - 1])
  }

  lemma FedSnoc<T>(feed: (T, bool) -> T, c: T, bits: seq<bool>, b: bool)
    ensures Fed(feed, c, bits + [b]) == feed(Fed(feed, c, bits), b)
  {
    assert (bits + [b])[..|bits|] == bits;
  }

  lemma {:induction false} FedAppend<T>(feed: (T, bool) -> T, c: T, s: seq<bool>, t: seq<bool>)
    ensures Fed(feed, c, s + t) == Fed(feed, Fed(feed, c, s), t)
  {
    if t == [] {
      assert s + t == s;
    } else {
      var n := |t| - 1;
      assert (s + t)[..|s| + n] == s + t[..n];
      FedAppend(feed, c, s, t[..n]);
    }
  }

  function Repeat<T>(f: T -> T, c: T, n: nat): T {
    if n == 0 then c else f(Repeat(f, c, n - 1))
  }

  /** The low `n` bits of a word, lowest first. */
  function Low<T>(odd: T -> bool, down: T -> T, x: T, n: nat): seq<bool> {
    if n == 0 then [] else Low(odd, down, x, n - 1) + [odd(Repeat(down, x, n - 1))]
  }

  /** Adding a word to a register may be split: its lowest bit goes in with the next turn, the
      others move down with it. */
  ghost predicate Splits<T(!new)>(add: (T, T) -> T, turn: T -> T, feed: (T, bool) -> T, odd: T -> bool, down: T -> T) {
    forall c, x :: turn(add(c, x)) == add(feed(c, odd(x)), down(x))
  }

  /** Then taking in `n` bits at once is the same as taking them in one by one. */
  lemma {:induction false} TurnsSplit<T(!new)>(add: (T, T) -> T, turn: T -> T, feed: (T, bool) -> T,
                                        odd: T -> bool, down: T -> T, c: T, x: T, n: nat)
    requires Splits(add, turn, feed, odd, down)
    ensures Repeat(turn, add(c, x), n) == add(Fed(feed, c, Low(odd, down, x, n)), Repeat(down, x, n))
  {
    if n > 0 {
      TurnsSplit(add, turn, feed, odd, down, c, x, n - 1);
      FedSnoc(feed, c, Low(odd, down, x, n - 1), odd(Repeat(down, x, n - 1)));
    }
  }

  /** A shift register with feedback: the first bit leaves, and where `taps` has a bit the sum of
      it and the bit taken in is added. */
  function NextBits(s: seq<bool>, b: bool, taps: seq<bool>): seq<bool>
    requires 0 < |s| == |taps|
  {
    seq(|s|, i requires 0 <= i < |s| => (i + 1 < |s| && s[i + 1]) != ((s[0] != b) && taps[i]))
  }

  lemma NextBitsAre(s: seq<bool>, b: bool, taps: seq<bool>, t: seq<bool>)
    requires 0 < |s| == |taps| == |t|
    requires forall i: nat | i < |s| ::
               t[i] == ((i + 1 < |s| && s[i + 1]) != ((s[0] != b) && taps[i]))
    ensures t == NextBits(s, b, taps)
  {
  }
}
