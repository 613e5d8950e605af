/** The LANCE controllers want at least 100 bytes in the first buffer of a chain. */
module FirstFragment {
  import opened Descriptors
  import opened Rings

  const WANTED := 100

  function Min(a: int, b: int): int { if a < b then a else b }

  /** `out` is `chain` with just enough bytes moved into its first buffer: a chain that need not
      change is left alone, and so is every buffer behind those that have given bytes; a buffer
      that has given all it had is gone. */
  ghost predicate Shuffled(chain: seq<seq<byte>>, out: seq<seq<byte>>) {
    && 0 < |out| <= |chain| && Flatten(out) == Flatten(chain)
    && (if WANTED <= |chain[0]| then out == chain else |out[0]| == Min(WANTED, |Flatten(chain)|))
    && (forall i | 2 <= i < |out| :: out[i] == chain[|chain| - |out| + i])
    && (1 < |out| ==> out[1] == chain[|chain| - |out| + 1] || out[1] != [])
  }

  /** Bytes have been moved from the front of `chain` into `head`; `rest` is what follows. */
  ghost predicate Shuffling(chain: seq<seq<byte>>, head: seq<byte>, rest: seq<seq<byte>>) {
    && |rest| < |chain| && head + Flatten(rest) == Flatten(chain)
    && (forall i | 1 <= i < |rest| :: rest[i] == chain[|chain| - |rest| + i])
    && (rest != [] ==> rest[0] == chain[|chain| - |rest|] || rest[0] != [])
  }

  /** Moves bytes from the following buffers into the first, freeing those it empties. */
  method Shuffle(chain: seq<seq<byte>>) returns (out: seq<seq<byte>>)
    requires chain != []
    ensures Shuffled(chain, out)
  {
    var head, rest := chain[0], chain[1..];
    Unmoved(chain);
    if |head| < WANTED && rest != [] {
      var len := WANTED - |head|;
      while rest != [] && len > 0
        invariant Shuffling(chain, head, rest) && 0 <= len == WANTED - |head|
        decreases |rest|, len
      {
        head, rest, len := MoveChunk(chain, head, rest, len);
      }
      Moved(chain, head, rest);
    }
    out := [head] + rest;
  }

  /** With no byte moved; a chain that has enough, or just one buffer, stays that way. */
  lemma Unmoved(chain: seq<seq<byte>>)
    requires chain != []
    ensures Shuffling(chain, chain[0], chain[1..])
    ensures WANTED <= |chain[0]| || |chain| == 1 ==> Shuffled(chain, [chain[0]] + chain[1..])
  {
    assert chain == [chain[0]] + chain[1..];
  }

  lemma Moved(chain: seq<seq<byte>>, head: seq<byte>, rest: seq<seq<byte>>)
    requires Shuffling(chain, head, rest) && |chain[0]| < WANTED
    requires |head| <= WANTED && (rest == [] || |head| == WANTED)
    ensures Shuffled(chain, [head] + rest)
  {
    assert ([head] + rest)[1..] == rest;
  }

  /** Moves as much of the next buffer as is still wanted. */
  method MoveChunk(ghost chain: seq<seq<byte>>, head: seq<byte>, rest: seq<seq<byte>>, len: nat)
    returns (head': seq<byte>, rest': seq<seq<byte>>, len': nat)
    requires Shuffling(chain, head, rest) && rest != [] && 0 < len == WANTED - |head|
    ensures Shuffling(chain, head', rest') && len' == WANTED - |head'|
    ensures |rest'| < |rest| || (|rest'| == |rest| && len' < len)
  {
    var m := rest[0];
    var chunk := Min(len, |m|);
    MoveUp(head, rest, chunk);
    head', len' := head + m[..chunk], len - chunk;
    rest' := if |m| <= chunk then rest[1..] else [m[chunk..]] + rest[1..];
  }

  lemma MoveUp(head: seq<byte>, rest: seq<seq<byte>>, chunk: nat)
    requires rest != [] && chunk <= |rest[0]|
    ensures var more := if |rest[0]| <= chunk then rest[1..] else [rest[0][chunk..]] + rest[1..];
            head + rest[0][..chunk] + Flatten(more) == head + Flatten(rest)
  {
    var m := rest[0];
    assert m == m[..chunk] + m[chunk..];
    if chunk < |m| {
      assert ([m[chunk..]] + rest[1..])[1..] == rest[1..];
    }
  }
}
