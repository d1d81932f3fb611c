/**
  The splitting done by `send_message_to_channel` in api/bot.py: the list of
  texts that are sent, in order, for one composed message.
 */
module Publish {

  /** The longest text one send call takes. */
  const MaxLength: nat := 4096

  function Min(a: int, b: int): int
  {
    if a <= b then a else b
  }

  /** `ceil(n / d)` for a positive divisor. */
  function CeilDiv(n: nat, d: nat): nat
    requires d > 0
  {
    (n + d - 1) / d
  }

  /** `[m[i:i + MaxLength] for i in range(0, len(m), MaxLength)]` */
  function Chunks(m: string): seq<string>
    decreases |m|
  {
    if m == [] then []
    else if |m| <= MaxLength then [m]
    else [m[..MaxLength]] + Chunks(m[MaxLength..])
  }

  /** The texts sent for `m`: the whole message when it fits, else its chunks. */
  function Parts(m: string): seq<string>
  {
    if |m| <= MaxLength then [m] else Chunks(m)
  }

  /** The texts joined back in order. */
  function Concat(parts: seq<string>): string
    decreases |parts|
  {
    if parts == [] then [] else parts[0] + Concat(parts[1..])
  }

  /**
    The chunks are exactly the slices the comprehension takes: there are
    `ceil(|m| / MaxLength)` of them and the `k`-th is
    `m[k * MaxLength .. min((k + 1) * MaxLength, |m|)]`; joined, they give `m`.
   */
  lemma {:induction false} ChunksAreSlices(m: string)
    ensures |Chunks(m)| == CeilDiv(|m|, MaxLength)
    ensures forall k :: 0 <= k < |Chunks(m)| ==>
      k * MaxLength < |m| && Chunks(m)[k] == m[k * MaxLength .. Min((k + 1) * MaxLength, |m|)]
    ensures Concat(Chunks(m)) == m
    decreases |m|
  {
    if |m| > MaxLength {
      var rest := m[MaxLength..];
      ChunksAreSlices(rest);
      var cs := Chunks(m);
      assert cs == [m[..MaxLength]] + Chunks(rest);
      assert cs[1..] == Chunks(rest);
      forall k | 0 <= k < |cs|
        ensures k * MaxLength < |m| && cs[k] == m[k * MaxLength .. Min((k + 1) * MaxLength, |m|)]
      {
        if k > 0 {
          assert cs[k] == Chunks(rest)[k - 1];
          SliceOfRest(m, k);
        }
      }
      assert m == m[..MaxLength] + rest;
    } else if m != [] {
      assert Concat([m]) == m + Concat([]);
    }
  }

  /** The `(k-1)`-th slice of what follows the first chunk is the `k`-th slice of the message. */
  lemma SliceOfRest(m: string, k: nat)
    requires |m| > MaxLength && k > 0 && (k - 1) * MaxLength < |m| - MaxLength
    ensures var rest := m[MaxLength..];
      && k * MaxLength < |m|
      && rest[(k - 1) * MaxLength .. Min(k * MaxLength, |rest|)] == m[k * MaxLength .. Min((k + 1) * MaxLength, |m|)]
  {
    var rest := m[MaxLength..];
    var i, j := (k - 1) * MaxLength, Min(k * MaxLength, |rest|);
    assert i + MaxLength == k * MaxLength;
    assert j + MaxLength == Min((k + 1) * MaxLength, |m|);
  }

  /** A message that fits is sent as one part, the message itself. */
  lemma PartsOfShortMessage(m: string)
    requires |m| <= MaxLength
    ensures Parts(m) == [m]
    ensures Concat(Parts(m)) == m
  {
    assert Concat([m]) == m + Concat([]);
  }

  /**
    A longer message is sent as `ceil(|m| / MaxLength)` parts that join back
    to it; each part but the last has exactly `MaxLength` characters and the
    last is non-empty and at most that long.
   */
  lemma PartsOfLongMessage(m: string)
    requires |m| > MaxLength
    ensures var ps := Parts(m);
      && Concat(ps) == m
      && |ps| == CeilDiv(|m|, MaxLength) && |ps| >= 2
      && (forall k :: 0 <= k < |ps| - 1 ==> |ps[k]| == MaxLength)
      && 0 < |ps[|ps| - 1]| <= MaxLength
  {
    ChunksAreSlices(m);
    var ps := Parts(m);
    var n := |ps|;
    CeilDivBounds(|m|);
    forall k | 0 <= k < n - 1 ensures |ps[k]| == MaxLength {
      InnerSliceFits(k, n, |m|);
    }
    LastSliceEnds(n, |m|);
  }

  /** A slice before the last one ends inside the message. */
  lemma InnerSliceFits(k: nat, n: nat, len: nat)
    requires k < n - 1 && (n - 1) * MaxLength < len
    ensures Min((k + 1) * MaxLength, len) - k * MaxLength == MaxLength
  {
    assert (k + 1) * MaxLength <= (n - 1) * MaxLength by {
      MulMono(k + 1, n - 1);
    }
  }

  /** The last slice is cut off by the end of the message. */
  lemma LastSliceEnds(n: nat, len: nat)
    requires n >= 1 && (n - 1) * MaxLength < len <= n * MaxLength
    ensures Min(n * MaxLength, len) - (n - 1) * MaxLength == len - (n - 1) * MaxLength
    ensures 0 < len - (n - 1) * MaxLength <= MaxLength
  {
    assert n * MaxLength == (n - 1) * MaxLength + MaxLength;
  }

  lemma MulMono(a: nat, b: nat)
    requires a <= b
    ensures a * MaxLength <= b * MaxLength
  {
    assert b * MaxLength == a * MaxLength + (b - a) * MaxLength;
  }

  /** `ceil(n / MaxLength)` slices of `MaxLength` cover `n` characters, one fewer do not. */
  lemma CeilDivBounds(n: nat)
    requires n > 0
    ensures var c := CeilDiv(n, MaxLength); c >= 1 && (c - 1) * MaxLength < n <= c * MaxLength
  {
  }

  /** Whatever its length, the parts of a message join back to it. */
  lemma PartsRoundTrip(m: string)
    ensures Concat(Parts(m)) == m
    ensures forall p :: p in Parts(m) ==> |p| <= MaxLength
  {
    if |m| <= MaxLength {
      PartsOfShortMessage(m);
    } else {
      PartsOfLongMessage(m);
      ChunksAreSlices(m);
    }
  }

  /** A 5000-character message goes out as a 4096-character part and a 904-character part. */
  lemma FiveThousandCharacters(m: string)
    requires |m| == 5000
    ensures |Parts(m)| == 2 && |Parts(m)[0]| == 4096 && |Parts(m)[1]| == 904
  {
    ChunksAreSlices(m);
    assert CeilDiv(5000, MaxLength) == 2;
  }
}
