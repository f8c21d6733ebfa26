/**
 * Splitting a batch into groups of at most `max` entries: the model of
 * `groupInMax` in delay_notifier.go, together with a recursive reference
 * definition of chunking and the arithmetic it relies on.
 */
module Grouping {
  import opened Arith

  /** The concatenation of a sequence of chunks. */
  function Flatten<T>(ss: seq<seq<T>>): seq<T>
  {
    if |ss| == 0 then [] else ss[0] + Flatten(ss[1..])
  }

  /**
   * The ceiling of the real quotient a / b, computed in integers. Go computes
   * the group count as int(math.Ceil(float64(a) / float64(b))); for the
   * lengths a slice can have the float64 quotient is exact enough that the
   * two agree.
   */
  function CeilQuotient(a: nat, b: int): (q: int)
    requires b != 0
    ensures b > 0 ==> (q - 1) * b < a <= q * b
    ensures b < 0 ==> q * b <= a < (q - 1) * b
  {
    if b > 0 then
      var q := (a + b - 1) / b;
      assert (a + b - 1) == q * b + (a + b - 1) % b;
      assert (q - 1) * b == q * b - b;
      q
    else
      var f := a / -b;
      assert a == f * -b + a % -b;
      assert (-f - 1) * b == f * -b + -b;
      -f
  }

  /** Two integers that both satisfy the ceiling property are equal. */
  lemma CeilUnique(a: nat, b: int, p: int, q: int)
    requires b > 0
    requires (p - 1) * b < a <= p * b
    requires (q - 1) * b < a <= q * b
    ensures p == q
  {
    if p < q {
      MulMonotone(p, q - 1, b);
    } else if q < p {
      MulMonotone(q, p - 1, b);
    }
  }

  /**
   * Reference definition: cut `s` into consecutive chunks of `size` entries;
   * only the last chunk may be shorter.
   */
  function Chunks<T>(s: seq<T>, size: nat): (r: seq<seq<T>>)
    requires size >= 1
    ensures Flatten(r) == s
    decreases |s|
  {
    if |s| == 0 then []
    else if |s| <= size then
      assert [s][1..] == [];
      [s]
    else
      var rest := Chunks(s[size..], size);
      assert ([s[..size]] + rest)[1..] == rest;
      assert s[..size] + s[size..] == s;
      [s[..size]] + rest
  }

  /** Every chunk is non-empty and at most `size` long; all but the last are full. */
  lemma {:induction false} ChunksSizes<T>(s: seq<T>, size: nat)
    requires size >= 1
    ensures forall k | 0 <= k < |Chunks(s, size)| :: 0 < |Chunks(s, size)[k]| <= size
    ensures forall k | 0 <= k < |Chunks(s, size)| - 1 :: |Chunks(s, size)[k]| == size
    decreases |s|
  {
    if |s| > size {
      var rest := Chunks(s[size..], size);
      ChunksSizes(s[size..], size);
      assert Chunks(s, size) == [s[..size]] + rest;
    }
  }

  /** The number of chunks n satisfies (n - 1) * size < |s| <= n * size. */
  lemma {:induction false} ChunksBounds<T>(s: seq<T>, size: nat)
    requires size >= 1
    ensures (|Chunks(s, size)| - 1) * size < |s| <= |Chunks(s, size)| * size
    decreases |s|
  {
    if |s| > size {
      var n := |Chunks(s[size..], size)|;
      ChunksBounds(s[size..], size);
      assert |Chunks(s, size)| == n + 1;
      assert (n + 1) * size == n * size + size;
    }
  }

  /** The number of chunks is the ceiling of |s| / size. */
  lemma ChunksCount<T>(s: seq<T>, size: nat)
    requires size >= 1
    ensures |Chunks(s, size)| == CeilQuotient(|s|, size)
  {
    ChunksBounds(s, size);
    CeilUnique(|s|, size, |Chunks(s, size)|, CeilQuotient(|s|, size));
  }

  lemma SliceOfSuffix<T>(s: seq<T>, d: nat, lo: nat, hi: nat)
    requires d <= |s| && lo <= hi <= |s| - d
    ensures s[d..][lo..hi] == s[d + lo .. d + hi]
  {
  }

  /** Chunk k covers exactly the indices [k*size, min(k*size + size, |s|)). */
  lemma {:induction false} ChunksAt<T>(s: seq<T>, size: nat, k: nat)
    requires size >= 1
    requires k < |Chunks(s, size)|
    ensures k * size < |s|
    ensures Chunks(s, size)[k] == s[k * size .. Min(k * size + size, |s|)]
    decreases |s|
  {
    if k == 0 {
      assert k * size == 0;
      if |s| <= size {
        assert s[0 .. |s|] == s;
      } else {
        assert Chunks(s, size)[0] == s[..size];
      }
    } else {
      var t := s[size..];
      assert Chunks(s, size)[k] == Chunks(t, size)[k - 1];
      ChunksAt(t, size, k - 1);
      MulMonotone(0, k - 1, size);
      MulPred(k, size);
      var lo: nat := (k - 1) * size;
      var hi: nat := Min(lo + size, |t|);
      SliceOfSuffix(s, size, lo, hi);
      assert Chunks(t, size)[k - 1] == s[size + lo .. size + hi];
      assert size + lo == k * size && size + hi == Min(k * size + size, |s|);
    }
  }

  /**
   * The number of groups `groupInMax` returns for an input of `length`
   * entries: none for the empty input, one when the input fits or when max
   * is 0, none for a negative max (the float ceiling is then not positive),
   * and otherwise the ceiling of length / max.
   */
  function GroupCount(length: nat, max: int): (n: nat)
    ensures max >= 1 ==> (n - 1) * max < length <= n * max
    ensures max == 0 ==> n == (if length == 0 then 0 else 1)
    ensures max < 0 ==> n == 0
  {
    if length == 0 then 0
    else if length <= max || max == 0 then 1
    else if max < 0 then 0
    else CeilQuotient(length, max)
  }

  /**
   * What `groupInMax` returns, stated through the reference chunking; for
   * max >= 0 its groups concatenate to the input.
   */
  function Groups<T>(items: seq<T>, max: int): (gs: seq<seq<T>>)
    ensures max >= 0 ==> Flatten(gs) == items
  {
    if |items| == 0 then []
    else if |items| <= max || max == 0 then [items]
    else if max < 0 then []
    else Chunks(items, max)
  }

  /** The groups partition the input: their concatenation is the input. */
  lemma GroupsPartition<T>(items: seq<T>, max: int)
    requires max >= 0
    ensures Flatten(Groups(items, max)) == items
    ensures forall k | 0 <= k < |Groups(items, max)| :: Groups(items, max)[k] != []
  {
    if |items| > max > 0 {
      ChunksSizes(items, max);
    }
  }

  /** For max >= 1 every group has at most max entries and all but the last exactly max. */
  lemma GroupsSizes<T>(items: seq<T>, max: int)
    requires max >= 1
    ensures forall k | 0 <= k < |Groups(items, max)| :: 0 < |Groups(items, max)[k]| <= max
    ensures forall k | 0 <= k < |Groups(items, max)| - 1 :: |Groups(items, max)[k]| == max
  {
    if |items| > max {
      ChunksSizes(items, max);
    }
  }

  lemma GroupsCount<T>(items: seq<T>, max: int)
    ensures |Groups(items, max)| == GroupCount(|items|, max)
  {
    if |items| > max && max > 0 {
      ChunksCount(items, max);
    }
  }

  /** For max >= 1 the number of groups is the ceiling of len / max. */
  lemma GroupsCeil<T>(items: seq<T>, max: int)
    requires max >= 1
    ensures |Groups(items, max)| == CeilQuotient(|items|, max)
  {
    GroupsCount(items, max);
    CeilUnique(|items|, max, GroupCount(|items|, max), CeilQuotient(|items|, max));
  }

  /**
   * For max >= 1, group k is the slice [k*max, min(k*max + max, len)) of the
   * input, the same slice the send loop of `sendCollectedMessages` cuts.
   */
  lemma GroupsAt<T>(items: seq<T>, max: int, k: nat)
    requires max >= 1
    requires k < |Groups(items, max)|
    ensures k * max < |items|
    ensures Groups(items, max)[k] == items[k * max .. Min(k * max + max, |items|)]
  {
    if |items| > max {
      ChunksAt(items, max, k);
    } else {
      assert k == 0;
    }
  }

  /**
   * The slice bounds the send loop computes for group i are in range:
   * start = i*max, end = min(start + max, len), start <= end <= len.
   */
  lemma SliceBounds(length: nat, max: int, i: nat)
    requires i < GroupCount(length, max)
    ensures max >= 0
    ensures 0 <= i * max <= Min(i * max + max, length) <= length
  {
    if max >= 1 {
      var n := GroupCount(length, max);
      MulMonotone(i, n - 1, max);
    }
  }

  /** One round of the groupInMax loop appends the next reference chunk. */
  lemma ChunksStep<T>(items: seq<T>, max: int, i: nat, res: seq<seq<T>>)
    requires max >= 1 && 1 <= i <= |Chunks(items, max)|
    requires res == Chunks(items, max)[..i - 1]
    ensures Min((i - 1) * max, |items|) <= Min(i * max, |items|) <= |items|
    ensures res + [items[Min((i - 1) * max, |items|) .. Min(i * max, |items|)]]
         == Chunks(items, max)[..i]
  {
    var c := Chunks(items, max);
    var lo := (i - 1) * max;
    assert lo + max == i * max;
    ChunksAt(items, max, i - 1);
    assert c[i - 1] == items[Min(lo, |items|) .. Min(i * max, |items|)];
    assert c[..i] == c[..i - 1] + [c[i - 1]];
  }

  /**
   * groupInMax(items, max): returns no groups for the empty input, the input
   * itself when it fits or when max is 0, and otherwise advances start/end
   * in steps of max for CeilQuotient(length, max) rounds.
   */
  method GroupInMax<T>(items: seq<T>, max: int) returns (res: seq<seq<T>>)
    ensures res == Groups(items, max)
    ensures |res| == GroupCount(|items|, max)
    ensures |items| == 0 ==> res == []
    ensures |items| > 0 && (|items| <= max || max == 0) ==> res == [items]
    ensures max >= 0 ==> Flatten(res) == items
    ensures forall k | 0 <= k < |res| :: res[k] != []
    ensures max >= 1 ==> forall k | 0 <= k < |res| :: |res[k]| <= max
    ensures max >= 1 ==> forall k | 0 <= k < |res| - 1 :: |res[k]| == max
  {
    GroupsCount(items, max);
    if max >= 0 {
      GroupsPartition(items, max);
    }
    if max >= 1 {
      GroupsSizes(items, max);
    }
    var length := |items|;
    if length <= 0 {
      return [];
    }
    if length <= max || max == 0 {
      return [items];
    }
    var groupNum := CeilQuotient(length, max);
    if max > 0 {
      ChunksCount(items, max);
    }
    var start, end := 0, 0;
    res := [];
    var i := 1;
    while i <= groupNum
      invariant 1 <= i <= (if groupNum > 0 then groupNum + 1 else 1)
      invariant groupNum > 0 ==> max > 0 && |Chunks(items, max)| == groupNum
      invariant start == Min((i - 1) * max, length)
      invariant res == if i == 1 then [] else Chunks(items, max)[..i - 1]
    {
      ChunksStep(items, max, i, res);
      end := i * max;
      if end > length {
        end := length;
      }
      res := res + [items[start..end]];
      start := end;
      i := i + 1;
    }
    if groupNum > 0 {
      assert res == Chunks(items, max)[..groupNum];
    }
  }
}
