/**
 * Collecting a batch from the drained inbox: exact-text deduplication that
 * keeps the first occurrence of each message (delay_notifier.go, the
 * drain loop of sendCollectedMessages).
 */
module Collect {

  /** No value occurs twice. */
  predicate Distinct(s: seq<string>)
  {
    forall i, j | 0 <= i < j < |s| :: s[i] != s[j]
  }

  /**
   * The messages of `s` with every repeat of an earlier message removed,
   * processed front to back; the specification of the drain loop.
   */
  function Dedup(s: seq<string>): (r: seq<string>)
    ensures forall x :: x in r <==> x in s
    ensures Distinct(r)
    ensures |r| <= |s|
  {
    if |s| == 0 then []
    else
      var d := Dedup(s[..|s| - 1]);
      if s[|s| - 1] in d then d else d + [s[|s| - 1]]
  }

  /** The index of the first occurrence of x in s. */
  function FirstIndex(s: seq<string>, x: string): (i: nat)
    requires x in s
    ensures i < |s| && s[i] == x
    ensures forall j | 0 <= j < i :: s[j] != x
  {
    if s[0] == x then 0 else 1 + FirstIndex(s[1..], x)
  }

  lemma {:induction false} FirstIndexPrefix(s: seq<string>, n: nat, x: string)
    requires n <= |s| && x in s[..n]
    ensures FirstIndex(s, x) == FirstIndex(s[..n], x)
  {
    var i := FirstIndex(s[..n], x);
    var j := FirstIndex(s, x);
    assert s[..n][i] == s[i];
  }

  /**
   * The batch keeps first-occurrence order: an earlier entry of the batch
   * first appears in the inbox before a later one.
   */
  lemma DedupOrder(s: seq<string>)
    ensures forall i, j | 0 <= i < j < |Dedup(s)| ::
      FirstIndex(s, Dedup(s)[i]) < FirstIndex(s, Dedup(s)[j])
  {
    forall i, j | 0 <= i < j < |Dedup(s)|
      ensures FirstIndex(s, Dedup(s)[i]) < FirstIndex(s, Dedup(s)[j])
    {
      DedupOrderAt(s, i, j);
    }
  }

  lemma {:induction false} DedupOrderAt(s: seq<string>, i: nat, j: nat)
    requires i < j < |Dedup(s)|
    ensures FirstIndex(s, Dedup(s)[i]) < FirstIndex(s, Dedup(s)[j])
  {
    var n := |s| - 1;
    var init := s[..n];
    var d := Dedup(init);
    var r := Dedup(s);
    assert r[i] == d[i] && d[i] in init;
    FirstIndexPrefix(s, n, d[i]);
    if j < |d| {
      assert r[j] == d[j] && d[j] in init;
      FirstIndexPrefix(s, n, d[j]);
      DedupOrderAt(init, i, j);
    } else {
      assert r[j] == s[n] && s[n] !in init;
      assert forall k | 0 <= k < n :: init[k] == s[k];
    }
  }

  /** A batch with no repeats is collected unchanged. */
  lemma {:induction false} DedupOfDistinct(s: seq<string>)
    requires Distinct(s)
    ensures Dedup(s) == s
  {
    if |s| > 0 {
      var init := s[..|s| - 1];
      assert Distinct(init);
      DedupOfDistinct(init);
      assert s[|s| - 1] !in init;
      assert init + [s[|s| - 1]] == s;
    }
  }

  /** Collecting is idempotent. */
  lemma DedupIdempotent(s: seq<string>)
    ensures Dedup(Dedup(s)) == Dedup(s)
  {
    DedupOfDistinct(Dedup(s));
  }

  /** A burst a, b, a, b, b of two different texts collapses to a, b. */
  lemma DedupBurst(a: string, b: string)
    requires a != b
    ensures Dedup([a, b, a, b, b]) == [a, b]
  {
    assert [a, b, a, b, b][..4] == [a, b, a, b];
    assert Dedup([a]) == [a] by { assert [a][..0] == []; }
    assert Dedup([a, b]) == [a, b] by { assert [a, b][..1] == [a]; }
    assert Dedup([a, b, a]) == [a, b] by { assert [a, b, a][..2] == [a, b]; }
    assert Dedup([a, b, a, b]) == [a, b] by { assert [a, b, a, b][..3] == [a, b, a]; }
  }
}
