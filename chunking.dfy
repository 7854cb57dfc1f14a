/** Fixed-size chunking shared by the scripts: chapters of 90 words, parts of
    500 table lines, sections of 30 words and folders of 5 chapters are all
    "split N items into consecutive groups of K". */
module Chunking {
  import opened Sequences

  function Min(a: int, b: int): int { if a <= b then a else b }

  /** The number of groups, written as the scripts write it: `(n + k - 1) // k`
      (and `math.ceil(n / k)`, which agrees with it on integers). It is the
      least r with r * k >= n. */
  function CeilDiv(n: nat, k: nat): (r: nat)
    requires k >= 1
    ensures r * k >= n
    ensures r > 0 ==> (r - 1) * k < n
    ensures r == 0 <==> n == 0
  {
    var q := (n + k - 1) / k;
    assert n + k - 1 == q * k + (n + k - 1) % k;
    q
  }

  /** Two counts that both meet CeilDiv's contract are equal. */
  lemma CeilDivUnique(n: nat, k: nat, r: nat)
    requires k >= 1
    requires r * k >= n && (r > 0 ==> (r - 1) * k < n)
    ensures r == CeilDiv(n, k)
  {
    var c := CeilDiv(n, k);
    if r < c {
      MulMono(r, c - 1, k);
    } else if c < r {
      MulMono(c, r - 1, k);
    }
  }

  lemma MulMono(a: nat, b: nat, k: nat)
    requires a <= b
    ensures a * k <= b * k
  {
    assert b * k == a * k + (b - a) * k;
  }

  /** Reference definition of the grouping: take k items, then group the rest. */
  function Chunks<T>(s: seq<T>, k: nat): (r: seq<seq<T>>)
    requires k >= 1
    ensures Flatten(r) == s
    ensures |r| == CeilDiv(|s|, k)
    ensures forall i | 0 <= i < |r| :: 0 < |r[i]| <= k
    decreases |s|
  {
    if s == [] then []
    else if |s| <= k then
      assert Flatten([s]) == s + Flatten([]);
      CeilDivUnique(|s|, k, 1);
      [s]
    else
      var rest := Chunks(s[k..], k);
      var r := [s[..k]] + rest;
      assert r[1..] == rest;
      assert s == s[..k] + s[k..];
      CeilDivUnique(|s|, k, |rest| + 1);
      r
  }

  /** First position (0-based) of group i: the scripts' `i * k`. */
  function ChunkStart(i: nat, k: nat): nat { i * k }

  /** One past the last position of group i: `min(i * k + k, n)`. */
  function ChunkEnd(i: nat, k: nat, n: nat): nat { Min(i * k + k, n) }

  /** Group i (0-based) by index arithmetic, as the scripts slice it. */
  function ChunkAt<T>(s: seq<T>, k: nat, i: nat): (r: seq<T>)
    requires k >= 1 && i < CeilDiv(|s|, k)
    ensures |r| == ChunkEnd(i, k, |s|) - ChunkStart(i, k)
    ensures 0 < |r| <= k
  {
    MulMono(i, CeilDiv(|s|, k) - 1, k);
    s[ChunkStart(i, k)..ChunkEnd(i, k, |s|)]
  }

  /** The index arithmetic gives exactly the reference groups. */
  lemma {:induction false} ChunkAtIsChunk<T>(s: seq<T>, k: nat, i: nat)
    requires k >= 1 && i < CeilDiv(|s|, k)
    ensures Chunks(s, k)[i] == ChunkAt(s, k, i)
    decreases i
  {
    if i == 0 {
      FirstChunk(s, k);
    } else {
      assert |s| > k by {
        if |s| <= k { CeilDivUnique(|s|, k, 1); }
      }
      var rest := s[k..];
      assert i - 1 < CeilDiv(|rest|, k) && ChunkAt(rest, k, i - 1) == ChunkAt(s, k, i) by {
        ShiftedChunk(s, k, i);
      }
      assert Chunks(s, k)[i] == Chunks(rest, k)[i - 1] by {
        ChunksTail(s, k);
      }
      ChunkAtIsChunk(rest, k, i - 1);
    }
  }

  lemma FirstChunk<T>(s: seq<T>, k: nat)
    requires k >= 1 && 0 < CeilDiv(|s|, k)
    ensures Chunks(s, k)[0] == ChunkAt(s, k, 0)
  {
  }

  lemma ChunksTail<T>(s: seq<T>, k: nat)
    requires k >= 1 && |s| > k
    ensures Chunks(s, k) == [s[..k]] + Chunks(s[k..], k)
  {
  }

  lemma CeilDivStep(n: nat, k: nat)
    requires k >= 1 && n > k
    ensures CeilDiv(n, k) == CeilDiv(n - k, k) + 1
  {
    var c := CeilDiv(n - k, k);
    assert (c + 1) * k == c * k + k;
    CeilDivUnique(n, k, c + 1);
  }

  /** Group i of s is group i - 1 of s without its first k items. */
  lemma ShiftedChunk<T>(s: seq<T>, k: nat, i: nat)
    requires k >= 1 && 0 < i < CeilDiv(|s|, k) && |s| > k
    ensures i - 1 < CeilDiv(|s| - k, k)
    ensures ChunkAt(s[k..], k, i - 1) == ChunkAt(s, k, i)
  {
    CeilDivStep(|s|, k);
    assert (i - 1) * k + k == i * k;
  }

  /** Of two groups, the earlier is non-empty and ends no later than the
      later starts, with no gap between neighbours; the last ends at n. */
  lemma ChunkBounds(n: nat, k: nat, i: nat, j: nat)
    requires k >= 1 && i < j < CeilDiv(n, k)
    ensures ChunkStart(i, k) < ChunkEnd(i, k, n) <= ChunkStart(j, k)
    ensures j == i + 1 ==> ChunkEnd(i, k, n) == ChunkStart(j, k)
    ensures ChunkEnd(CeilDiv(n, k) - 1, k, n) == n
  {
    var c := CeilDiv(n, k);
    MulMono(i + 1, j, k);
    MulMono(j, c - 1, k);
    assert (c - 1) * k + k == c * k;
  }

  /** However many groups there are, one included: each group is non-empty
      and the last ends at n. */
  lemma ChunkEnds(n: nat, k: nat, i: nat)
    requires k >= 1 && i < CeilDiv(n, k)
    ensures ChunkStart(i, k) < ChunkEnd(i, k, n)
    ensures ChunkEnd(CeilDiv(n, k) - 1, k, n) == n
  {
    var c := CeilDiv(n, k);
    MulMono(i, c - 1, k);
    assert (c - 1) * k + k == c * k;
  }

  /** All groups but the last hold exactly k items. */
  lemma ChunkFull<T>(s: seq<T>, k: nat, i: nat)
    requires k >= 1 && i + 1 < CeilDiv(|s|, k)
    ensures |ChunkAt(s, k, i)| == k
  {
    ChunkBounds(|s|, k, i, i + 1);
    MulMono(i + 1, CeilDiv(|s|, k) - 1, k);
  }

  /** The groups put back together in order give the input: nothing lost,
      nothing repeated. */
  lemma ChunksReassemble<T>(s: seq<T>, k: nat, groups: seq<seq<T>>)
    requires k >= 1 && |groups| == CeilDiv(|s|, k)
    requires forall i | 0 <= i < |groups| :: groups[i] == ChunkAt(s, k, i)
    ensures groups == Chunks(s, k)
    ensures Flatten(groups) == s
  {
    forall i | 0 <= i < |groups| ensures groups[i] == Chunks(s, k)[i] {
      ChunkAtIsChunk(s, k, i);
    }
  }
}
