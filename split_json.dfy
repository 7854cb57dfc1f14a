/** split_json.py: the word list cut into chapters of 90 words, each with
    its metadata and its own file name. */
module SplitJson {
  import opened Wrappers
  import opened Text
  import opened Sequences
  import opened Chunking

  const WordsPerChapter: nat := 90

  /** The `chapter_info` record. */
  datatype ChapterInfo = ChapterInfo(chapterNumber: nat, totalChapters: nat, wordsRange: string, wordCount: nat)

  /** One output file: its name, its metadata and its slice of words. */
  datatype Chapter<W> = Chapter(fileName: string, info: ChapterInfo, words: seq<W>)

  /** The number of chapters for n words. */
  function TotalChapters(n: nat): nat {
    CeilDiv(n, WordsPerChapter)
  }

  /** `f"{start + 1}-{end}"`: the 1-based inclusive range. */
  function RangeText(start: nat, end: nat): string {
    NatToString(start + 1) + "-" + NatToString(end)
  }

  /** `f"chapter_{n:02d}.json"`. */
  function ChapterFileName(n: nat): string {
    "chapter_" + Pad2(n) + ".json"
  }

  /** Chapter n (1-based) of the word list, as the loop builds it. */
  function ChapterAt<W>(words: seq<W>, n: nat): Chapter<W>
    requires 1 <= n <= TotalChapters(|words|)
  {
    var start := ChunkStart(n - 1, WordsPerChapter);
    var end := ChunkEnd(n - 1, WordsPerChapter, |words|);
    var slice := ChunkAt(words, WordsPerChapter, n - 1);
    Chapter(ChapterFileName(n), ChapterInfo(n, TotalChapters(|words|), RangeText(start, end), |slice|), slice)
  }

  /** `split_json_into_chapters`, returning the chapters it writes. */
  method SplitJsonIntoChapters<W>(words: seq<W>) returns (chapters: seq<Chapter<W>>)
    ensures |chapters| == TotalChapters(|words|)
    ensures forall i | 0 <= i < |chapters| :: chapters[i] == ChapterAt(words, i + 1)
  {
    var wordsPerChapter := 90;
    var totalChapters := (|words| + wordsPerChapter - 1) / wordsPerChapter;
    assert totalChapters == TotalChapters(|words|);
    chapters := [];
    for chapterNum := 1 to totalChapters + 1
      invariant chapters == FirstChapters(words, chapterNum - 1)
    {
      var chapter := MakeChapter(words, chapterNum, totalChapters);
      FirstChaptersSnoc(words, chapterNum - 1);
      chapters := chapters + [chapter];
    }
  }

  /** The first m chapters. */
  function FirstChapters<W>(words: seq<W>, m: nat): (cs: seq<Chapter<W>>)
    requires m <= TotalChapters(|words|)
    ensures |cs| == m
    ensures forall i | 0 <= i < m :: cs[i] == ChapterAt(words, i + 1)
  {
    seq(m, i requires 0 <= i < m => ChapterAt(words, i + 1))
  }

  lemma FirstChaptersSnoc<W>(words: seq<W>, m: nat)
    requires m < TotalChapters(|words|)
    ensures FirstChapters(words, m + 1) == FirstChapters(words, m) + [ChapterAt(words, m + 1)]
  {
    var s, t := FirstChapters(words, m), FirstChapters(words, m + 1);
    assert t[..m] == s by {
      forall i | 0 <= i < m ensures t[..m][i] == s[i] {
        assert t[i] == ChapterAt(words, i + 1);
      }
    }
    SnocSplit(t);
  }

  method MakeChapter<W>(words: seq<W>, chapterNum: nat, totalChapters: nat) returns (chapter: Chapter<W>)
    requires totalChapters == TotalChapters(|words|) && 1 <= chapterNum <= totalChapters
    ensures chapter == ChapterAt(words, chapterNum)
  {
    var wordsPerChapter := 90;
    var startIdx := (chapterNum - 1) * wordsPerChapter;
    var endIdx := Min(startIdx + wordsPerChapter, |words|);
    var chapterWords := ChunkAt(words, wordsPerChapter, chapterNum - 1);
    var info := ChapterInfo(chapterNum, totalChapters, RangeText(startIdx, endIdx), |chapterWords|);
    chapter := Chapter("chapter_" + Pad2(chapterNum) + ".json", info, chapterWords);
  }

  /** The chapters' words, in chapter order, are the input list: no word is
      lost or repeated. */
  lemma ChaptersReassemble<W>(words: seq<W>, chapters: seq<Chapter<W>>)
    requires |chapters| == TotalChapters(|words|)
    requires forall i | 0 <= i < |chapters| :: chapters[i] == ChapterAt(words, i + 1)
    ensures Flatten(seq(|chapters|, i requires 0 <= i < |chapters| => chapters[i].words)) == words
  {
    var groups := seq(|chapters|, i requires 0 <= i < |chapters| => chapters[i].words);
    ChunksReassemble(words, WordsPerChapter, groups);
  }

  /** Every chapter holds 90 words except possibly the last, which holds
      between 1 and 90; the count recorded is the slice's length. */
  lemma ChapterSizes<W>(words: seq<W>, n: nat)
    requires 1 <= n <= TotalChapters(|words|)
    ensures ChapterAt(words, n).info.wordCount == |ChapterAt(words, n).words|
    ensures 1 <= |ChapterAt(words, n).words| <= WordsPerChapter
    ensures n < TotalChapters(|words|) ==> |ChapterAt(words, n).words| == WordsPerChapter
  {
    if n < TotalChapters(|words|) {
      ChunkFull(words, WordsPerChapter, n - 1);
    }
  }

  /** Of `wordCount` words, chapter n is non-empty and, unless it is the
      last, ends where chapter n + 1 starts; the last chapter ends at the
      last word, also when there is a single chapter. */
  lemma ChapterBoundaries(wordCount: nat, n: nat)
    requires 1 <= n <= TotalChapters(wordCount)
    ensures ChunkStart(n - 1, WordsPerChapter) < ChunkEnd(n - 1, WordsPerChapter, wordCount)
    ensures n < TotalChapters(wordCount) ==> ChunkEnd(n - 1, WordsPerChapter, wordCount) == ChunkStart(n, WordsPerChapter)
    ensures ChunkEnd(TotalChapters(wordCount) - 1, WordsPerChapter, wordCount) == wordCount
  {
    ChunkEnds(wordCount, WordsPerChapter, n - 1);
    if n < TotalChapters(wordCount) {
      ChunkBounds(wordCount, WordsPerChapter, n - 1, n);
    }
  }

  /** No words, no chapters. */
  lemma NoWordsNoChapters<W>(words: seq<W>)
    ensures TotalChapters(|words|) == 0 <==> words == []
  {
  }

  /** Reading a range back: the two numbers around the dash. */
  function ParseRange(s: string): Option<(nat, nat)> {
    var parts := Split(s, '-');
    if |parts| == 2 && (forall i | 0 <= i < |parts[0]| :: IsDigit(parts[0][i]))
                    && (forall i | 0 <= i < |parts[1]| :: IsDigit(parts[1][i]))
    then Some((ParseNat(parts[0]), ParseNat(parts[1])))
    else None
  }

  /** The range text reads back as first word and last word, and the
      number of words it spans is the chapter's word count. */
  lemma RangeReadsBack<W>(words: seq<W>, n: nat)
    requires 1 <= n <= TotalChapters(|words|)
    ensures var info := ChapterAt(words, n).info;
      ParseRange(info.wordsRange) == Some((ChunkStart(n - 1, WordsPerChapter) + 1, ChunkEnd(n - 1, WordsPerChapter, |words|)))
      && info.wordCount == ChunkEnd(n - 1, WordsPerChapter, |words|) - ChunkStart(n - 1, WordsPerChapter)
  {
    var start := ChunkStart(n - 1, WordsPerChapter);
    var end := ChunkEnd(n - 1, WordsPerChapter, |words|);
    RangeParses(start, end);
  }

  lemma RangeParses(start: nat, end: nat)
    ensures ParseRange(RangeText(start, end)) == Some((start + 1, end))
  {
    var a, b := NatToString(start + 1), NatToString(end);
    assert RangeText(start, end) == Join("-", [a, b]);
    SplitJoin([a, b], '-');
  }

  /** Different chapters get different file names. */
  lemma FileNamesDiffer(n: nat, m: nat)
    requires ChapterFileName(n) == ChapterFileName(m)
    ensures n == m
  {
    var p, q := Pad2(n), Pad2(m);
    assert |p| == |q|;
    assert p == ChapterFileName(n)[8..8 + |p|];
    assert q == ChapterFileName(m)[8..8 + |q|];
  }
}
