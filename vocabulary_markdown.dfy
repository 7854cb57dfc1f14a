/** generate_markdown.py: the word-level rules behind each chapter page
    (derivatives, phonetics, emoji, sections, the high-frequency recap) and
    the folder arithmetic of `main`. */
module VocabularyMarkdown {
  import opened Text
  import opened Sequences
  import opened Chunking

  /** One entry of a chapter's word list. */
  datatype VocabWord = VocabWord(sequence: nat, word: string, definition: string, frequency: int)

  // ---------------------------------------------------------------- derivatives

  const IngSuffix: string := "ing *v.* (现在分词)"
  const EdSuffix: string := "ed *v.* (过去式/过去分词)"
  const IesSuffix: string := "ies *n.* (复数)"
  const IedSuffix: string := "ied *v.* (过去式)"
  const LySuffix: string := "ly *adv.* (副词)"
  const NessSuffix: string := "ness *n.* (名词)"

  /** The word without its last character. */
  function Base(w: string): string
    requires w != []
  {
    w[..|w| - 1]
  }

  /** Every derivative the rules produce for a lower-cased word, before the
      list is cut to three. */
  function Candidates(w: string): seq<string> {
    (if EndsWith(w, "e") then [Base(w) + IngSuffix, Base(w) + EdSuffix]
     else if EndsWith(w, "y") then [Base(w) + IesSuffix, Base(w) + IedSuffix]
     else [])
    + (if !EndsWith(w, "ly") then [w + LySuffix] else [])
    + (if !EndsWith(w, "ness") then [w + NessSuffix] else [])
  }

  /** `derivatives[:3]`. */
  function Derivatives(word: string): (r: seq<string>)
    ensures |r| <= 3
  {
    var c := Candidates(Lower(word));
    if |c| <= 3 then c else c[..3]
  }

  /** `_get_word_derivatives`. */
  method GetWordDerivatives(word: string) returns (derivatives: seq<string>)
    ensures derivatives == Derivatives(word)
  {
    var wordLower := Lower(word);
    derivatives := CollectDerivatives(wordLower);
    if |derivatives| > 3 {
      derivatives := derivatives[..3];
    }
  }

  /** The rules applied to a lower-cased word, before the cut to three. */
  method CollectDerivatives(wordLower: string) returns (derivatives: seq<string>)
    ensures derivatives == Candidates(wordLower)
  {
    derivatives := [];
    if EndsWith(wordLower, "e") {
      var base := wordLower[..|wordLower| - 1];
      derivatives := derivatives + [base + IngSuffix, base + EdSuffix];
    } else if EndsWith(wordLower, "y") {
      var base := wordLower[..|wordLower| - 1];
      derivatives := derivatives + [base + IesSuffix, base + IedSuffix];
    }
    if !EndsWith(wordLower, "ly") {
      derivatives := derivatives + [wordLower + LySuffix];
    }
    if !EndsWith(wordLower, "ness") {
      derivatives := derivatives + [wordLower + NessSuffix];
    }
  }

  /** A word ending in `e` cannot end in `ly`; one ending in `y` cannot end
      in `ness`. */
  lemma LastLetter(w: string)
    ensures EndsWith(w, "e") ==> !EndsWith(w, "ly")
    ensures EndsWith(w, "y") ==> !EndsWith(w, "ness")
    ensures !EndsWith(w, "y") ==> !EndsWith(w, "ly")
  {
    if EndsWith(w, "ly") {
      assert w[|w| - 1] == w[|w| - 2..][1];
    }
    if EndsWith(w, "ness") {
      assert w[|w| - 1] == w[|w| - 4..][3];
    }
  }

  /** For a word ending in `e`: present participle, past form, adverb. */
  lemma DerivativesOfE(word: string)
    requires EndsWith(Lower(word), "e")
    ensures var w := Lower(word);
      Derivatives(word) == [Base(w) + IngSuffix, Base(w) + EdSuffix, w + LySuffix]
  {
    LastLetter(Lower(word));
  }

  /** For a word ending in `y` (not `e`): plural and past form, then the
      adverb, or the noun when the word already ends in `ly`. */
  lemma DerivativesOfY(word: string)
    requires EndsWith(Lower(word), "y")
    ensures var w := Lower(word);
      Derivatives(word) == [Base(w) + IesSuffix, Base(w) + IedSuffix,
                            if EndsWith(w, "ly") then w + NessSuffix else w + LySuffix]
  {
    var w := Lower(word);
    assert Candidates(w) == [Base(w) + IesSuffix, Base(w) + IedSuffix]
                            + (if EndsWith(w, "ly") then [] else [w + LySuffix]) + [w + NessSuffix] by {
      CandidatesOfY(w);
    }
  }

  lemma CandidatesOfY(w: string)
    requires EndsWith(w, "y")
    ensures Candidates(w) == [Base(w) + IesSuffix, Base(w) + IedSuffix]
                             + (if EndsWith(w, "ly") then [] else [w + LySuffix]) + [w + NessSuffix]
  {
    LastLetter(w);
    assert !EndsWith(w, "e") by {
      assert w[|w| - 1] == w[|w| - 1..][0];
    }
  }

  /** Any other word: the adverb, then the noun unless it already ends in
      `ness`. */
  lemma DerivativesOfOther(word: string)
    requires !EndsWith(Lower(word), "e") && !EndsWith(Lower(word), "y")
    ensures var w := Lower(word);
      Derivatives(word) == [w + LySuffix] + (if EndsWith(w, "ness") then [] else [w + NessSuffix])
  {
    LastLetter(Lower(word));
  }

  // ---------------------------------------------------------------- phonetics

  /** `_generate_phonetic_placeholder`. */
  function Placeholder(w: string): string {
    "/" + w + "/"
  }

  /** `_get_phonetic`: the table entry of the lower-cased word, or the
      placeholder built from it. */
  function GetPhonetic(table: map<string, string>, word: string): (p: string)
    ensures Lower(word) in table ==> p == table[Lower(word)]
    ensures Lower(word) !in table ==> p == Placeholder(Lower(word))
  {
    var wordLower := Lower(word);
    if wordLower in table then table[wordLower] else Placeholder(wordLower)
  }

  /** The lookup ignores letter case. */
  lemma PhoneticIgnoresCase(table: map<string, string>, word: string)
    ensures GetPhonetic(table, word) == GetPhonetic(table, Lower(word))
  {
    LowerIdempotent(word);
  }

  /** A missing word gets slashes around its lower-cased spelling, and only
      that. */
  lemma PlaceholderShape(w: string)
    ensures |Placeholder(w)| == |w| + 2
    ensures Placeholder(w)[0] == '/' && Placeholder(w)[|w| + 1] == '/'
    ensures Placeholder(w)[1..|w| + 1] == w
  {
  }

  // ---------------------------------------------------------------- emoji

  const EmojiList: seq<string> := [
    "1\U{FE0F}\U{20E3}", "2\U{FE0F}\U{20E3}", "3\U{FE0F}\U{20E3}", "4\U{FE0F}\U{20E3}",
    "5\U{FE0F}\U{20E3}", "6\U{FE0F}\U{20E3}", "7\U{FE0F}\U{20E3}", "8\U{FE0F}\U{20E3}",
    "9\U{FE0F}\U{20E3}", "\U{1F51F}", "\U{1F31F}", "\U{1F4AB}", "\U{2B50}", "\U{2728}",
    "\U{1F3AF}", "\U{1F3C6}", "\U{1F4DA}", "\U{1F48E}", "\U{1F525}", "\U{26A1}",
    "\U{1F3AA}", "\U{1F3AD}", "\U{1F3A8}", "\U{1F3B5}", "\U{1F3B8}", "\U{1F3BA}",
    "\U{1F3BB}", "\U{1F3B9}", "\U{1F941}", "\U{1F3A4}"]

  lemma EmojiCount()
    ensures |EmojiList| == 30
  {
  }

  /** `emoji_list[index % len(emoji_list)]`: always a valid index. */
  function EmojiFor(index: nat): string {
    EmojiList[index % |EmojiList|]
  }

  /** Within a section of at most 30 words the i-th word gets the i-th emoji:
      the remainder never wraps. */
  lemma EmojiInSection(index: nat)
    requires index < 30
    ensures |EmojiList| == 30
    ensures EmojiFor(index) == EmojiList[index]
  {
    assert index % |EmojiList| == index by {
      EmojiCount();
    }
  }

  /** Indices 30 apart share an emoji. */
  lemma EmojiPeriodic(index: nat)
    ensures EmojiFor(index + 30) == EmojiFor(index)
  {
    EmojiCount();
  }

  // ---------------------------------------------------------------- sections

  const SectionSize: nat := 30

  /** The loop `for i in range(0, len(words), 30)` that appends
      `words[i:i + 30]`. */
  method SplitSections<W>(words: seq<W>) returns (sections: seq<seq<W>>)
    ensures |sections| == CeilDiv(|words|, SectionSize)
    ensures forall k | 0 <= k < |sections| :: sections[k] == ChunkAt(words, SectionSize, k)
  {
    sections := [];
    var i := 0;
    while i < |words|
      invariant i == SectionSize * |sections|
      invariant |sections| > 0 ==> (|sections| - 1) * SectionSize < |words|
      invariant |sections| <= CeilDiv(|words|, SectionSize)
      invariant forall k | 0 <= k < |sections| :: sections[k] == ChunkAt(words, SectionSize, k)
      decreases |words| - i
    {
      sections := sections + [words[i..Min(i + SectionSize, |words|)]];
      i := i + SectionSize;
    }
    CeilDivUnique(|words|, SectionSize, |sections|);
  }

  /** The sections, in order, are the chapter's words. */
  lemma SectionsReassemble<W>(words: seq<W>, sections: seq<seq<W>>)
    requires |sections| == CeilDiv(|words|, SectionSize)
    requires forall k | 0 <= k < |sections| :: sections[k] == ChunkAt(words, SectionSize, k)
    ensures Flatten(sections) == words
  {
    ChunksReassemble(words, SectionSize, sections);
  }

  /** `## 📚 第{n}节 (单词 {first 序号}-{last 序号})`. */
  function SectionHeading(n: nat, section: seq<VocabWord>): string
    requires section != []
  {
    "## \U{1F4DA} 第" + NatToString(n) + "节 (单词 "
    + NatToString(section[0].sequence) + "-" + NatToString(section[|section| - 1].sequence) + ")\n\n"
  }

  /** Section k (1-based) is headed by the 序号 of word (k-1)*30 and of the
      last word before the next section starts. */
  lemma SectionHeadingRange(words: seq<VocabWord>, k: nat)
    requires 1 <= k <= CeilDiv(|words|, SectionSize)
    ensures var first := ChunkStart(k - 1, SectionSize);
      var last := ChunkEnd(k - 1, SectionSize, |words|) - 1;
      0 <= first <= last < |words| &&
      SectionHeading(k, ChunkAt(words, SectionSize, k - 1))
        == "## \U{1F4DA} 第" + NatToString(k) + "节 (单词 "
           + NatToString(words[first].sequence) + "-" + NatToString(words[last].sequence) + ")\n\n"
  {
  }

  // ---------------------------------------------------------------- recap

  const HighFrequency: int := 1000
  const Bullet: string := " • "

  function HighFreqEntry(w: VocabWord): seq<string> {
    if w.frequency > HighFrequency then [w.word] else []
  }

  /** `[w["单词"] for w in words if w["词频"] > 1000]`. */
  function HighFreqWords(words: seq<VocabWord>): seq<string> {
    FlatMap(HighFreqEntry, words)
  }

  /** The recap line: the first ten, joined by bullets, and `...` when some
      were left out. */
  function Recap(words: seq<VocabWord>): string {
    var hf := HighFreqWords(words);
    Join(Bullet, hf[..Min(10, |hf|)]) + (if |hf| > 10 then "..." else "")
  }

  /** The list keeps input order: the words of a longer list follow those
      of its first part. */
  lemma HighFreqInOrder(a: seq<VocabWord>, b: seq<VocabWord>)
    ensures HighFreqWords(a + b) == HighFreqWords(a) + HighFreqWords(b)
  {
    FlatMapAppend(HighFreqEntry, a, b);
  }

  /** Only words above the threshold are listed, each once per entry. */
  lemma {:induction false} HighFreqOnly(words: seq<VocabWord>, s: string)
    ensures s in HighFreqWords(words) <==> exists i | 0 <= i < |words| :: words[i].frequency > HighFrequency && words[i].word == s
  {
    if words != [] {
      var n := |words| - 1;
      HighFreqOnly(words[..n], s);
      assert forall i | 0 <= i < n :: words[..n][i] == words[i];
    }
  }

  /** With ten or fewer, all are shown and nothing is appended. */
  lemma RecapFew(words: seq<VocabWord>)
    requires |HighFreqWords(words)| <= 10
    ensures Recap(words) == Join(Bullet, HighFreqWords(words))
  {
    var hf := HighFreqWords(words);
    assert hf[..|hf|] == hf;
    assert Join(Bullet, hf) + "" == Join(Bullet, hf);
  }

  /** With more than ten, exactly the first ten are shown, then `...`. */
  lemma RecapMany(words: seq<VocabWord>)
    requires |HighFreqWords(words)| > 10
    ensures Recap(words) == Join(Bullet, HighFreqWords(words)[..10]) + "..."
    ensures EndsWith(Recap(words), "...")
  {
  }

  // ---------------------------------------------------------------- folders

  /** `((n - 1) // 5) * 5 + 1`. */
  function FolderStart(n: nat): nat
    requires n >= 1
  {
    ((n - 1) / 5) * 5 + 1
  }

  /** `min(folder_start + 4, total)`. */
  function FolderEnd(n: nat, total: nat): int
    requires n >= 1
  {
    Min(FolderStart(n) + 5 - 1, total)
  }

  /** `考研词汇_第{start}-{end}章`. */
  function FolderName(n: nat, total: nat): string
    requires 1 <= n <= total
  {
    "考研词汇_第" + NatToString(FolderStart(n)) + "-" + IntToString(FolderEnd(n, total)) + "章"
  }

  /** Every chapter lies in its own folder's range, and a folder spans at
      most five chapters. */
  lemma FolderContains(n: nat, total: nat)
    requires 1 <= n <= total
    ensures FolderStart(n) <= n <= FolderEnd(n, total)
    ensures FolderEnd(n, total) - FolderStart(n) < 5
    ensures (FolderStart(n) - 1) % 5 == 0
  {
  }

  /** Folders are the groups of five chapters: the range is group
      (n - 1) / 5 of the chapters, counted from 1. */
  lemma FolderIsChunk(n: nat, total: nat)
    requires 1 <= n <= total
    ensures (n - 1) / 5 < CeilDiv(total, 5)
    ensures FolderStart(n) == ChunkStart((n - 1) / 5, 5) + 1
    ensures FolderEnd(n, total) == ChunkEnd((n - 1) / 5, 5, total)
  {
  }

  /** Two chapters share a folder exactly when they are in the same group
      of five. */
  lemma SameFolder(n: nat, m: nat, total: nat)
    requires 1 <= n <= total && 1 <= m <= total
    ensures FolderName(n, total) == FolderName(m, total) <==> (n - 1) / 5 == (m - 1) / 5
  {
    if FolderName(n, total) == FolderName(m, total) {
      var p, q := NatToString(FolderStart(n)), NatToString(FolderStart(m));
      DigitsBeforeDash("考研词汇_第", p, q, IntToString(FolderEnd(n, total)), IntToString(FolderEnd(m, total)), "章");
      assert FolderStart(n) == FolderStart(m) by {
        assert ParseNat(p) == ParseNat(q);
      }
    }
  }

  lemma DigitsThenDash(prefix: string, p: string, e: string, t: string)
    ensures (prefix + p + "-" + e + t)[|prefix| + |p|] == '-'
    ensures forall i | 0 <= i < |p| :: (prefix + p + "-" + e + t)[|prefix| + i] == p[i]
  {
  }

  /** A run of digits followed by a dash is read back unambiguously. */
  lemma DigitsBeforeDash(prefix: string, p: string, q: string, e1: string, e2: string, t: string)
    requires IsDigits(p) && IsDigits(q)
    requires prefix + p + "-" + e1 + t == prefix + q + "-" + e2 + t
    ensures p == q
  {
    DigitsThenDash(prefix, p, e1, t);
    DigitsThenDash(prefix, q, e2, t);
    if |p| < |q| {
      assert false;
    } else if |q| < |p| {
      assert false;
    }
    assert p == (prefix + p + "-" + e1 + t)[|prefix|..|prefix| + |p|];
    assert q == (prefix + q + "-" + e2 + t)[|prefix|..|prefix| + |q|];
  }
}
