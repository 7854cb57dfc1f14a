# KYZHYZ_Vol vocabulary scripts in Dafny

This project models the Python scripts that turn the graduate-entrance
vocabulary list (`netem_full_list.json`) into study material:

- `scripts/generate_json/json_to_markdown.py` renders any JSON value as
  Markdown: a mapping as nested `#` headings, a list of mappings as a pipe
  table, any other list as bullets, and a scalar as a line of text.
- `scripts/generate_json/split_md_by_words.py` picks the table rows out of a
  Markdown file, adds a familiarity column and cuts the rows into part files
  of `words_per_file` rows.
- `a.py` turns the numbered rows of each part into `###` heading blocks.
- `scripts/generate-doc/split_json.py` cuts the word list into chapters of
  90 words. Each chapter carries its metadata and its file name.
- `scripts/generate-doc/generate_markdown.py` holds the word-level rules of
  a chapter page: derivatives, phonetics, the emoji, sections of 30 words
  and the high-frequency recap. Its `main` also groups chapters into
  folders of five.
- `b.py` counts how many words carry each frequency value. It then reads
  the counts off for the frequencies 1..399.

Each script has one module. The loops the scripts run are Dafny methods.
Each method is proved equal to a reference function, and the properties
the scripts promise are lemmas about those functions. Shared pieces have
their own modules:

- `Text`: ASCII strip, split, join, lower-casing and decimal conversion.
- `PipeTable`: how a table row is written and how `a.py` reads it back.
- `Chunking`: "cut n items into consecutive groups of k", used for
  chapters, parts, sections and folders.
- `Sequences`: flattening and the first match in a sequence.

`Pipeline` proves how the scripts compose. A row that
`split_md_by_words.py` rewrites is read by `a.py`.

All file reading and writing is replaced by in-memory values. Input files
are sequences of lines, parsed JSON is the `Json` datatype, and written
files are returned as values.

## Model

| member | source | states |
|---|---|---|
| JsonToMarkdown.ToMd | scripts/generate_json/json_to_markdown.py:26-40 | the recursive `to_md`, built with `+=` in loops, produces exactly the reference rendering `Render` |
| JsonToMarkdown.JsonToMarkdownText | scripts/generate_json/json_to_markdown.py:42 | the whole document is the rendering at level 1 |
| JsonToMarkdown.MappingRendersInOrder | scripts/generate_json/json_to_markdown.py:28-31 | a mapping renders as one block per key in insertion order: the key's heading, then its value one level deeper |
| JsonToMarkdown.HeadingShape | scripts/generate_json/json_to_markdown.py:30 | a heading is exactly `level` hash signs, a space, the key and a blank line |
| JsonToMarkdown.NestedMappingExample | scripts/generate_json/json_to_markdown.py:28-39 | a mapping nested in a mapping gives `# A`, `## B` and the text |
| JsonToMarkdown.ScalarListRendersBullets | scripts/generate_json/json_to_markdown.py:35-37 | a list with a non-mapping element renders one `- v` line per element, in order, without numbering |
| JsonToMarkdown.BulletsToMd | scripts/generate_json/json_to_markdown.py:35-37 | the bullet loop, one `+=` per element, yields the reference bullet lines `Bullets`, concatenated in element order |
| JsonToMarkdown.EmptyListRendersNewline | scripts/generate_json/json_to_markdown.py:16-34 | an empty list counts as a list of mappings; its table is empty, so it renders as one newline |
| JsonToMarkdown.ScalarRendersText | scripts/generate_json/json_to_markdown.py:38-39 | a scalar renders as its `str()` and a blank line; null renders as `None` |
| JsonToMarkdown.ListOfDictsToMdTable | scripts/generate_json/json_to_markdown.py:15-24 | the row-accumulating loop yields the reference table lines, concatenated |
| JsonToMarkdown.RowsSnoc | scripts/generate_json/json_to_markdown.py:22-23 | one more pass of the row loop appends exactly the next record's row to the accumulated rows |
| JsonToMarkdown.TableText | scripts/generate_json/json_to_markdown.py:19-24 | a non-empty table's text is the header row, then the separator row with one `---` per column, then the data rows |
| JsonToMarkdown.TableShape | scripts/generate_json/json_to_markdown.py:18-24 | a table has `len(lst) + 2` lines: the first record's keys, one `---` per column, then one row per record in order under those columns |
| JsonToMarkdown.CellUnderColumn | scripts/generate_json/json_to_markdown.py:23 | a cell holds the record's value for the column, or is empty when the record lacks that key |
| JsonToMarkdown.DataRowsAt | scripts/generate_json/json_to_markdown.py:21-23 | data row i is record i written under the column keys |
| JsonToMarkdown.ExtraKeysDropped | scripts/generate_json/json_to_markdown.py:18-23 | a record's keys outside the columns never show: two records that agree on the columns give the same cells |
| JsonToMarkdown.MissingKeyExample | scripts/generate_json/json_to_markdown.py:23 | a record lacking a column gets an empty cell, not an error |
| JsonToMarkdown.DictToMdTable | scripts/generate_json/json_to_markdown.py:8-13 | definition; `DictTableIsOneRowTable` states that it is the table of the one-record list |
| JsonToMarkdown.DictTableIsOneRowTable | scripts/generate_json/json_to_markdown.py:8-13 | `dict_to_md_table` is the three-line table of the one-record list |
| JsonToMarkdown.Keys | scripts/generate_json/json_to_markdown.py:18 | the column keys are the entries' keys in order |
| JsonToMarkdown.Lookup | scripts/generate_json/json_to_markdown.py:23 | a key is found exactly when it is one of the record's keys, and the value found is that of the first entry with the key |
| PipeTable.ParseCells | a.py:19 | the cells have one more element than there are pipes inside the outer pipes; no cell holds a pipe or edge whitespace |
| PipeTable.RowParsesBack | a.py:19 | reading a row written as pipe, space, the cells joined by space-pipe-space, space, pipe gives its cells back |
| PipeTable.ExtraCell | scripts/generate_json/split_md_by_words.py:37-39 | cutting a written row's closing pipe and appending a space, a pipe, a pipe-free piece and a closing pipe adds that piece, trimmed, as one more cell |
| SplitMarkdown.CollectTableLines | scripts/generate_json/split_md_by_words.py:7-16 | the first loop computes the reference scan `ScanLines` |
| SplitMarkdown.ScanSpec | scripts/generate_json/split_md_by_words.py:9-16 | the header is the first table line, stripped; the word lines are the later table lines that are not separators, stripped, in order |
| SplitMarkdown.SeparatorIsCharSet | scripts/generate_json/split_md_by_words.py:14 | the separator test holds exactly when the stripped line's character set is pipe, dash and space |
| SplitMarkdown.SeparatorRowDropped | scripts/generate_json/split_md_by_words.py:10-15 | a written separator row `\| --- \| … \|` is a table line and is dropped |
| SplitMarkdown.CompactSeparatorKept | scripts/generate_json/split_md_by_words.py:14-16 | `\|---\|---\|` has no space, so it is kept as a word line |
| SplitMarkdown.PrepareLayout | scripts/generate_json/split_md_by_words.py:19-26 | header, separator and word lines are chosen as the reference `Prepare` chooses them |
| SplitMarkdown.NewHeader | scripts/generate_json/split_md_by_words.py:20 | definition; `HeaderGainsColumn` states that the new header reads back as the old cells plus the familiarity column |
| SplitMarkdown.HeaderGainsColumn | scripts/generate_json/split_md_by_words.py:20 | the new header reads back as the old header's cells plus `熟悉度(0/1/2)` |
| SplitMarkdown.RowPipeCount | scripts/generate_json/split_md_by_words.py:21 | a written row of n cells holds n + 1 pipes |
| SplitMarkdown.NewSeparator | scripts/generate_json/split_md_by_words.py:21-22 | definition; `SeparatorMatchesHeader` states that it has one `---` cell per column of the new header |
| SplitMarkdown.SeparatorMatchesHeader | scripts/generate_json/split_md_by_words.py:21-22 | for a header written from n cells, the new separator has n + 1 `---` cells, one per column of the new header |
| SplitMarkdown.WriteParts | scripts/generate_json/split_md_by_words.py:28-36 | there are `ceil(total / k)` parts; part i is named `prefix + str(i + 1) + ".md"` and holds word lines `i*k` up to `(i+1)*k` |
| SplitMarkdown.SplitMarkdownByWords | scripts/generate_json/split_md_by_words.py:3-42 | every part starts with the same header and separator, then its group of word lines rewritten |
| SplitMarkdown.Parts | scripts/generate_json/split_md_by_words.py:28-32 | the parts, in order, are the word lines: nothing lost, nothing repeated |
| SplitMarkdown.RewriteRow | scripts/generate_json/split_md_by_words.py:38-41 | definition; `RowGainsEmptyCell` and `PlainLineRow` state that a table row gains one empty cell and a plain line becomes a two-cell row |
| SplitMarkdown.WritePart | scripts/generate_json/split_md_by_words.py:34-41 | a part's text is header, separator, then each line rewritten in order |
| SplitMarkdown.RowGainsEmptyCell | scripts/generate_json/split_md_by_words.py:38-39 | a rewritten table row reads back as its cells plus one empty cell |
| SplitMarkdown.PlainLineRow | scripts/generate_json/split_md_by_words.py:40-41 | a line without a pipe becomes a two-cell row: the line and an empty cell |
| TableToHeadings.EmitLine | a.py:17-29 | one pass of the loop appends exactly the line's reference output `LineOutput` to the lines built so far |
| TableToHeadings.LineOutput | a.py:17-29 | definition; `WordRowOutput`, `SkippedLines` and `WrittenRowOutput` state when a line emits its block and when nothing |
| TableToHeadings.Block | a.py:25-29 | definition; `BlockShape` states its lines: heading, meaning, the optional spelling line and a blank line |
| TableToHeadings.ConvertTableToHeadings | a.py:14-29 | the loop over a file's lines yields each line's output in line order |
| TableToHeadings.ConvertAppend | a.py:14-29 | the output of a file is the output of its first lines followed by that of the rest |
| TableToHeadings.SkippedLines | a.py:17-32 | separator lines and lines not starting with `\|` produce nothing |
| TableToHeadings.SeparatorRowSkipped | a.py:31-32 | a written separator row produces nothing |
| TableToHeadings.WordRowOutput | a.py:17-29 | a row line with at least four cells whose first is digits emits that row's block |
| TableToHeadings.WrittenRowOutput | a.py:19-20 | a written row emits its block when it has four cells or more and its first is digits, and nothing otherwise (the `序号` header row included) |
| TableToHeadings.BlockShape | a.py:21-29 | a block is `### index word`, the meaning, the `其他拼写:` line exactly when a fifth cell is non-empty and not `none` in any case, and a blank line; the second cell never shows |
| SplitJson.SplitJsonIntoChapters | scripts/generate-doc/split_json.py:24-52 | there are `ceil(N / 90)` chapters; chapter i is the reference `ChapterAt(words, i)` with number, total, range, count and file name |
| SplitJson.MakeChapter | scripts/generate-doc/split_json.py:35-52 | the loop body builds exactly the reference chapter `ChapterAt(words, n)` |
| SplitJson.ChapterFileName | scripts/generate-doc/split_json.py:52 | definition; `FileNamesDiffer` states that distinct chapters get distinct names, and `Pad2` gives the two-digit number |
| SplitJson.FirstChaptersSnoc | scripts/generate-doc/split_json.py:34-38 | one more pass of the chapter loop appends exactly the next chapter to those already built |
| SplitJson.ChaptersReassemble | scripts/generate-doc/split_json.py:34-38 | the chapters' words, in chapter order, are the input list |
| SplitJson.ChapterSizes | scripts/generate-doc/split_json.py:36-46 | `word_count` is the slice length; every chapter holds 1 to 90 words, and all but the last exactly 90 |
| SplitJson.ChapterBoundaries | scripts/generate-doc/split_json.py:35-36 | every chapter is non-empty, each but the last ends where the next starts, and the last ends at N, also for a single chapter |
| SplitJson.NoWordsNoChapters | scripts/generate-doc/split_json.py:25 | there are no chapters exactly when there are no words |
| SplitJson.RangeReadsBack | scripts/generate-doc/split_json.py:45-46 | `words_range` reads back as first and last 1-based word number, and spans `word_count` words |
| SplitJson.FileNamesDiffer | scripts/generate-doc/split_json.py:52 | distinct chapters get distinct file names |
| Text.Pad2 | scripts/generate-doc/split_json.py:52 | `{n:02d}` reads back as n; a one-digit n gets exactly one leading zero and a wider n is its plain decimal text |
| VocabularyMarkdown.GetWordDerivatives | scripts/generate-doc/generate_markdown.py:70-97 | the method builds the reference list `Derivatives` |
| VocabularyMarkdown.CollectDerivatives | scripts/generate-doc/generate_markdown.py:72-95 | the branch-and-append code builds exactly the candidate list `Candidates` before the cut to three |
| VocabularyMarkdown.Derivatives | scripts/generate-doc/generate_markdown.py:97 | at most three derivatives |
| VocabularyMarkdown.DerivativesOfE | scripts/generate-doc/generate_markdown.py:76-97 | a word ending in `e` gets base+`ing`, base+`ed`, word+`ly` |
| VocabularyMarkdown.DerivativesOfY | scripts/generate-doc/generate_markdown.py:82-95 | a word ending in `y` gets base+`ies`, base+`ied`, then word+`ly`, or word+`ness` when it ends in `ly` |
| VocabularyMarkdown.DerivativesOfOther | scripts/generate-doc/generate_markdown.py:89-95 | any other word gets word+`ly`, then word+`ness` unless it ends in `ness` |
| VocabularyMarkdown.GetPhonetic | scripts/generate-doc/generate_markdown.py:55-68 | the table entry of the lower-cased word, or `/word/` for a word not in the table |
| VocabularyMarkdown.PhoneticIgnoresCase | scripts/generate-doc/generate_markdown.py:57 | the lookup does not depend on letter case |
| VocabularyMarkdown.Placeholder | scripts/generate-doc/generate_markdown.py:64-68 | definition; `PlaceholderShape` states that it is the word between two slashes |
| VocabularyMarkdown.PlaceholderShape | scripts/generate-doc/generate_markdown.py:64-68 | the placeholder is the word between two slashes |
| VocabularyMarkdown.EmojiFor | scripts/generate-doc/generate_markdown.py:155 | definition; `EmojiInSection` and `EmojiPeriodic` state the no-wrap and period-30 behaviour |
| VocabularyMarkdown.EmojiInSection | scripts/generate-doc/generate_markdown.py:152-155 | for a position inside a 30-word section the remainder never wraps: the i-th word gets the i-th emoji |
| VocabularyMarkdown.EmojiPeriodic | scripts/generate-doc/generate_markdown.py:155 | positions 30 apart get the same emoji |
| VocabularyMarkdown.SplitSections | scripts/generate-doc/generate_markdown.py:268-271 | the loop gives `ceil(N / 30)` sections; section k is words `30k` up to `min(30k + 30, N)` |
| VocabularyMarkdown.SectionsReassemble | scripts/generate-doc/generate_markdown.py:268-271 | the sections, in order, are the chapter's words |
| VocabularyMarkdown.SectionHeading | scripts/generate-doc/generate_markdown.py:275 | definition; `SectionHeadingRange` states that it shows the first and last word's `序号` |
| VocabularyMarkdown.SectionHeadingRange | scripts/generate-doc/generate_markdown.py:274-275 | section k's heading shows the `序号` of word `30(k-1)` and of the section's last word |
| VocabularyMarkdown.HighFreqWords | scripts/generate-doc/generate_markdown.py:287 | definition; `HighFreqOnly` and `HighFreqInOrder` state which words are listed and that input order is kept |
| VocabularyMarkdown.HighFreqOnly | scripts/generate-doc/generate_markdown.py:287 | a word is in the high-frequency list exactly when some entry has it with `词频 > 1000` |
| VocabularyMarkdown.HighFreqInOrder | scripts/generate-doc/generate_markdown.py:287 | the list keeps input order |
| VocabularyMarkdown.Recap | scripts/generate-doc/generate_markdown.py:296 | definition; `RecapFew` and `RecapMany` state the at-most-ten and more-than-ten cases |
| VocabularyMarkdown.RecapFew | scripts/generate-doc/generate_markdown.py:296 | with ten words or fewer, all are shown and nothing is appended |
| VocabularyMarkdown.RecapMany | scripts/generate-doc/generate_markdown.py:296 | with more than ten, exactly the first ten are shown, then `...` |
| VocabularyMarkdown.FolderStart | scripts/generate-doc/generate_markdown.py:364 | definition; `FolderContains` and `FolderIsChunk` state that it is the first chapter of n's group of five |
| VocabularyMarkdown.FolderEnd | scripts/generate-doc/generate_markdown.py:365 | definition; `FolderContains` and `FolderIsChunk` state that it is the last chapter of n's group of five, capped at the total |
| VocabularyMarkdown.FolderName | scripts/generate-doc/generate_markdown.py:368 | definition; `SameFolder` states that two chapters share a name exactly when they share a group |
| VocabularyMarkdown.FolderContains | scripts/generate-doc/generate_markdown.py:364-365 | chapter n lies in its folder's range; a folder spans at most five chapters and starts at 1 mod 5 |
| VocabularyMarkdown.FolderIsChunk | scripts/generate-doc/generate_markdown.py:364-365 | a folder's range is group `(n-1)/5` of the chapters |
| VocabularyMarkdown.SameFolder | scripts/generate-doc/generate_markdown.py:364-368 | two chapters get the same folder name exactly when they are in the same group of five |
| FrequencyHistogram.FrequencyOf | b.py:17-18 | `item.get("词频")` is absent both for a missing key and for null |
| FrequencyHistogram.CountFrequencies | b.py:15-19 | the counter holds exactly the frequencies that occur, each with its number of occurrences |
| FrequencyHistogram.MissingIgnored | b.py:17-18 | an item without a frequency changes no count |
| FrequencyHistogram.TotalIsPresent | b.py:15-19 | the counts add up to the number of items that carry a frequency |
| FrequencyHistogram.Xs | b.py:22 | `x` is 1..399 in order |
| FrequencyHistogram.Ys | b.py:23 | one bar per frequency of `x`; `Histogram` states that each is the count of that frequency, or 0 |
| FrequencyHistogram.Histogram | b.py:22-23 | `y` has one entry per `x`: the number of items with that frequency, or 0 |
| Pipeline.RewrittenRowOutput | a.py:17-29 | a row rewritten by split_md_by_words.py is read by a.py as its cells plus an empty one |
| Pipeline.RewrittenRowKeepsBlock | a.py:17-29 | for rows of four cells or more, the rewrite does not change what a.py emits |
| Pipeline.ThreeCellRowGainsBlock | a.py:20 | a numbered three-cell row emits nothing as written, but a block with an empty meaning after the rewrite |
| Chunking.ChunksReassemble | scripts/generate_json/split_md_by_words.py:28-32 | groups cut by index arithmetic are the reference groups and put back together give the input |
| Chunking.CeilDiv | scripts/generate_json/split_md_by_words.py:29 | `(n + k - 1) // k` is the least r with `r * k >= n` |
| Chunking.ChunkBounds | scripts/generate-doc/split_json.py:35-36 | of two groups, the earlier is non-empty and ends no later than the later starts, with no gap between neighbours; the last group ends at n |
| Chunking.ChunkEnds | scripts/generate-doc/split_json.py:35-36 | for any number of groups, one included, every group is non-empty and the last ends at n |
| Chunking.ChunkFull | scripts/generate-doc/split_json.py:35-36 | every group but the last holds exactly k items |

## Left out

- File I/O: reading, writing, `os.makedirs`, `os.listdir`, `os.path.exists` and console output. Inputs are lines or parsed values; written files are returned as values.
- JSON parsing and serialising. A parsed value is the `Json` datatype, and an object keeps its entries in order. Lookup takes the first entry with a key. `json.load` keeps the last value of a duplicate key, which the scripts never meet.
- Floating-point numbers in JSON and in `math.ceil(len / 90)`. The chapter count is the integer ceiling division, which agrees with it.
- Python's Unicode-aware `strip`, `isdigit` and `lower`. They are modelled on ASCII: `strip` removes the ten ASCII characters Python counts as whitespace (space, tab, line feed, vertical tab, form feed, carriage return and 0x1C to 0x1F); digits are 0 to 9 and letters A to Z. Non-ASCII whitespace, digits and letters are not modelled.
- JsonToMarkdown.Show: `str()` of a nested list or mapping is a simplified `repr` without escaping of quotes or special characters.
- SplitMarkdown.SplitMarkdownByWords: requires `words_per_file >= 1`. The script's default is 500; 0 raises `ZeroDivisionError`, and negative values are not modelled.
- TableToHeadings.ConvertTableToHeadings: models one file. The loop over part numbers, the existence check and the output file name are left out.
- VocabularyMarkdown: the phonetic table's contents are a `map` parameter; the 30 emoji of the list are modelled as their literal strings. The prose templates are constant text and are not modelled: example sentences, cultural notes, meanings, chapter intro, overview table, section summary and report. The timestamp and the sort order of chapter files are left out too.
- VocabularyMarkdown.VocabWord: `序号` is modelled as a natural number, although the heading would format any JSON value. `词频` is modelled as an integer, so a null `词频`, which raises `TypeError` in the `> 1000` test, and a missing one, which raises `KeyError`, are not modelled.
- FrequencyHistogram.Item: frequency values are integers. Other JSON values as `Counter` keys (strings, floats) are not modelled.
- The plot in b.py (font setup, bar chart, labels) needs matplotlib and is presentation only.
- SplitJson.ParseRange only reads ranges back for the lemmas; it is not part of any script.
