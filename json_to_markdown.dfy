/** The generic JSON-to-Markdown renderer of
    scripts/generate_json/json_to_markdown.py: a mapping becomes nested `#`
    headings, a list of mappings a pipe table whose columns are the first
    mapping's keys, any other list a bullet list, and a scalar a line of text. */
module JsonToMarkdown {
  import opened Wrappers
  import opened Text
  import opened Sequences
  import opened PipeTable

  /** A parsed JSON value. Objects keep their keys in document order. */
  datatype Json = Mapping(entries: seq<Entry>) | List(items: seq<Json>) | Scalar(atom: Atom)
  datatype Entry = Entry(key: string, value: Json)
  /** JSON scalars; floating-point numbers are not modelled. */
  datatype Atom = Null | Bool(b: bool) | Int(i: int) | Str(s: string)

  /** Python's `str()` of a scalar. */
  function AtomText(a: Atom): string {
    match a
    case Null => "None"
    case Bool(b) => if b then "True" else "False"
    case Int(i) => IntToString(i)
    case Str(s) => s
  }

  /** Python's `str()` of any value (also what an f-string shows). */
  function Show(v: Json): string {
    if v.Scalar? then AtomText(v.atom) else Repr(v)
  }

  /** Python's `repr()` as `str()` of a container shows its contents; strings
      are quoted with `'` and not escaped. */
  function Repr(v: Json): string {
    match v
    case Scalar(a) => if a.Str? then "'" + a.s + "'" else AtomText(a)
    case List(items) => "[" + ReprItems(items) + "]"
    case Mapping(es) => "{" + ReprEntries(es) + "}"
  }

  function ReprItems(items: seq<Json>): string {
    if items == [] then ""
    else if |items| == 1 then Repr(items[0])
    else ReprItems(items[..|items| - 1]) + ", " + Repr(items[|items| - 1])
  }

  function ReprEntries(es: seq<Entry>): string {
    if es == [] then ""
    else
      var e := es[|es| - 1];
      var item := "'" + e.key + "': " + Repr(e.value);
      if |es| == 1 then item else ReprEntries(es[..|es| - 1]) + ", " + item
  }

  /** The keys of a mapping, in order: `list(d.keys())`. */
  function Keys(es: seq<Entry>): (ks: seq<string>)
    ensures |ks| == |es|
    ensures forall i | 0 <= i < |es| :: ks[i] == es[i].key
  {
    if es == [] then [] else [es[0].key] + Keys(es[1..])
  }

  /** `d.get(key)`: the value of the first entry with that key. */
  function Lookup(es: seq<Entry>, key: string): (r: Option<Json>)
    ensures r.Some? <==> key in Keys(es)
    ensures r.Some? ==> exists i | 0 <= i < |es| ::
      es[i].key == key && es[i].value == r.value && forall j | 0 <= j < i :: es[j].key != key
  {
    if es == [] then None
    else if es[0].key == key then Some(es[0].value)
    else Lookup(es[1..], key)
  }

  /** `str(item.get(k, ''))`: the value's text, or the empty string. */
  function CellText(item: seq<Entry>, key: string): string {
    match Lookup(item, key)
    case Some(v) => Show(v)
    case None => ""
  }

  /** One table row per record: the cells under the given columns. */
  function Cells(item: seq<Entry>, keys: seq<string>): (cells: seq<string>)
    ensures |cells| == |keys|
  {
    seq(|keys|, j requires 0 <= j < |keys| => CellText(item, keys[j]))
  }

  /** `dict_to_md_table`: header, separator and a single row of values. */
  function DictToMdTable(d: seq<Entry>): string {
    var keys := Keys(d);
    Row(keys) + SeparatorRow(|keys|) + Row(Cells(d, keys))
  }

  /** The data rows of a table, one per record, in order. */
  function DataRows(lst: seq<seq<Entry>>, keys: seq<string>): seq<string> {
    Map(item => Row(Cells(item, keys)), lst)
  }

  /** The lines of `list_of_dicts_to_md_table(lst)`; no lines for an empty list. */
  function TableLines(lst: seq<seq<Entry>>): seq<string> {
    if lst == [] then []
    else
      var keys := Keys(lst[0]);
      [Row(keys), SeparatorRow(|keys|)] + DataRows(lst, keys)
  }

  /** `list_of_dicts_to_md_table(lst)`, building the rows in a loop. */
  method ListOfDictsToMdTable(lst: seq<seq<Entry>>) returns (table: string)
    ensures table == Flatten(TableLines(lst))
  {
    if lst == [] {
      return "";
    }
    var keys := Keys(lst[0]);
    var header := Row(keys);
    var sep := SeparatorRow(|keys|);
    var rows := "";
    for i := 0 to |lst|
      invariant rows == Flatten(DataRows(lst[..i], keys))
    {
      RowsSnoc(lst, keys, i);
      rows := rows + Row(Cells(lst[i], keys));
    }
    assert lst[..|lst|] == lst;
    table := header + sep + rows;
    TableText(lst);
  }

  lemma RowsSnoc(lst: seq<seq<Entry>>, keys: seq<string>, i: nat)
    requires i < |lst|
    ensures Flatten(DataRows(lst[..i + 1], keys)) == Flatten(DataRows(lst[..i], keys)) + Row(Cells(lst[i], keys))
  {
    MapSnoc(item => Row(Cells(item, keys)), lst, i);
    FlattenSnoc(DataRows(lst[..i], keys), Row(Cells(lst[i], keys)));
  }

  /** The table text: header, separator, then the data rows. */
  lemma TableText(lst: seq<seq<Entry>>)
    requires lst != []
    ensures var keys := Keys(lst[0]);
      Flatten(TableLines(lst)) == Row(keys) + SeparatorRow(|keys|) + Flatten(DataRows(lst, keys))
  {
    var keys := Keys(lst[0]);
    FlattenCons2(Row(keys), SeparatorRow(|keys|), DataRows(lst, keys));
  }

  predicate AllMappings(items: seq<Json>) {
    forall i | 0 <= i < |items| :: items[i].Mapping?
  }

  function EntriesOf(items: seq<Json>): (lst: seq<seq<Entry>>)
    requires AllMappings(items)
    ensures |lst| == |items|
  {
    seq(|items|, i requires 0 <= i < |items| => items[i].entries)
  }

  /** `f"{'#' * level} {k}\n\n"`. */
  function Heading(level: nat, key: string): string {
    Repeat('#', level) + " " + key + "\n\n"
  }

  /** `f"- {v}\n"`. */
  function Bullet(v: Json): string {
    "- " + Show(v) + "\n"
  }

  /** `to_md(data, level)`. */
  function Render(data: Json, level: nat): string {
    match data
    case Mapping(es) => RenderEntries(es, level)
    case List(items) =>
      if AllMappings(items) then Flatten(TableLines(EntriesOf(items))) + "\n"
      else Bullets(items)
    case Scalar(a) => AtomText(a) + "\n\n"
  }

  function RenderEntries(es: seq<Entry>, level: nat): string {
    if es == [] then ""
    else
      var e := es[|es| - 1];
      RenderEntries(es[..|es| - 1], level) + Heading(level, e.key) + Render(e.value, level + 1)
  }

  function Bullets(items: seq<Json>): string {
    if items == [] then "" else Bullets(items[..|items| - 1]) + Bullet(items[|items| - 1])
  }

  /** `to_md`, growing the text with `+=` in its loops. */
  method ToMd(data: Json, level: nat) returns (md: string)
    ensures md == Render(data, level)
    decreases data
  {
    md := "";
    match data {
      case Mapping(es) =>
        for i := 0 to |es|
          invariant md == RenderEntries(es[..i], level)
        {
          assert es[..i + 1][..i] == es[..i];
          md := md + Heading(level, es[i].key);
          var sub := ToMd(es[i].value, level + 1);
          md := md + sub;
        }
        assert es[..|es|] == es;
      case List(items) =>
        if forall i | 0 <= i < |items| :: items[i].Mapping? {
          var table := ListOfDictsToMdTable(EntriesOf(items));
          md := table + "\n";
        } else {
          md := BulletsToMd(items);
        }
      case Scalar(a) =>
        md := AtomText(a) + "\n\n";
    }
  }

  /** The `enumerate` loop: one bullet line per element, in order. */
  method BulletsToMd(items: seq<Json>) returns (md: string)
    ensures md == Bullets(items)
  {
    md := "";
    for i := 0 to |items|
      invariant md == Bullets(items[..i])
    {
      assert items[..i + 1][..i] == items[..i];
      md := md + Bullet(items[i]);
    }
    assert items[..|items|] == items;
  }

  /** The renderer's entry point: `to_md(data)` starts at heading level 1. */
  method JsonToMarkdownText(data: Json) returns (md: string)
    ensures md == Render(data, 1)
  {
    md := ToMd(data, 1);
  }

  // ---------------------------------------------------------------------
  // Properties of the rendering

  /** A mapping renders as one block per key, in insertion order: the key's
      heading at this level, then its value one level deeper. */
  lemma {:induction false} MappingRendersInOrder(es: seq<Entry>, level: nat)
    ensures Render(Mapping(es), level)
         == Flatten(seq(|es|, i requires 0 <= i < |es| =>
                          Heading(level, es[i].key) + Render(es[i].value, level + 1)))
  {
    if es != [] {
      var n := |es| - 1;
      MappingRendersInOrder(es[..n], level);
      var blocks := seq(|es|, i requires 0 <= i < |es| =>
                          Heading(level, es[i].key) + Render(es[i].value, level + 1));
      var front := seq(n, i requires 0 <= i < n =>
                         Heading(level, es[..n][i].key) + Render(es[..n][i].value, level + 1));
      assert blocks == front + [blocks[n]];
      FlattenAppend(front, [blocks[n]]);
    }
  }

  /** Each heading is exactly `level` hash signs, a space, the key and a
      blank line. */
  lemma HeadingShape(level: nat, key: string)
    ensures StartsWith(Heading(level, key), Repeat('#', level) + " ")
    ensures |Heading(level, key)| == level + |key| + 3
    ensures forall i | 0 <= i < level :: Heading(level, key)[i] == '#'
    ensures Heading(level, key)[level] == ' '
    ensures Heading(level, key)[level + 1..] == key + "\n\n"
  {
  }

  /** A list with a non-mapping element renders one `- ` line per element, in
      order, without numbering. */
  lemma {:induction false} ScalarListRendersBullets(items: seq<Json>, level: nat)
    requires !AllMappings(items)
    ensures Render(List(items), level)
         == Flatten(seq(|items|, i requires 0 <= i < |items| => Bullet(items[i])))
  {
    BulletsInOrder(items);
  }

  lemma {:induction false} BulletsInOrder(items: seq<Json>)
    ensures Bullets(items)
         == Flatten(seq(|items|, i requires 0 <= i < |items| => Bullet(items[i])))
  {
    if items != [] {
      BulletsInOrder(items[..|items| - 1]);
      BulletLinesSnoc(items);
    }
  }

  lemma BulletLinesSnoc(items: seq<Json>)
    requires items != []
    ensures var n := |items| - 1;
      Flatten(seq(|items|, i requires 0 <= i < |items| => Bullet(items[i])))
      == Flatten(seq(n, i requires 0 <= i < n => Bullet(items[..n][i]))) + Bullet(items[n])
  {
    var n := |items| - 1;
    var lines := seq(|items|, i requires 0 <= i < |items| => Bullet(items[i]));
    var front := seq(n, i requires 0 <= i < n => Bullet(items[..n][i]));
    assert lines == front + [lines[n]];
    FlattenAppend(front, [lines[n]]);
    assert Flatten([lines[n]]) == lines[n] + Flatten<char>([]);
  }


  /** An empty list counts as a list of mappings whose table is empty, so it
      renders as a single newline. */
  lemma EmptyListRendersNewline(level: nat)
    ensures Render(List([]), level) == "\n"
  {
    assert Flatten<char>([]) == "";
  }

  /** A scalar renders as its `str()` and a blank line; `null` shows as `None`. */
  lemma ScalarRendersText(a: Atom, level: nat)
    ensures Render(Scalar(a), level) == AtomText(a) + "\n\n"
    ensures Render(Scalar(Null), level) == "None\n\n"
  {
  }

  /** A table has the header row, the separator row and one row per record,
      in order; every row has one cell per column of the first record, a
      missing key giving an empty cell. */
  lemma {:induction false} TableShape(lst: seq<seq<Entry>>)
    requires lst != []
    ensures |TableLines(lst)| == |lst| + 2
    ensures TableLines(lst)[0] == Row(Keys(lst[0]))
    ensures TableLines(lst)[1] == Row(Repeat("---", |lst[0]|))
    ensures forall i | 0 <= i < |lst| ::
              TableLines(lst)[i + 2] == Row(Cells(lst[i], Keys(lst[0])))
  {
    var keys := Keys(lst[0]);
    var rows := DataRows(lst, keys);
    DataRowsAt(lst, keys);
    var lines := TableLines(lst);
    assert lines == [Row(keys), SeparatorRow(|keys|)] + rows;
    forall i | 0 <= i < |lst| ensures lines[i + 2] == Row(Cells(lst[i], keys)) {
      assert lines[i + 2] == rows[i];
    }
  }

  /** The cell under a column holds the record's value for that key, or is
      empty when the record lacks the key. */
  lemma CellUnderColumn(item: seq<Entry>, keys: seq<string>, j: nat)
    requires j < |keys|
    ensures keys[j] in Keys(item) ==> Cells(item, keys)[j] == Show(Lookup(item, keys[j]).value)
    ensures keys[j] !in Keys(item) ==> Cells(item, keys)[j] == ""
  {
  }

  lemma DataRowsAt(lst: seq<seq<Entry>>, keys: seq<string>)
    ensures |DataRows(lst, keys)| == |lst|
    ensures forall i | 0 <= i < |lst| :: DataRows(lst, keys)[i] == Row(Cells(lst[i], keys))
  {
  }


  /** Keys a later record has beyond the first record's are dropped: a row
      depends only on the values under the first record's keys. */
  lemma ExtraKeysDropped(item: seq<Entry>, other: seq<Entry>, keys: seq<string>)
    requires forall j | 0 <= j < |keys| :: Lookup(item, keys[j]) == Lookup(other, keys[j])
    ensures Cells(item, keys) == Cells(other, keys)
  {
  }

  /** `dict_to_md_table(d)` is the table of the one-record list `[d]`: three
      lines, all with one cell per key. */
  lemma DictTableIsOneRowTable(d: seq<Entry>)
    ensures DictToMdTable(d) == Flatten(TableLines([d]))
    ensures |TableLines([d])| == 3
  {
    var keys := Keys(d);
    assert DataRows([d], keys) == [Row(Cells(d, keys))];
    TableText([d]);
    FlattenSnoc([], Row(Cells(d, keys)));
    assert [] + [Row(Cells(d, keys))] == [Row(Cells(d, keys))];
  }


  /** A mapping nested in a mapping gives a level-1 heading, a level-2 heading
      and the text. */
  lemma NestedMappingExample()
    ensures Render(Mapping([Entry("A", Mapping([Entry("B", Scalar(Str("x")))]))]), 1)
         == "# A\n\n## B\n\nx\n\n"
  {
  }

  /** A record lacking the column `w` gets an empty cell there, not an error. */
  lemma MissingKeyExample()
    ensures Cells([Entry("id", Scalar(Int(2)))], ["id", "w"]) == ["2", ""]
  {
    var item := [Entry("id", Scalar(Int(2)))];
    assert DigitChar(2) == '2';
    assert CellText(item, "id") == "2";
    assert Keys(item) == ["id"];
    assert CellText(item, "w") == "";
  }
}
