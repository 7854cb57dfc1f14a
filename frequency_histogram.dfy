/** The word-frequency histogram of b.py: count how many words carry each
    frequency value, then read the counts off for frequencies 1..399. */
module FrequencyHistogram {
  import opened Wrappers

  /** A word entry: its fields by name. Only `词频` is ever read, so every
      field is given the frequency's type: an integer, or None for JSON null.
      The other fields (the word, its meaning) do not affect the count. */
  type Item = map<string, Option<int>>

  const FrequencyKey: string := "词频"

  /** `item.get("词频")`: None both when the key is missing and when it holds null. */
  function FrequencyOf(item: Item): (r: Option<int>)
    ensures r.Some? <==> FrequencyKey in item && item[FrequencyKey].Some?
    ensures r.Some? ==> r.value == item[FrequencyKey].value
  {
    if FrequencyKey in item then item[FrequencyKey] else None
  }

  /** Reference count: the number of items whose frequency is f. */
  function Occurrences(items: seq<Item>, f: int): nat
  {
    if items == [] then 0
    else Occurrences(items[..|items| - 1], f) + (if FrequencyOf(items[|items| - 1]) == Some(f) then 1 else 0)
  }

  /** The number of items that carry a frequency at all. */
  function Present(items: seq<Item>): nat
  {
    if items == [] then 0
    else Present(items[..|items| - 1]) + (if FrequencyOf(items[|items| - 1]).Some? then 1 else 0)
  }

  /** The counter holds exactly the frequencies that occur, each with its
      number of occurrences (a Counter never stores a zero it was not given). */
  ghost predicate Tallies(counter: map<int, nat>, items: seq<Item>)
  {
    (forall f :: f in counter <==> Occurrences(items, f) > 0) &&
    (forall f | f in counter :: counter[f] == Occurrences(items, f))
  }

  /** The accumulation loop: one increment per item with a frequency. */
  method CountFrequencies(items: seq<Item>) returns (counter: map<int, nat>)
    ensures Tallies(counter, items)
  {
    counter := map[];
    var i := 0;
    while i < |items|
      invariant 0 <= i <= |items|
      invariant Tallies(counter, items[..i])
    {
      var freq := FrequencyOf(items[i]);
      assert items[..i + 1][..i] == items[..i];
      if freq.Some? {
        var f := freq.value;
        counter := counter[f := (if f in counter then counter[f] else 0) + 1];
      }
      i := i + 1;
    }
    assert items[..i] == items;
  }

  /** Items without a frequency leave every count as it was. */
  lemma {:induction false} MissingIgnored(a: seq<Item>, item: Item, b: seq<Item>, f: int)
    requires FrequencyOf(item) == None
    ensures Occurrences(a + [item] + b, f) == Occurrences(a + b, f)
    decreases |b|
  {
    if b == [] {
      assert (a + [item] + b)[..|a|] == a;
      assert a + b == a;
    } else {
      var b' := b[..|b| - 1];
      assert (a + [item] + b)[..|a + [item] + b| - 1] == a + [item] + b';
      assert (a + b)[..|a + b| - 1] == a + b';
      MissingIgnored(a, item, b', f);
    }
  }

  /** The sum of a counter's values. */
  ghost function Total(counter: map<int, nat>): nat
    decreases |counter|
  {
    if counter.Keys == {} then 0
    else
      HasKey(counter);
      var k :| k in counter.Keys;
      counter[k] + Total(counter - {k})
  }

  lemma HasKey(counter: map<int, nat>)
    requires counter.Keys != {}
    ensures exists k :: k in counter.Keys
  {
    if forall k :: k !in counter.Keys {
      assert false;
    }
  }

  /** The sum does not depend on which key is taken first. */
  lemma {:induction false} TotalRemove(counter: map<int, nat>, k: int)
    requires k in counter
    ensures Total(counter) == counter[k] + Total(counter - {k})
    decreases |counter|
  {
    var j :| j in counter && Total(counter) == counter[j] + Total(counter - {j});
    if j != k {
      assert counter - {j} - {k} == counter - {k} - {j};
      TotalRemove(counter - {j}, k);
      TotalRemove(counter - {k}, j);
    }
  }

  /** Bumping one count by one raises the sum by one. */
  lemma TotalBump(counter: map<int, nat>, f: int)
    ensures Total(counter[f := (if f in counter then counter[f] else 0) + 1]) == Total(counter) + 1
  {
    var bumped := counter[f := (if f in counter then counter[f] else 0) + 1];
    TotalRemove(bumped, f);
    assert bumped - {f} == counter - {f};
    if f in counter {
      TotalRemove(counter, f);
    } else {
      assert counter - {f} == counter;
    }
  }

  /** The accumulation loop again, with the sum of the counts tracked: it
      equals the number of items that carry a frequency. */
  lemma {:induction false} TotalIsPresent(items: seq<Item>, counter: map<int, nat>)
    requires Tallies(counter, items)
    ensures Total(counter) == Present(items)
    decreases |items|
  {
    if items == [] {
      assert forall f :: f !in counter;
      assert counter == map[];
    } else {
      var init := items[..|items| - 1];
      var freq := FrequencyOf(items[|items| - 1]);
      if freq.Some? {
        var f := freq.value;
        var before := if counter[f] == 1 then counter - {f} else counter[f := counter[f] - 1];
        assert Tallies(before, init);
        TotalIsPresent(init, before);
        assert counter == before[f := (if f in before then before[f] else 0) + 1];
        TotalBump(before, f);
      } else {
        assert Tallies(counter, init);
        TotalIsPresent(init, counter);
      }
    }
  }

  /** `x = [freq for freq in range(1, 400)]`. */
  function Xs(): (xs: seq<int>)
    ensures |xs| == 399
    ensures forall j | 0 <= j < |xs| :: xs[j] == j + 1
  {
    seq(399, j => j + 1)
  }

  /** `y = [freq_counter.get(freq, 0) for freq in x]`. */
  function Ys(counter: map<int, nat>): (ys: seq<nat>)
    ensures |ys| == |Xs()|
  {
    seq(399, j requires 0 <= j < 399 => if j + 1 in counter then counter[j + 1] else 0)
  }

  /** Each bar is the number of items with that frequency, zero for a
      frequency that never occurs. */
  lemma Histogram(items: seq<Item>, counter: map<int, nat>)
    requires Tallies(counter, items)
    ensures |Ys(counter)| == |Xs()| == 399
    ensures forall j | 0 <= j < 399 :: Ys(counter)[j] == Occurrences(items, Xs()[j])
  {
  }
}
