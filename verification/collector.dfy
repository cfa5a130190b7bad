/**
 `ContextsCollector`: expands one specification class into items, one per (example,
 assertion) pair with examples outer and assertions inner, builds one fresh shared context
 per example, and labels every item.
 */
module ContextsCollector {
  import opened Contexts
  import ContextsItem

  /** What the label of a parameterised item carries after the assertion name. */
  const ExampleOpen: string := " (example="
  const ExampleClose: string := ")"

  /** What `collect` appends to a label for a parameterised context: the example's
      rendering in parentheses; nothing for `NO_EXAMPLE`. */
  function ExampleSuffix(example: Example): (r: string)
    ensures r == "" <==> example == NoExample
  {
    if example != NoExample then ExampleOpen + example.text + ExampleClose else ""
  }

  /** The label of the item for `assertion` of the class collected as `collector`: the
      collector's name, a dot and the assertion's name, followed by the rendered example
      unless the context has none. */
  function ItemName(collector: string, assertion: string, example: Example): (r: string)
    ensures collector + "." + assertion <= r
    ensures example.NoExample? <==> |r| == |collector| + 1 + |assertion|
  {
    collector + "." + assertion + ExampleSuffix(example)
  }

  /** The first position of `ch` in `s`, if any. */
  function IndexOf(s: string, ch: char): (r: Option<nat>)
    ensures r.None? <==> ch !in s
    ensures r.Some? ==> r.value < |s| && s[r.value] == ch && ch !in s[..r.value]
  {
    if |s| == 0 then None
    else if s[0] == ch then Some(0)
    else match IndexOf(s[1..], ch)
      case None => None
      case Some(k) =>
        assert s[..k + 1] == [s[0]] + s[1..][..k];
        Some(k + 1)
  }

  /** Reads an item label back into its assertion name and example; the reading of
      `ItemName` for assertion names without spaces, as Python method names are. */
  function ParseItemName(collector: string, name: string): Option<(string, Example)>
  {
    var head := collector + ".";
    if head <= name then ParseLabel(name[|head|..]) else None
  }

  /** Reads the part of a label after `collector.`: up to the first space is the assertion
      name, and what follows must be an example suffix. */
  function ParseLabel(rest: string): Option<(string, Example)>
  {
    match IndexOf(rest, ' ')
    case None => Some((rest, NoExample))
    case Some(k) => match ParseSuffix(rest[k..])
      case None => None
      case Some(example) => Some((rest[..k], example))
  }

  /** Reads an example suffix ` (example=<text>)` back into the example `<text>`. */
  function ParseSuffix(tail: string): Option<Example>
  {
    if |tail| > |ExampleOpen| && ExampleOpen <= tail && tail[|tail| - 1] == ')'
    then Some(Value(tail[|ExampleOpen|..|tail| - 1]))
    else None
  }

  /** The first occurrence of `ch` in `a + b` is right after `a` when `a` lacks `ch` and
      `b` starts with it. */
  lemma {:induction false} IndexOfAfter(a: string, b: string, ch: char)
    requires ch !in a && |b| > 0 && b[0] == ch
    ensures IndexOf(a + b, ch) == Some(|a|)
    decreases |a|
  {
    if |a| > 0 {
      assert (a + b)[0] == a[0];
      assert (a + b)[1..] == a[1..] + b;
      IndexOfAfter(a[1..], b, ch);
    } else {
      assert a + b == b;
    }
  }

  /** An item label determines the assertion and the example it was made from. */
  lemma ItemNameRoundTrip(collector: string, assertion: string, example: Example)
    requires ' ' !in assertion
    ensures ParseItemName(collector, ItemName(collector, assertion, example)) == Some((assertion, example))
  {
    var head := collector + ".";
    var suffix := ExampleSuffix(example);
    var name := ItemName(collector, assertion, example);
    assert name == head + (assertion + suffix);
    assert name[..|head|] == head;
    assert name[|head|..] == assertion + suffix;
    LabelRoundTrip(assertion, example);
  }

  lemma LabelRoundTrip(assertion: string, example: Example)
    requires ' ' !in assertion
    ensures ParseLabel(assertion + ExampleSuffix(example)) == Some((assertion, example))
  {
    var suffix := ExampleSuffix(example);
    var rest := assertion + suffix;
    if example == NoExample {
      assert rest == assertion;
    } else {
      IndexOfAfter(assertion, suffix, ' ');
      assert rest[..|assertion|] == assertion;
      assert rest[|assertion|..] == suffix;
      SuffixRoundTrip(example.text);
    }
  }

  lemma SuffixRoundTrip(text: string)
    ensures ParseSuffix(ExampleSuffix(Value(text))) == Some(Value(text))
  {
    var suffix := ExampleSuffix(Value(text));
    assert suffix[..|ExampleOpen|] == ExampleOpen;
    assert suffix[|ExampleOpen|..|suffix| - 1] == text;
  }

  /** Two items of one collector with different assertions or examples get different
      labels, as long as assertion names hold no space. */
  lemma ItemNamesDistinct(collector: string, a1: string, e1: Example, a2: string, e2: Example)
    requires ' ' !in a1 && ' ' !in a2
    ensures ItemName(collector, a1, e1) == ItemName(collector, a2, e2) <==> a1 == a2 && e1 == e2
  {
    ItemNameRoundTrip(collector, a1, e1);
    ItemNameRoundTrip(collector, a2, e2);
  }

  /** The items of one example: one per assertion, in order, all over context `index`. */
  function Block(collector: string, path: string, index: nat, example: Example, assertions: seq<string>): seq<Item>
  {
    seq(|assertions|, j requires 0 <= j < |assertions| =>
      Item(ItemName(collector, assertions[j], example), index, assertions[j], path))
  }

  /** The items of a class: the blocks of its examples, examples outer, assertions inner. */
  function Expand(collector: string, path: string, examples: seq<Example>, assertions: seq<string>): seq<Item>
    decreases |examples|
  {
    if |examples| == 0 then []
    else
      Expand(collector, path, examples[..|examples| - 1], assertions) +
      Block(collector, path, |examples| - 1, examples[|examples| - 1], assertions)
  }

  /** Item `i * |assertions| + j` is assertion `j` over the context of example `i`. */
  ghost predicate ItemAt(collector: string, path: string, examples: seq<Example>, assertions: seq<string>,
                         items: seq<Item>, i: nat, j: nat)
    requires i < |examples| && j < |assertions|
  {
    i * |assertions| + j < |items| &&
    items[i * |assertions| + j] == Item(ItemName(collector, assertions[j], examples[i]), i, assertions[j], path)
  }

  /** Position `j` of block `i` lies before block `m` whenever `i < m`. */
  lemma {:induction false} BlockBefore(i: nat, j: nat, m: nat, n: nat)
    requires i < m && j < n
    ensures i * n + j < m * n
    decreases m - i
  {
    if i + 1 < m {
      BlockBefore(i + 1, j, m, n);
    }
    assert (i + 1) * n == i * n + n;
  }

  /** The expansion has `|examples| * |assertions|` items. */
  lemma {:induction false} ExpandLength(collector: string, path: string, examples: seq<Example>, assertions: seq<string>)
    ensures |Expand(collector, path, examples, assertions)| == |examples| * |assertions|
    decreases |examples|
  {
    if |examples| > 0 {
      var m := |examples| - 1;
      ExpandLength(collector, path, examples[..m], assertions);
      assert |examples| * |assertions| == m * |assertions| + |assertions|;
    }
  }

  /** Assertion `j` of example `i` sits at position `i * |assertions| + j` of the expansion. */
  lemma {:induction false} ExpandAt(collector: string, path: string, examples: seq<Example>, assertions: seq<string>, i: nat, j: nat)
    requires i < |examples| && j < |assertions|
    ensures ItemAt(collector, path, examples, assertions, Expand(collector, path, examples, assertions), i, j)
    decreases |examples|
  {
    var n := |assertions|;
    var m := |examples| - 1;
    var init := examples[..m];
    var prefix := Expand(collector, path, init, assertions);
    var block := Block(collector, path, m, examples[m], assertions);
    assert Expand(collector, path, examples, assertions) == prefix + block;
    ExpandLength(collector, path, init, assertions);
    if i < m {
      ExpandAt(collector, path, init, assertions, i, j);
      BlockBefore(i, j, m, n);
    }
  }

  /** The expansion has `|examples| * |assertions|` items, placed examples outer and
      assertions inner. */
  lemma ExpandIndex(collector: string, path: string, examples: seq<Example>, assertions: seq<string>)
    ensures |Expand(collector, path, examples, assertions)| == |examples| * |assertions|
    ensures forall i, j | 0 <= i < |examples| && 0 <= j < |assertions| ::
      ItemAt(collector, path, examples, assertions, Expand(collector, path, examples, assertions), i, j)
  {
    ExpandLength(collector, path, examples, assertions);
    forall i, j | 0 <= i < |examples| && 0 <= j < |assertions|
      ensures ItemAt(collector, path, examples, assertions, Expand(collector, path, examples, assertions), i, j)
    {
      ExpandAt(collector, path, examples, assertions, i, j);
    }
  }

  /** Expanding one more example appends its block. */
  lemma ExpandSnoc(collector: string, path: string, examples: seq<Example>, assertions: seq<string>, i: nat)
    requires i < |examples|
    ensures Expand(collector, path, examples[..i + 1], assertions) ==
      Expand(collector, path, examples[..i], assertions) + Block(collector, path, i, examples[i], assertions)
  {
    assert examples[..i + 1][..i] == examples[..i];
  }

  /** What `collect` yields for the class named `collector` in file `path`: one fresh
      context per example, and the items of `Expand`. */
  ghost predicate Expansion(collector: string, path: string, examples: seq<Example>, assertions: seq<string>, w: World)
  {
    && |w.contexts| == |examples|
    && (forall i | 0 <= i < |examples| :: w.contexts[i] == NewContext(examples[i], assertions))
    && w.items == Expand(collector, path, examples, assertions)
  }

  /** `collect`: for each example, a freshly constructed context (each item built over it
      lowers its flags), then one item per assertion of it. */
  method Collect(collector: string, path: string, examples: seq<Example>, assertions: seq<string>) returns (w: World)
    ensures Expansion(collector, path, examples, assertions, w)
    ensures |w.items| == |examples| * |assertions|
    ensures forall i, j | 0 <= i < |examples| && 0 <= j < |assertions| ::
      ItemAt(collector, path, examples, assertions, w.items, i, j)
    ensures Valid(w) && Fresh(w)
  {
    var contexts: seq<Context> := [];
    var items: seq<Item> := [];
    var i := 0;
    while i < |examples|
      invariant 0 <= i <= |examples|
      invariant |contexts| == i
      invariant forall i' | 0 <= i' < i :: contexts[i'] == NewContext(examples[i'], assertions)
      invariant items == Expand(collector, path, examples[..i], assertions)
    {
      var example := examples[i];
      var context := NewContext(example, assertions);
      var block := Block(collector, path, i, example, assertions);
      var j := 0;
      while j < |assertions|
        invariant 0 <= j <= |assertions|
        invariant context == NewContext(example, assertions)
        invariant items == Expand(collector, path, examples[..i], assertions) + block[..j]
      {
        var assertion := assertions[j];
        context := ContextsItem.Init(context);
        items := items + [Item(ItemName(collector, assertion, example), i, assertion, path)];
        assert block[..j + 1] == block[..j] + [block[j]];
        j := j + 1;
      }
      assert block[..|assertions|] == block;
      ExpandSnoc(collector, path, examples, assertions, i);
      contexts := contexts + [context];
      i := i + 1;
    }
    assert examples[..i] == examples;
    w := World(contexts, items);
    ExpandIndex(collector, path, examples, assertions);
    ExpansionIsValid(collector, path, examples, assertions, w);
  }

  lemma ExpansionIsValid(collector: string, path: string, examples: seq<Example>, assertions: seq<string>, w: World)
    requires Expansion(collector, path, examples, assertions, w)
    ensures Valid(w) && Fresh(w)
  {
    forall k | 0 <= k < |w.items|
      ensures w.items[k].context < |w.contexts| && w.items[k].assertion in assertions
    {
      ExpandItems(collector, path, examples, assertions, k);
    }
  }

  /** Every expanded item is over the context of one of the examples, for one of the
      assertions. */
  lemma {:induction false} ExpandItems(collector: string, path: string, examples: seq<Example>, assertions: seq<string>, k: nat)
    requires k < |Expand(collector, path, examples, assertions)|
    ensures Expand(collector, path, examples, assertions)[k].context < |examples|
    ensures Expand(collector, path, examples, assertions)[k].assertion in assertions
    decreases |examples|
  {
    var m := |examples| - 1;
    var prefix := Expand(collector, path, examples[..m], assertions);
    if k < |prefix| {
      ExpandItems(collector, path, examples[..m], assertions, k);
    }
  }

  /** Within one class, item `(i, j)` is over context `i`, so items share a context exactly
      when they were built for the same example; and the labels of two different
      (example, assertion) pairs differ whenever the examples render differently and the
      assertion names are distinct and free of spaces. */
  lemma ExpansionLabelsDistinct(collector: string, path: string, examples: seq<Example>, assertions: seq<string>,
                                w: World, i1: nat, j1: nat, i2: nat, j2: nat)
    requires Expansion(collector, path, examples, assertions, w)
    requires i1 < |examples| && i2 < |examples| && j1 < |assertions| && j2 < |assertions|
    requires i1 != i2 || j1 != j2
    requires forall a | a in assertions :: ' ' !in a
    requires forall x, y | 0 <= x < y < |examples| :: examples[x] != examples[y]
    requires forall x, y | 0 <= x < y < |assertions| :: assertions[x] != assertions[y]
    ensures ItemAt(collector, path, examples, assertions, w.items, i1, j1)
    ensures ItemAt(collector, path, examples, assertions, w.items, i2, j2)
    ensures ItemName(collector, assertions[j1], examples[i1]) != ItemName(collector, assertions[j2], examples[i2])
  {
    ExpandIndex(collector, path, examples, assertions);
    var a1, a2, e1, e2 := assertions[j1], assertions[j2], examples[i1], examples[i2];
    assert a1 != a2 || e1 != e2 by {
      if i1 != i2 {
        if i1 < i2 { assert examples[i1] != examples[i2]; } else { assert examples[i2] != examples[i1]; }
      } else {
        if j1 < j2 { assert assertions[j1] != assertions[j2]; } else { assert assertions[j2] != assertions[j1]; }
      }
    }
    assert ' ' !in a1 && ' ' !in a2;
    ItemNamesDistinct(collector, a1, e1, a2, e2);
  }

  /** `reportinfo` of a collector: its name, line 0, and `path.name`. */
  function CollectorReportInfo(collector: string, path: string): (r: ReportInfo)
    ensures r.name == collector && r.line == 0
    ensures ContextsItem.ReportedPath(r) == Some(path)
    ensures r.location[|path|] == '.'
  {
    var r := ReportInfo(collector, 0, path + "." + collector);
    assert r.location[|r.location| - |r.name|..] == collector;
    assert r.location[..|r.location| - |r.name| - 1] == path;
    r
  }
}
