/**
 Pruning of a failure's traceback (`_prunetraceback`, after pytest's own pruning): three
 filters in a row, each dropping the frames whose path contains one marker: the plugin's
 own file name, `/_pytest` and `/pluggy/`. A frame is modelled by its path.
 */
module Traceback {

  /** The base name of the plugin's own file. */
  const ThisFileName: string := "pytest_contexts.py"
  /** Marks frames of pytest's internals. */
  const PytestMarker: string := "/_pytest"
  /** Marks frames of pluggy's hook dispatch. */
  const PluggyMarker: string := "/pluggy/"

  /** Python's `needle in hay` on strings: `needle` occurs somewhere in `hay`. */
  function Contains(hay: string, needle: string): (r: bool)
    ensures r <==> exists i | 0 <= i <= |hay| :: needle <= hay[i..]
    decreases |hay|
  {
    if needle <= hay then
      assert hay[0..] == hay;
      true
    else if |hay| == 0 then false
    else
      var found := Contains(hay[1..], needle);
      assert forall i | 1 <= i <= |hay| :: hay[i..] == hay[1..][i - 1..];
      assert found ==> exists i | 0 <= i <= |hay| - 1 :: needle <= hay[1..][i..];
      found
  }

  predicate NotThisFile(path: string) { !Contains(path, ThisFileName) }
  predicate NotPytest(path: string) { !Contains(path, PytestMarker) }
  predicate NotPluggy(path: string) { !Contains(path, PluggyMarker) }

  /** The frames `_prunetraceback` keeps: those whose path contains none of the markers. */
  predicate KeepFrame(path: string)
  {
    NotThisFile(path) && NotPytest(path) && NotPluggy(path)
  }

  /** `traceback.filter(keep)`: the frames that satisfy `keep`, in their original order,
      each as often as it occurs; frames that repeat a path are all kept. */
  function Filter(keep: string -> bool, frames: seq<string>): (r: seq<string>)
    ensures |r| <= |frames|
    ensures forall f | f in r :: f in frames && keep(f)
    ensures forall f | f in frames && keep(f) :: f in r
    ensures forall f {:trigger multiset(r)[f]} :: multiset(r)[f] == (if keep(f) then multiset(frames)[f] else 0)
  {
    if |frames| == 0 then []
    else
      assert frames == [frames[0]] + frames[1..];
      (if keep(frames[0]) then [frames[0]] else []) + Filter(keep, frames[1..])
  }

  /** Filtering distributes over concatenation, so relative order is kept. */
  lemma {:induction false} FilterConcat(keep: string -> bool, a: seq<string>, b: seq<string>)
    ensures Filter(keep, a + b) == Filter(keep, a) + Filter(keep, b)
    decreases |a|
  {
    if |a| == 0 {
      assert a + b == b;
    } else {
      assert (a + b)[0] == a[0];
      assert (a + b)[1..] == a[1..] + b;
      FilterConcat(keep, a[1..], b);
    }
  }

  /** Two filters in a row keep exactly what one filter by their conjunction keeps. */
  lemma {:induction false} FilterFuse(p: string -> bool, q: string -> bool, both: string -> bool, frames: seq<string>)
    requires forall f :: both(f) == (p(f) && q(f))
    ensures Filter(p, Filter(q, frames)) == Filter(both, frames)
    decreases |frames|
  {
    if |frames| > 0 {
      var head := if q(frames[0]) then [frames[0]] else [];
      FilterConcat(p, head, Filter(q, frames[1..]));
      FilterFuse(p, q, both, frames[1..]);
      if q(frames[0]) {
        assert Filter(p, head) == (if p(frames[0]) then [frames[0]] else []) by {
          assert head[1..] == [];
        }
      }
    }
  }

  /** The order of two filters does not matter. */
  lemma {:induction false} FilterCommute(p: string -> bool, q: string -> bool, frames: seq<string>)
    ensures Filter(p, Filter(q, frames)) == Filter(q, Filter(p, frames))
    decreases |frames|
  {
    if |frames| > 0 {
      var f := frames[0];
      var qHead := if q(f) then [f] else [];
      var pHead := if p(f) then [f] else [];
      FilterConcat(p, qHead, Filter(q, frames[1..]));
      FilterConcat(q, pHead, Filter(p, frames[1..]));
      FilterCommute(p, q, frames[1..]);
      assert [f][1..] == [];
    }
  }

  /** `_prunetraceback` after pytest's own pruning: the plugin's file, then pytest's
      internals, then pluggy's are filtered out; what stays is, in original order, exactly
      the frames `KeepFrame` accepts. */
  function Prune(frames: seq<string>): (r: seq<string>)
    ensures r == Filter(KeepFrame, frames)
    ensures forall f | f in r :: f in frames && KeepFrame(f)
    ensures forall f | f in frames && KeepFrame(f) :: f in r
  {
    var r := Filter(NotPluggy, Filter(NotPytest, Filter(NotThisFile, frames)));
    FilterFuse(NotPytest, NotThisFile, (f: string) => NotPytest(f) && NotThisFile(f), frames);
    FilterFuse(NotPluggy, (f: string) => NotPytest(f) && NotThisFile(f), KeepFrame, frames);
    r
  }

  /** The three filters commute: applied in any order they prune the same frames. */
  lemma PruneOrderIrrelevant(frames: seq<string>)
    ensures Filter(NotThisFile, Filter(NotPytest, Filter(NotPluggy, frames))) == Prune(frames)
    ensures Filter(NotPytest, Filter(NotThisFile, Filter(NotPluggy, frames))) == Prune(frames)
    ensures Filter(NotPluggy, Filter(NotThisFile, Filter(NotPytest, frames))) == Prune(frames)
    ensures Filter(NotThisFile, Filter(NotPluggy, Filter(NotPytest, frames))) == Prune(frames)
    ensures Filter(NotPytest, Filter(NotPluggy, Filter(NotThisFile, frames))) == Prune(frames)
  {
    var a, b, c := NotThisFile, NotPytest, NotPluggy;
    // Prune(frames) == c(b(a(frames)))
    FilterCommute(b, a, frames);
    FilterCommute(c, b, Filter(a, frames));
    FilterCommute(c, a, Filter(b, frames));
    FilterCommute(c, a, frames);
    FilterCommute(c, b, frames);
    FilterCommute(b, a, Filter(c, frames));
    FilterCommute(a, b, Filter(c, frames));
    FilterCommute(b, c, Filter(a, frames));
    FilterCommute(a, c, Filter(b, frames));
  }

  /** A trace made only of user frames is left whole. */
  lemma PruneKeepsUserFrames(frames: seq<string>)
    requires forall f | f in frames :: KeepFrame(f)
    ensures Prune(frames) == frames
  {
    FilterAll(KeepFrame, frames);
  }

  lemma {:induction false} FilterAll(keep: string -> bool, frames: seq<string>)
    requires forall f | f in frames :: keep(f)
    ensures Filter(keep, frames) == frames
    decreases |frames|
  {
    if |frames| > 0 {
      FilterAll(keep, frames[1..]);
      assert frames == [frames[0]] + frames[1..];
    }
  }
}
