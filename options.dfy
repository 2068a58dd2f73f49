/**
  The answer options of a sample. Each option lists the same candidate
  objects in a different order ("A. chair, table, lamp, sofa"); the
  benchmark reads the candidates from the first option and turns every
  option into the positions of its objects among those candidates.
 */
module Options {
  import opened Wrappers
  import opened PyStr

  /** `[x.strip() for x in parts]` */
  function StripEach(parts: seq<string>): (r: seq<string>)
    ensures |r| == |parts|
  {
    seq(|parts|, i requires 0 <= i < |parts| => Strip(parts[i]))
  }

  /** The candidate objects: the first option without "A. ", split on ',' and stripped. */
  function CandidateObjects(first: string): seq<string> {
    StripEach(Split(Replace(first, "A. ", ""), ','))
  }

  /** The labels of the given letters: "A. " for 'A'. */
  function Labels(letters: string): (ls: seq<string>)
    ensures |ls| == |letters|
    ensures forall k :: 0 <= k < |letters| ==> ls[k] == [letters[k]] + ". "
  {
    seq(|letters|, k requires 0 <= k < |letters| => [letters[k]] + ". ")
  }

  /** An option with every "A. ", "B. ", "C. " and "D. " removed, in that order. */
  function RemoveLabels(opt: string): string {
    RemoveAll(opt, Labels("ABCD"))
  }

  /** The objects of one option, in the option's order. */
  function OptionObjects(opt: string): seq<string> {
    StripEach(Split(RemoveLabels(opt), ','))
  }

  /** `xs.index(x)`: the first position holding `x`; `None` for the `ValueError`. */
  function IndexOf(xs: seq<string>, x: string): (r: Option<nat>)
    ensures r.None? <==> x !in xs
    ensures r.Some? ==> r.value < |xs| && xs[r.value] == x
    ensures r.Some? ==> forall j :: 0 <= j < r.value ==> xs[j] != x
  {
    if xs == [] then None
    else if xs[0] == x then Some(0)
    else
      match IndexOf(xs[1..], x)
      case None => None
      case Some(i) => Some(i + 1)
  }

  /**
    `[objects.index(x) for x in objs]`: defined exactly when every object
    is a candidate, and then each position is that object's first
    occurrence among the candidates.
   */
  function Positions(objs: seq<string>, objects: seq<string>): (r: Option<seq<nat>>)
    ensures r.Some? <==> forall i :: 0 <= i < |objs| ==> objs[i] in objects
    ensures r.Some? ==> |r.value| == |objs|
    ensures r.Some? ==> forall i :: 0 <= i < |objs| ==> IndexOf(objects, objs[i]) == Some(r.value[i])
  {
    if objs == [] then Some([])
    else
      match IndexOf(objects, objs[0])
      case None => None
      case Some(p) =>
        match Positions(objs[1..], objects)
        case None =>
          assert !(forall i :: 0 <= i < |objs| - 1 ==> objs[1..][i] in objects);
          None
        case Some(ps) => Some([p] + ps)
  }

  /**
    The positions of every option's objects, in option order; `None` when
    some option names an object that is not a candidate.
   */
  function AllPositions(opts: seq<string>, objects: seq<string>): Option<seq<seq<nat>>> {
    Collect(seq(|opts|, i requires 0 <= i < |opts| => Positions(OptionObjects(opts[i]), objects)))
  }

  /**
    Lines 230-234: the loop appending the positions of one option at a
    time; it stops at the first option that names an unknown object
    (`index` raises).
   */
  method OptionPositions(opts: seq<string>, objects: seq<string>) returns (r: Option<seq<seq<nat>>>)
    ensures r == AllPositions(opts, objects)
  {
    var positions: seq<seq<nat>> := [];
    var i := 0;
    while i < |opts|
      invariant 0 <= i <= |opts| && |positions| == i
      invariant forall j :: 0 <= j < i ==> Positions(OptionObjects(opts[j]), objects) == Some(positions[j])
    {
      var pos := Positions(OptionObjects(opts[i]), objects);
      if pos.None? {
        AllPositionsNone(opts, objects, i);
        return None;
      }
      positions := positions + [pos.value];
      i := i + 1;
    }
    AllPositionsSome(opts, objects, positions);
    r := Some(positions);
  }

  /** One option naming an unknown object makes the whole parse fail. */
  lemma AllPositionsNone(opts: seq<string>, objects: seq<string>, i: nat)
    requires i < |opts| && Positions(OptionObjects(opts[i]), objects).None?
    ensures AllPositions(opts, objects) == None
  {
    var results := seq(|opts|, j requires 0 <= j < |opts| => Positions(OptionObjects(opts[j]), objects));
    assert results[i].None?;
  }

  /** When every option parses, the parse is the list of their positions. */
  lemma AllPositionsSome(opts: seq<string>, objects: seq<string>, ps: seq<seq<nat>>)
    requires |ps| == |opts|
    requires forall j :: 0 <= j < |opts| ==> Positions(OptionObjects(opts[j]), objects) == Some(ps[j])
    ensures AllPositions(opts, objects) == Some(ps)
  {
    var results := seq(|opts|, j requires 0 <= j < |opts| => Positions(OptionObjects(opts[j]), objects));
    assert forall j :: 0 <= j < |opts| ==> results[j] == Some(ps[j]);
    CollectSome(results, ps);
  }

  // ---------------------------------------------------------------------
  // How the options are written, and what parsing recovers from them
  // ---------------------------------------------------------------------

  /** An option as the benchmark writes it: "A. chair, table, lamp, sofa". */
  function RenderOption(letter: char, items: seq<string>): string {
    [letter] + ". " + Join(items, ", ")
  }

  /** An object name that the parsing cannot mistake for punctuation. */
  predicate Item(x: string) {
    IsStripped(x) && ',' !in x && '.' !in x
  }

  /** `items[0]`, then every later item behind a space: the pieces of `", ".join(items)` split on ','. */
  function Spaced(items: seq<string>): (r: seq<string>)
    requires |items| >= 1
    ensures |r| == |items|
  {
    [items[0]] + seq(|items| - 1, i requires 0 <= i < |items| - 1 => " " + items[i + 1])
  }

  lemma {:induction false} JoinSpaced(items: seq<string>)
    requires |items| >= 1
    ensures Join(items, ", ") == Join(Spaced(items), ",")
  {
    if |items| > 1 {
      JoinSpaced(items[1..]);
      var sp, tail := Spaced(items), Spaced(items[1..]);
      assert sp[1..] == [" " + tail[0]] + tail[1..];
      JoinHeadSpaced(tail);
      assert Join(sp, ",") == items[0] + "," + Join(sp[1..], ",");
      assert Join(items, ", ") == items[0] + ", " + Join(items[1..], ", ");
    }
  }

  /** Putting a space before the first piece puts it before the whole join. */
  lemma {:induction false} JoinHeadSpaced(parts: seq<string>)
    requires |parts| >= 1
    ensures Join([" " + parts[0]] + parts[1..], ",") == " " + Join(parts, ",")
  {
    var ps := [" " + parts[0]] + parts[1..];
    assert |ps| == |parts| && ps[0] == " " + parts[0] && ps[1..] == parts[1..];
    if |parts| > 1 {
      var rest := Join(parts[1..], ",");
      assert Join(ps, ",") == (" " + parts[0]) + "," + rest;
      assert Join(parts, ",") == parts[0] + "," + rest;
    }
  }

  /** A letter followed by well-formed items loses exactly its own letter. */
  lemma LabelRemoved(letter: char, x: char, body: string)
    requires letter in "ABCD" && x in "ABCD" && '.' !in body
    ensures Replace([letter] + ". " + body, [x] + ". ", "") == if letter == x then body else [letter] + ". " + body
  {
    var pat := [x] + ". ";
    assert pat[1] == '.';
    var s := [letter] + ". " + body;
    if letter == x {
      assert s == pat + body;
      ReplaceLeading(pat, body, "");
      AbsentByChar(body, pat, '.');
      ReplaceAbsent(body, pat, "");
    } else {
      ReplaceKeepsHead(s, pat, "");
      var t := s[1..];
      assert t == ". " + body;
      ReplaceKeepsHead(t, pat, "");
      assert t[1..] == " " + body;
      AbsentByChar(t[1..], pat, '.');
      ReplaceAbsent(t[1..], pat, "");
      assert s == [letter] + ([t[0]] + t[1..]);
    }
  }

  lemma BodyKept(x: char, body: string)
    requires '.' !in body
    ensures Replace(body, [x] + ". ", "") == body
  {
    AbsentByChar(body, [x] + ". ", '.');
    ReplaceAbsent(body, [x] + ". ", "");
  }

  /**
    Removing the labels of `letters` in turn from a written option strips
    its own label when its letter is among them, and leaves its items alone.
   */
  lemma {:induction false} RemoveLetters(letter: char, body: string, letters: string)
    requires letter in "ABCD" && '.' !in body
    requires forall k :: 0 <= k < |letters| ==> letters[k] in "ABCD"
    ensures RemoveAll([letter] + ". " + body, Labels(letters)) ==
      if letter in letters then body else [letter] + ". " + body
    ensures RemoveAll(body, Labels(letters)) == body
    decreases |letters|
  {
    if letters != [] {
      assert Labels(letters)[1..] == Labels(letters[1..]);
      assert letters == [letters[0]] + letters[1..];
      RemoveLetters(letter, body, letters[1..]);
      LabelRemoved(letter, letters[0], body);
      BodyKept(letters[0], body);
    }
  }

  /** All four labels removed from a written option leave the list of items. */
  lemma RemoveLabelsOfRendered(letter: char, items: seq<string>)
    requires letter in "ABCD" && forall k :: 0 <= k < |items| ==> '.' !in items[k]
    ensures RemoveLabels(RenderOption(letter, items)) == Join(items, ", ")
  {
    JoinAvoids(items, ", ", '.');
    RemoveLetters(letter, Join(items, ", "), "ABCD");
  }

  /** Splitting the items' join on ',' and stripping each piece gives the items back. */
  lemma {:induction false} ItemsOfJoin(items: seq<string>)
    requires |items| >= 1 && forall k :: 0 <= k < |items| ==> Item(items[k])
    ensures StripEach(Split(Join(items, ", "), ',')) == items
  {
    var sp := Spaced(items);
    JoinSpaced(items);
    assert forall k :: 0 <= k < |sp| ==> ',' !in sp[k] by {
      forall k | 0 <= k < |sp| ensures ',' !in sp[k] {
        if k > 0 { assert sp[k] == " " + items[k]; }
      }
    }
    SplitJoin(sp, ',');
    forall k | 0 <= k < |items| ensures Strip(sp[k]) == items[k] {
      if k == 0 {
        StripPadded("", items[0], "");
        assert "" + items[0] + "" == items[0];
      } else {
        StripPadded(" ", items[k], "");
        assert " " + items[k] + "" == sp[k];
      }
    }
  }

  /**
    Parsing a written option gives back its items, in order; for the
    first option, reading the candidates does too.
   */
  lemma OptionObjectsOfRendered(letter: char, items: seq<string>)
    requires letter in "ABCD"
    requires |items| >= 1 && forall k :: 0 <= k < |items| ==> Item(items[k])
    ensures OptionObjects(RenderOption(letter, items)) == items
    ensures letter == 'A' ==> CandidateObjects(RenderOption(letter, items)) == items
  {
    RemoveLabelsOfRendered(letter, items);
    ItemsOfJoin(items);
    if letter == 'A' {
      JoinAvoids(items, ", ", '.');
      LabelRemoved('A', 'A', Join(items, ", "));
    }
  }

  /** The items at the given positions, in the given order. */
  function Permute(items: seq<string>, perm: seq<nat>): (r: seq<string>)
    requires forall t :: 0 <= t < |perm| ==> perm[t] < |items|
    ensures |r| == |perm|
  {
    seq(|perm|, t requires 0 <= t < |perm| => items[perm[t]])
  }

  /** In distinct candidates, the first position holding `items[p]` is `p`. */
  lemma IndexOfDistinct(items: seq<string>, p: nat)
    requires Distinct(items) && p < |items|
    ensures IndexOf(items, items[p]) == Some(p)
  {
    var q := IndexOf(items, items[p]).value;
    assert items[q] == items[p];
  }

  /** With distinct candidates, the positions of a reordering are the reordering. */
  lemma {:induction false} PositionsOfPermute(items: seq<string>, perm: seq<nat>)
    requires Distinct(items)
    requires forall t :: 0 <= t < |perm| ==> perm[t] < |items|
    ensures Positions(Permute(items, perm), items) == Some(perm)
  {
    if perm != [] {
      var objs := Permute(items, perm);
      PositionsOfPermute(items, perm[1..]);
      assert objs[1..] == Permute(items, perm[1..]);
      IndexOfDistinct(items, perm[0]);
      assert [perm[0]] + perm[1..] == perm;
    }
  }
}
