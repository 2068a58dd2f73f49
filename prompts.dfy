/**
  The text side of one benchmark sample: the object of interest extracted
  from the question, and the prompt lists whose averaged embeddings form
  the rows of the text matrix.
 */
module Prompts {
  import opened Wrappers
  import opened PyStr
  import opened Constants

  /** The fixed opening of every question. */
  const QuestionPrefix: string :=
    "These are frames of a video." + "\n" + "Which of the following correctly represents the order in which"

  /** The fixed ending of every question. */
  const QuestionSuffix: string := "appeared in the video?"

  /**
    The object of interest: the question with the fixed opening removed,
    then the fixed ending, then every "the ", and finally stripped.
   */
  function ExtractObject(question: string): (obj: string)
    ensures IsStripped(obj)
  {
    Strip(RemoveAll(question, [QuestionPrefix, QuestionSuffix, "the "]))
  }

  /** The benchmark's question about `obj`. */
  function Question(obj: string): string {
    QuestionPrefix + " the " + obj + " " + QuestionSuffix
  }

  /**
    Extraction recovers the object from its question, provided the object
    itself gives the fixed `replace` calls nothing to match: no line break
    (which the opening holds), no question mark (which ends the ending),
    and no "the " (not even one formed with the space that follows it).
   */
  lemma ExtractObjectOfQuestion(obj: string)
    requires IsStripped(obj) && '\n' !in obj && '?' !in obj
    requires !Occurs(obj + " ", "the ")
    ensures ExtractObject(Question(obj)) == obj
  {
    var q := Question(obj);
    var b := " the " + obj + " ";
    Unwrapped(obj);
    TheRemoved(obj);
    var c := Replace(b, "the ", "");
    var pats: seq<string> := [QuestionPrefix, QuestionSuffix, "the "];
    assert RemoveAll(q, pats) == RemoveAll(Replace(q, QuestionPrefix, ""), pats[1..]);
    assert RemoveAll(Replace(q, QuestionPrefix, ""), pats[1..]) == RemoveAll(b, pats[2..]);
    assert RemoveAll(b, pats[2..]) == RemoveAll(c, []);
    StripPadded(" ", obj, " ");
  }

  /** Removing the fixed opening and then the fixed ending leaves " the obj ". */
  lemma Unwrapped(obj: string)
    requires '\n' !in obj && '?' !in obj
    ensures Replace(Replace(Question(obj), QuestionPrefix, ""), QuestionSuffix, "") == " the " + obj + " "
  {
    var x := " the " + obj + " ";
    var q := Question(obj);
    assert q == QuestionPrefix + (x + QuestionSuffix);
    assert '\n' !in QuestionSuffix;
    assert '\n' !in x + QuestionSuffix;
    PrefixRemoved(x + QuestionSuffix);
    SuffixRemoved(x);
  }

  /** The opening is removed once and occurs nowhere after it. */
  lemma PrefixRemoved(rest: string)
    requires '\n' !in rest
    ensures Replace(QuestionPrefix + rest, QuestionPrefix, "") == rest
  {
    ReplaceLeading(QuestionPrefix, rest, "");
    AbsentByChar(rest, QuestionPrefix, '\n');
    ReplaceAbsent(rest, QuestionPrefix, "");
    assert "" + rest == rest;
  }

  /** The ending is removed; its '?' occurs nowhere before it. */
  lemma SuffixRemoved(x: string)
    requires '?' !in x
    ensures Replace(x + QuestionSuffix, QuestionSuffix, "") == x
  {
    assert QuestionSuffix[|QuestionSuffix| - 1] == '?';
    assert '?' !in QuestionSuffix[..|QuestionSuffix| - 1];
    ReplaceTrailing(x, QuestionSuffix, "");
    assert x + "" == x;
  }

  /** The single "the " before the object goes. */
  lemma TheRemoved(obj: string)
    requires !Occurs(obj + " ", "the ")
    ensures Replace(" the " + obj + " ", "the ", "") == " " + obj + " "
  {
    var x := " the " + obj + " ";
    var tail := obj + " ";
    assert x == " " + ("the " + tail);
    ReplaceKeepsHead(x, "the ", "");
    assert x[1..] == "the " + tail;
    ReplaceLeading("the ", tail, "");
    ReplaceAbsent(tail, "the ", "");
  }

  /** `[t.format(*args) for t in templates]`; `None` when a `format` raises. */
  function FormatAll(templates: seq<string>, args: seq<string>): Option<seq<string>>
  {
    if templates == [] then Some([])
    else
      match Format(templates[0], args)
      case None => None
      case Some(head) =>
        match FormatAll(templates[1..], args)
        case None => None
        case Some(tail) => Some([head] + tail)
  }

  /** One-field templates, given by the text around the field, with `x` in it. */
  function FilledOne(shapes: seq<(string, string)>, x: string): (r: seq<string>)
    ensures |r| == |shapes|
  {
    seq(|shapes|, i requires 0 <= i < |shapes| => shapes[i].0 + x + shapes[i].1)
  }

  /** Two-field templates, given by the text around the fields, with `x` and `y` in them. */
  function FilledTwo(shapes: seq<(string, string, string)>, x: string, y: string): (r: seq<string>)
    ensures |r| == |shapes|
  {
    seq(|shapes|, i requires 0 <= i < |shapes| => shapes[i].0 + x + shapes[i].1 + y + shapes[i].2)
  }

  /** Every one-field template is filled with the first argument. */
  lemma {:induction false} FormatAllOne(shapes: seq<(string, string)>, x: string, more: seq<string>)
    requires forall i :: 0 <= i < |shapes| ==> Plain(shapes[i].0) && Plain(shapes[i].1)
    ensures FormatAll(OneField(shapes), [x] + more) == Some(FilledOne(shapes, x))
  {
    if shapes != [] {
      var ts := OneField(shapes);
      assert ts[1..] == OneField(shapes[1..]);
      FormatAllOne(shapes[1..], x, more);
      assert ts[0] == shapes[0].0 + "{}" + shapes[0].1;
      FormatOne(shapes[0].0, shapes[0].1, x, more);
      assert FilledOne(shapes, x) == [shapes[0].0 + x + shapes[0].1] + FilledOne(shapes[1..], x);
    }
  }

  /** Every two-field template is filled with the first two arguments. */
  lemma {:induction false} FormatAllTwo(shapes: seq<(string, string, string)>, x: string, y: string)
    requires forall i :: 0 <= i < |shapes| ==> Plain(shapes[i].0) && Plain(shapes[i].1) && Plain(shapes[i].2)
    ensures FormatAll(TwoFields(shapes), [x, y]) == Some(FilledTwo(shapes, x, y))
  {
    if shapes != [] {
      var ts := TwoFields(shapes);
      assert ts[1..] == TwoFields(shapes[1..]);
      FormatAllTwo(shapes[1..], x, y);
      assert ts[0] == shapes[0].0 + "{}" + shapes[0].1 + "{}" + shapes[0].2;
      FormatTwo(shapes[0].0, shapes[0].1, shapes[0].2, x, y, []);
      assert [x, y] + [] == [x, y];
      assert FilledTwo(shapes, x, y) ==
        [shapes[0].0 + x + shapes[0].1 + y + shapes[0].2] + FilledTwo(shapes[1..], x, y);
    }
  }

  /** `[p.format(obj.strip()) for p in prompt_templates]` */
  function ObjectPrompts(obj: string): Option<seq<string>> {
    FormatAll(PromptTemplates, [Strip(obj)])
  }

  /** `[t.format(obj.strip(), other_obj.strip()) for t in relation_templates]` */
  function RelationPrompts(obj: string, other: string): Option<seq<string>> {
    FormatAll(RelationTemplates, [Strip(obj), Strip(other)])
  }

  /** The 16 object prompts: each template with the stripped object in its field. */
  lemma ObjectPromptsSpec(obj: string)
    ensures ObjectPrompts(obj) == Some(FilledOne(PromptShapes, Strip(obj)))
    ensures |FilledOne(PromptShapes, Strip(obj))| == 16
  {
    PromptTemplatesShape();
    FormatAllOne(PromptShapes, Strip(obj), []);
    assert [Strip(obj)] + [] == [Strip(obj)];
  }

  /**
    The 20 relation prompts: each template with the stripped object in its
    first field and the stripped candidate in its second.
   */
  lemma RelationPromptsSpec(obj: string, other: string)
    ensures RelationPrompts(obj, other) == Some(FilledTwo(RelationShapes, Strip(obj), Strip(other)))
    ensures |FilledTwo(RelationShapes, Strip(obj), Strip(other))| == 20
  {
    RelationTemplatesShape();
    FormatAllTwo(RelationShapes, Strip(obj), Strip(other));
  }

  /**
    What one row of the text matrix describes: the object alone, or the
    object together with one candidate.
   */
  datatype Text = ObjectText(obj: string) | RelationText(obj: string, other: string)

  /** The prompt list of a row: the templates filled with its names. */
  function Render(t: Text): seq<string> {
    match t
    case ObjectText(o) => FilledOne(PromptShapes, o)
    case RelationText(o, c) => FilledTwo(RelationShapes, o, c)
  }

  /** The rows of the text matrix: the object, then the object with each candidate in turn. */
  function Texts(obj: string, objects: seq<string>): (ts: seq<Text>)
    ensures |ts| == 1 + |objects| && ts[0] == ObjectText(Strip(obj))
    ensures forall k :: 1 <= k <= |objects| ==> ts[k] == RelationText(Strip(obj), Strip(objects[k - 1]))
  {
    [ObjectText(Strip(obj))] + seq(|objects|, k requires 0 <= k < |objects| => RelationText(Strip(obj), Strip(objects[k])))
  }

  /**
    Lines 187-207 of the script: the object prompts, then the relation
    prompts of each candidate in turn; the rows are the formatted
    templates: row 0 is `Render` of the first text of `Texts`, and row
    `k + 1` that of the text pairing the object with candidate `k`.
   */
  method BuildTextRows(obj: string, objects: seq<string>) returns (rows: seq<seq<string>>)
    ensures |rows| == 1 + |objects|
    ensures rows[0] == FilledOne(PromptShapes, Strip(obj)) && |rows[0]| == 16
    ensures forall k :: 0 <= k < |objects| ==>
      rows[k + 1] == FilledTwo(RelationShapes, Strip(obj), Strip(objects[k])) && |rows[k + 1]| == 20
    ensures forall k :: 0 <= k < |rows| ==> rows[k] == Render(Texts(obj, objects)[k])
  {
    ObjectPromptsSpec(obj);
    var prompts := ObjectPrompts(obj).value;
    var relational := BuildRelationRows(obj, objects);
    rows := [prompts] + relational;
    assert forall k :: 0 <= k < |objects| ==> rows[k + 1] == relational[k];
    RowsRendered(obj, objects, rows);
  }

  /** Lines 197-204: the loop appending the relation prompts of one candidate at a time. */
  method BuildRelationRows(obj: string, objects: seq<string>) returns (relational: seq<seq<string>>)
    ensures |relational| == |objects|
    ensures forall k :: 0 <= k < |objects| ==>
      relational[k] == FilledTwo(RelationShapes, Strip(obj), Strip(objects[k])) && |relational[k]| == 20
  {
    relational := [];
    var k := 0;
    while k < |objects|
      invariant 0 <= k <= |objects|
      invariant |relational| == k
      invariant forall j :: 0 <= j < k ==>
        relational[j] == FilledTwo(RelationShapes, Strip(obj), Strip(objects[j])) && |relational[j]| == 20
    {
      RelationPromptsSpec(obj, objects[k]);
      var rel := RelationPrompts(obj, objects[k]).value;
      relational := relational + [rel];
      k := k + 1;
    }
  }

  /** Rows laid out as the text matrix are the prompt lists of `Texts`, in order. */
  lemma RowsRendered(obj: string, objects: seq<string>, rows: seq<seq<string>>)
    requires |rows| == 1 + |objects| && rows[0] == FilledOne(PromptShapes, Strip(obj))
    requires forall k :: 0 <= k < |objects| ==> rows[k + 1] == FilledTwo(RelationShapes, Strip(obj), Strip(objects[k]))
    ensures forall k :: 0 <= k < |rows| ==> rows[k] == Render(Texts(obj, objects)[k])
  {
    forall k | 1 <= k < |rows| ensures rows[k] == Render(Texts(obj, objects)[k]) {
      assert rows[(k - 1) + 1] == FilledTwo(RelationShapes, Strip(obj), Strip(objects[k - 1]));
    }
  }
}
