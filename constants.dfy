/**
  The fixed tables of the benchmark script: the answer letters, the model
  registry and its inverse, and the two lists of prompt templates.
 */
module Constants {
  import opened PyStr

  /** Frames are sampled at this rate (frames per second). */
  const FpsTarget: nat := 1

  // ---------------------------------------------------------------------
  // ANSWER_MAPPING
  // ---------------------------------------------------------------------

  /** The answer letters, in option order. */
  const AnswerLetters: string := "ABCD"

  const AnswerMapping: map<string, nat> := map["A" := 0, "B" := 1, "C" := 2, "D" := 3]

  /** Exactly the four letters are keys, and letter `i` maps to option index `i`. */
  lemma AnswerMappingSpec()
    ensures AnswerMapping.Keys == set i | 0 <= i < |AnswerLetters| :: [AnswerLetters[i]]
    ensures forall i :: 0 <= i < |AnswerLetters| ==> AnswerMapping[[AnswerLetters[i]]] == i
  {
    assert [AnswerLetters[0]] == "A" && [AnswerLetters[1]] == "B";
    assert [AnswerLetters[2]] == "C" && [AnswerLetters[3]] == "D";
    var s := set i | 0 <= i < |AnswerLetters| :: [AnswerLetters[i]];
    assert "A" in s && "B" in s && "C" in s && "D" in s;
  }

  // ---------------------------------------------------------------------
  // CLIP_MODELS and PATHS_TO_NAME_MAPPING
  // ---------------------------------------------------------------------

  /** A dict literal or comprehension: later pairs overwrite earlier ones. */
  function ToMap<K, V>(items: seq<(K, V)>): (m: map<K, V>)
    ensures m.Keys == set i | 0 <= i < |items| :: items[i].0
  {
    if items == [] then map[]
    else
      var m := ToMap(items[..|items| - 1]);
      var last := items[|items| - 1];
      assert forall i :: 0 <= i < |items| - 1 ==> items[..|items| - 1][i] == items[i];
      m[last.0 := last.1]
  }

  function Swapped<K, V>(items: seq<(K, V)>): (r: seq<(V, K)>)
    ensures |r| == |items|
    ensures forall i :: 0 <= i < |items| ==> r[i] == (items[i].1, items[i].0)
  {
    seq(|items|, i requires 0 <= i < |items| => (items[i].1, items[i].0))
  }

  /** `{v: k for k, v in items}` */
  function Invert<K, V>(items: seq<(K, V)>): map<V, K> {
    ToMap(Swapped(items))
  }

  predicate DistinctKeys<K(==), V>(items: seq<(K, V)>) {
    forall i, j :: 0 <= i < j < |items| ==> items[i].0 != items[j].0
  }

  /** With distinct keys, every pair of the literal is kept as written. */
  lemma {:induction false} ToMapLookup<K, V>(items: seq<(K, V)>, i: nat)
    requires DistinctKeys(items) && i < |items|
    ensures ToMap(items)[items[i].0] == items[i].1
  {
    if i < |items| - 1 {
      var init := items[..|items| - 1];
      assert init[i] == items[i];
      assert DistinctKeys(init) by {
        forall a, b | 0 <= a < b < |init| ensures init[a].0 != init[b].0 {
          assert init[a] == items[a] && init[b] == items[b];
        }
      }
      ToMapLookup(init, i);
    }
  }

  /**
    The name-to-hub-path registry, in its literal order. As a dict,
    `ClipModels()` below.
   */
  const ClipModelItems: seq<(string, string)> := [
    ("clip_vitl14_224", "hf-hub:timm/vit_large_patch14_clip_224.openai"),
    ("siglip2_b16_224", "hf-hub:timm/ViT-B-16-SigLIP2"),
    ("siglip2_so400m16_384", "hf-hub:timm/ViT-SO400M-16-SigLIP2-384"),
    ("siglip2_so400m16_512", "hf-hub:timm/ViT-SO400M-16-SigLIP2-512"),
    ("siglip2_b32_256", "hf-hub:timm/ViT-B-32-SigLIP2-256"),
    ("dfn5b_h14_384", "hf-hub:apple/DFN5B-CLIP-ViT-H-14-384"),
    ("datology_cls", "hf-hub:DatologyAI/cls-opt-vit-b-32"),
    ("datology_ret", "hf-hub:DatologyAI/retr-opt-vit-b-32")
  ]

  /** Both the names and the hub paths of the registry are pairwise distinct. */
  lemma ClipModelsDistinct()
    ensures DistinctKeys(ClipModelItems) && DistinctKeys(Swapped(ClipModelItems))
  {
  }

  function ClipModels(): map<string, string> {
    ToMap(ClipModelItems)
  }

  function PathsToNameMapping(): map<string, string> {
    Invert(ClipModelItems)
  }

  /**
    When both keys and values are distinct, the inverted dict is keyed by
    exactly the values, and it undoes the dict in both directions.
   */
  lemma InvertIsInverse<K, V>(items: seq<(K, V)>)
    requires DistinctKeys(items) && DistinctKeys(Swapped(items))
    ensures Invert(items).Keys == ToMap(items).Values
    ensures forall k :: k in ToMap(items) ==>
      ToMap(items)[k] in Invert(items) && Invert(items)[ToMap(items)[k]] == k
    ensures forall v :: v in Invert(items) ==>
      Invert(items)[v] in ToMap(items) && ToMap(items)[Invert(items)[v]] == v
  {
    var m, inv := ToMap(items), Invert(items);
    var swapped := Swapped(items);
    forall i | 0 <= i < |items|
      ensures m[items[i].0] == items[i].1
      ensures inv[items[i].1] == items[i].0
    {
      ToMapLookup(items, i);
      ToMapLookup(swapped, i);
    }
    forall v | v in m.Values ensures v in inv {
      var k :| k in m && m[k] == v;
      var i :| 0 <= i < |items| && items[i].0 == k;
      assert swapped[i].0 == v;
    }
    forall v | v in inv ensures v in m.Values {
      var i :| 0 <= i < |swapped| && swapped[i].0 == v;
      assert items[i].0 in m;
    }
  }

  /** `PATHS_TO_NAME_MAPPING` undoes `CLIP_MODELS`, and the other way round. */
  lemma PathsToNameIsInverse()
    ensures PathsToNameMapping().Keys == ClipModels().Values
    ensures forall name :: name in ClipModels() ==>
      ClipModels()[name] in PathsToNameMapping() && PathsToNameMapping()[ClipModels()[name]] == name
    ensures forall path :: path in PathsToNameMapping() ==>
      PathsToNameMapping()[path] in ClipModels() && ClipModels()[PathsToNameMapping()[path]] == path
  {
    ClipModelsDistinct();
    InvertIsInverse(ClipModelItems);
  }

  // ---------------------------------------------------------------------
  // Prompt templates
  // ---------------------------------------------------------------------

  /**
    The object templates, each written as the text before and after its
    single `{}` field: ("a photo of ", "") is the template "a photo of {}".
   */
  const PromptShapes: seq<(string, string)> := [
    ("a photo of ", ""),
    ("a picture of ", ""),
    ("an image showing ", ""),
    ("a clear view of ", ""),
    ("a snapshot of ", ""),
    ("a video frame depicting ", ""),
    ("a close-up of ", ""),
    ("a realistic photo of ", ""),
    ("a detailed view of ", ""),
    ("", " is in the scene"),
    ("the frame contains ", ""),
    ("", ""),
    ("", " "),
    ("", " is in the photo"),
    ("what is in the photo? ", ""),
    ("wow what a cute photo of ", "")
  ]

  /**
    The relation templates, each written as the text before, between and
    after its two `{}` fields: ("", " is near ", "") is "{} is near {}".
   */
  const RelationShapes: seq<(string, string, string)> := [
    ("", " is on top of ", ""),
    ("", " is near ", ""),
    ("", " is next to ", ""),
    ("", " is below ", ""),
    ("", " is in front of ", ""),
    ("", " is behind ", ""),
    ("", " is beside ", ""),
    ("", " is close to ", ""),
    ("", " is far from ", ""),
    ("", " is leaning against ", ""),
    ("", " is touching ", ""),
    ("", " is overlapping with ", ""),
    ("", " is surrounded by ", ""),
    ("", " is facing ", ""),
    ("", " is approaching ", ""),
    ("", " is interacting with ", ""),
    ("", " is above ", ""),
    ("", " is under ", ""),
    ("", " appears with ", " in the frame"),
    ("", " and ", " are seen together")
  ]

  /** Format strings with one field, from the text around it. */
  function OneField(shapes: seq<(string, string)>): (ts: seq<string>)
    ensures |ts| == |shapes|
  {
    seq(|shapes|, i requires 0 <= i < |shapes| => shapes[i].0 + "{}" + shapes[i].1)
  }

  /** Format strings with two fields, from the text around them. */
  function TwoFields(shapes: seq<(string, string, string)>): (ts: seq<string>)
    ensures |ts| == |shapes|
  {
    seq(|shapes|, i requires 0 <= i < |shapes| => shapes[i].0 + "{}" + shapes[i].1 + "{}" + shapes[i].2)
  }

  /** `prompt_templates` */
  const PromptTemplates: seq<string> := OneField(PromptShapes)

  /** `relation_templates` */
  const RelationTemplates: seq<string> := TwoFields(RelationShapes)

  /** The text around the field of object templates `lo` to `hi - 1` has no brace. */
  predicate PlainPrompts(lo: nat, hi: nat)
    requires lo <= hi <= |PromptShapes|
  {
    forall i :: lo <= i < hi ==> Plain(PromptShapes[i].0) && Plain(PromptShapes[i].1)
  }

  /** The text around the fields of relation templates `lo` to `hi - 1` has no brace. */
  predicate PlainRelations(lo: nat, hi: nat)
    requires lo <= hi <= |RelationShapes|
  {
    forall i :: lo <= i < hi ==>
      Plain(RelationShapes[i].0) && Plain(RelationShapes[i].1) && Plain(RelationShapes[i].2)
  }

  // The templates are checked a few at a time, which keeps each proof small.
  lemma PlainPrompts0() ensures PlainPrompts(0, 2) {}
  lemma PlainPrompts1() ensures PlainPrompts(2, 4) {}
  lemma PlainPrompts2() ensures PlainPrompts(4, 6) {}
  lemma PlainPrompts3() ensures PlainPrompts(6, 8) {}
  lemma PlainPrompts4() ensures PlainPrompts(8, 10) {}
  lemma PlainPrompts5() ensures PlainPrompts(10, 12) {}
  lemma PlainPrompts6() ensures PlainPrompts(12, 14) {}
  lemma PlainPrompts7() ensures PlainPrompts(14, 16) {}
  lemma PlainRelations0() ensures PlainRelations(0, 4) {}
  lemma PlainRelations1() ensures PlainRelations(4, 8) {}
  lemma PlainRelations2() ensures PlainRelations(8, 12) {}
  lemma PlainRelations3() ensures PlainRelations(12, 16) {}
  lemma PlainRelations4() ensures PlainRelations(16, 20) {}

  /** There are 16 object templates, and no brace appears outside their field. */
  lemma PromptTemplatesShape()
    ensures |PromptTemplates| == |PromptShapes| == 16
    ensures forall i :: 0 <= i < |PromptShapes| ==> Plain(PromptShapes[i].0)
    ensures forall i :: 0 <= i < |PromptShapes| ==> Plain(PromptShapes[i].1)
  {
    PlainPrompts0();
    PlainPrompts1();
    PlainPrompts2();
    PlainPrompts3();
    PlainPrompts4();
    PlainPrompts5();
    PlainPrompts6();
    PlainPrompts7();
    assert PlainPrompts(0, 16);
  }

  /** There are 20 relation templates, and no brace appears outside their fields. */
  lemma RelationTemplatesShape()
    ensures |RelationTemplates| == |RelationShapes| == 20
    ensures forall i :: 0 <= i < |RelationShapes| ==> Plain(RelationShapes[i].0)
    ensures forall i :: 0 <= i < |RelationShapes| ==> Plain(RelationShapes[i].1)
    ensures forall i :: 0 <= i < |RelationShapes| ==> Plain(RelationShapes[i].2)
  {
    PlainRelations0();
    PlainRelations1();
    PlainRelations2();
    PlainRelations3();
    PlainRelations4();
    assert PlainRelations(0, 20);
  }
}
