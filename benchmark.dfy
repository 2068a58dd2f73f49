/**
  The evaluation script's main loop: for each sample, build the text
  prompts, score every frame against them in batches, pick the four
  frames most like the object, score each option over those frames in time
  order, and count the predictions that match the answer.

  Similarities are an input: `sim(video, frame, text)` stands for the
  cosine similarity between the image embedding of frame `frame` of video
  `video` and the averaged, renormalised embedding of the prompt list
  `Render(text)`.
 */
module Benchmark {
  import opened Wrappers
  import opened PyStr
  import opened Constants
  import opened Dataset
  import opened Prompts
  import opened Options
  import opened Selection

  type Similarity = (string, nat, Text) -> real

  /** Every way the script stops with an exception. */
  datatype Error =
    | NoSample          // `__getitem__` returned None: `assert isinstance(sample, dict)` fails
    | NoOptions         // `opts[0]` on an empty option list
    | BadBatchSize      // `range(0, len(frames), 0)`
    | NoFrameFeatures   // `torch.cat` of no batches
    | TooFewFrames      // `torch.topk(..., k=4)` over fewer than four frames
    | UnknownObject     // `objects.index(x)` for an object that is not a candidate
    | BadPositionCount  // an option whose positions cannot be gathered over the four frames
    | UnknownAnswer     // `ANSWER_MAPPING[answer]` for an answer that is not a letter
    | EmptyRun          // the final `100. * correct / total` with no samples

  // ---------------------------------------------------------------------
  // Batching (lines 211-216)
  // ---------------------------------------------------------------------

  function Min(a: nat, b: nat): nat { if a <= b then a else b }

  /** The batches laid end to end. */
  function Concat<T>(chunks: seq<seq<T>>): seq<T> {
    if chunks == [] then [] else Concat(chunks[..|chunks| - 1]) + chunks[|chunks| - 1]
  }

  /** Appending one batch after the others appends its frames. */
  lemma ConcatAppend<T>(chunks: seq<seq<T>>, c: seq<T>)
    ensures Concat(chunks + [c]) == Concat(chunks) + c
  {
    assert (chunks + [c])[..|chunks|] == chunks;
  }

  /** Putting one batch before the others puts its frames first. */
  lemma {:induction false} ConcatPrepend<T>(c: seq<T>, chunks: seq<seq<T>>)
    ensures Concat([c] + chunks) == c + Concat(chunks)
  {
    if chunks != [] {
      var init := chunks[..|chunks| - 1];
      assert ([c] + chunks)[..|chunks|] == [c] + init;
      ConcatPrepend(c, init);
    }
  }

  /** The batches of `bs` frames, from the front; the last may be short. */
  function Batches<T>(frames: seq<T>, bs: nat): seq<seq<T>>
    requires bs > 0
    decreases |frames|
  {
    if frames == [] then []
    else if |frames| <= bs then [frames]
    else [frames[..bs]] + Batches(frames[bs..], bs)
  }

  /** The batches cover the frames, in order. */
  lemma {:induction false} BatchesCover<T>(frames: seq<T>, bs: nat)
    requires bs > 0
    ensures Concat(Batches(frames, bs)) == frames
    decreases |frames|
  {
    if |frames| > bs {
      BatchesCover(frames[bs..], bs);
      ConcatPrepend(frames[..bs], Batches(frames[bs..], bs));
      assert frames == frames[..bs] + frames[bs..];
    }
  }

  /** There are `ceil(|frames| / bs)` batches. */
  lemma {:induction false} BatchesCount<T>(frames: seq<T>, bs: nat)
    requires bs > 0
    ensures |Batches(frames, bs)| == (|frames| + bs - 1) / bs
    decreases |frames|
  {
    var n := |frames|;
    if frames == [] {
      DivUnique(bs - 1, bs, 0, bs - 1);
    } else if n <= bs {
      DivOne(n + bs - 1, bs);
    } else {
      BatchesCount(frames[bs..], bs);
      DivStep(n - 1, bs);
      assert n + bs - 1 == (n - bs + bs - 1) + bs;
    }
  }

  /** Batch `k` is the slice `frames[k * bs : k * bs + bs]`. */
  lemma BatchesSlice<T>(frames: seq<T>, bs: nat)
    requires bs > 0
    ensures forall k :: 0 <= k < |Batches(frames, bs)| ==>
      k * bs < |frames| && Batches(frames, bs)[k] == frames[k * bs .. Min(k * bs + bs, |frames|)]
  {
    forall k | 0 <= k < |Batches(frames, bs)|
      ensures k * bs < |frames| && Batches(frames, bs)[k] == frames[k * bs .. Min(k * bs + bs, |frames|)]
    {
      BatchAt(frames, bs, k);
    }
  }

  lemma {:induction false} BatchAt<T>(frames: seq<T>, bs: nat, k: nat)
    requires bs > 0 && k < |Batches(frames, bs)|
    ensures k * bs < |frames| && Batches(frames, bs)[k] == frames[k * bs .. Min(k * bs + bs, |frames|)]
    decreases k
  {
    var n := |frames|;
    var b := Batches(frames, bs);
    if n <= bs {
      assert b == [frames] && k == 0;
      assert frames[0..n] == frames;
    } else {
      var rest := frames[bs..];
      assert b == [frames[..bs]] + Batches(rest, bs);
      if k > 0 {
        BatchAt(rest, bs, k - 1);
        MulSucc(k, bs);
        var lo, hi := (k - 1) * bs, Min((k - 1) * bs + bs, |rest|);
        SliceOfDrop(frames, bs, lo, hi);
      }
    }
  }

  /** A slice of `frames[d..]` is the slice of `frames` shifted by `d`. */
  lemma SliceOfDrop<T>(frames: seq<T>, d: nat, lo: nat, hi: nat)
    requires d <= |frames| && lo <= hi <= |frames| - d
    ensures frames[d..][lo..hi] == frames[d + lo .. d + hi]
  {
  }

  /**
    The batches cover the frames in order, there are `ceil(|frames| / bs)`
    of them, and batch `k` is the slice `frames[k * bs : k * bs + bs]`.
   */
  lemma BatchesSpec<T>(frames: seq<T>, bs: nat)
    requires bs > 0
    ensures Concat(Batches(frames, bs)) == frames
    ensures |Batches(frames, bs)| == (|frames| + bs - 1) / bs
    ensures forall k :: 0 <= k < |Batches(frames, bs)| ==>
      k * bs < |frames| && Batches(frames, bs)[k] == frames[k * bs .. Min(k * bs + bs, |frames|)]
  {
    BatchesCover(frames, bs);
    BatchesCount(frames, bs);
    BatchesSlice(frames, bs);
  }

  /** Every batch holds between 1 and `bs` frames, and all but the last hold `bs`. */
  lemma {:induction false} BatchSizes<T>(frames: seq<T>, bs: nat)
    requires bs > 0
    ensures forall k :: 0 <= k < |Batches(frames, bs)| ==> 0 < |Batches(frames, bs)[k]| <= bs
    ensures forall k :: 0 <= k < |Batches(frames, bs)| - 1 ==> |Batches(frames, bs)[k]| == bs
    decreases |frames|
  {
    if |frames| > bs {
      var b, rest := Batches(frames, bs), Batches(frames[bs..], bs);
      BatchSizes(frames[bs..], bs);
      assert b == [frames[..bs]] + rest;
      assert forall k :: 0 < k < |b| ==> b[k] == rest[k - 1];
    }
  }

  /**
    `frames[i : i + bs] for i in range(0, len(frames), bs)`: `None` when
    `bs` is 0 (`range` raises), no batch at all when `bs` is negative, and
    otherwise `Batches`.
   */
  method Chunks<T>(frames: seq<T>, bs: int) returns (r: Option<seq<seq<T>>>)
    ensures r.None? <==> bs == 0
    ensures bs < 0 ==> r == Some([])
    ensures bs > 0 ==> r == Some(Batches(frames, bs))
  {
    if bs == 0 {
      return None;
    }
    if bs < 0 {
      return Some([]);
    }
    var n := |frames|;
    var chunks: seq<seq<T>> := [];
    var i := 0;
    while i < n
      invariant chunks + Batches(frames[Min(i, n)..], bs) == Batches(frames, bs)
      decreases n - i
    {
      var fs := frames[i .. Min(i + bs, n)];
      var rest := frames[i..];
      if |rest| > bs {
        assert rest[..bs] == fs && rest[bs..] == frames[Min(i + bs, n)..];
      } else {
        assert rest == fs && frames[Min(i + bs, n)..] == [];
      }
      chunks := chunks + [fs];
      i := i + bs;
    }
    assert frames[Min(i, n)..] == [];
    assert chunks + [] == chunks;
    r := Some(chunks);
  }

  // ---------------------------------------------------------------------
  // Similarities
  // ---------------------------------------------------------------------

  /**
    `frame_features @ text_features_final.t()`: row `i` holds the similarity
    of frame `i` to every text row.
   */
  function SimRows(video: string, frames: seq<nat>, texts: seq<Text>, sim: Similarity): (m: seq<seq<real>>)
    ensures |m| == |frames|
    ensures forall i :: 0 <= i < |frames| ==> |m[i]| == |texts|
  {
    seq(|frames|, i requires 0 <= i < |frames| =>
      seq(|texts|, j requires 0 <= j < |texts| => sim(video, frames[i], texts[j])))
  }

  /** Entry `(i, j)` is the similarity of frame `i` to text row `j`. */
  lemma SimRowsAt(video: string, frames: seq<nat>, texts: seq<Text>, sim: Similarity, i: nat, j: nat)
    requires i < |frames| && j < |texts|
    ensures SimRows(video, frames, texts, sim)[i][j] == sim(video, frames[i], texts[j])
  {
  }

  /** Scoring two runs of frames one after the other scores their concatenation. */
  lemma SimRowsAppend(video: string, a: seq<nat>, b: seq<nat>, texts: seq<Text>, sim: Similarity)
    ensures SimRows(video, a + b, texts, sim) == SimRows(video, a, texts, sim) + SimRows(video, b, texts, sim)
  {
    var l, r := SimRows(video, a + b, texts, sim), SimRows(video, a, texts, sim) + SimRows(video, b, texts, sim);
    forall i | 0 <= i < |l| ensures l[i] == r[i] {
      if i < |a| {
        assert (a + b)[i] == a[i];
      } else {
        assert (a + b)[i] == b[i - |a|];
      }
    }
  }

  /** `sims[:, j]` */
  function Column(m: seq<seq<real>>, j: nat): (c: seq<real>)
    requires forall i :: 0 <= i < |m| ==> j < |m[i]|
    ensures |c| == |m| && forall i :: 0 <= i < |m| ==> c[i] == m[i][j]
  {
    seq(|m|, i requires 0 <= i < |m| => m[i][j])
  }

  /** The rows of the top four frames, in time order. */
  function TopRows(sims: seq<seq<real>>): (rows: seq<nat>)
    requires |sims| >= 4 && forall i :: 0 <= i < |sims| ==> |sims[i]| >= 1
    ensures |rows| == 4 && forall t :: 0 <= t < 4 ==> rows[t] < |sims|
  {
    var keys := Column(sims, 0);
    var top := TopK(keys, 4).value;
    SortAscendingSpec(top);
    var rows := SortAscending(top);
    assert |rows| == 4 by { assert |multiset(rows)| == |multiset(top)|; }
    assert forall t :: 0 <= t < 4 ==> rows[t] < |sims| by {
      forall t | 0 <= t < 4 ensures rows[t] < |sims| {
        assert rows[t] in multiset(top);
      }
    }
    rows
  }

  /**
    The four chosen frames are distinct and in time order, and none left
    out is more similar to the object than any chosen one.
   */
  lemma TopRowsSpec(sims: seq<seq<real>>)
    requires |sims| >= 4 && forall i :: 0 <= i < |sims| ==> |sims[i]| >= 1
    ensures forall a, b :: 0 <= a < b < 4 ==> TopRows(sims)[a] < TopRows(sims)[b]
    ensures forall t, j :: 0 <= t < 4 && 0 <= j < |sims| && j !in TopRows(sims) ==>
      sims[TopRows(sims)[t]][0] >= sims[j][0]
  {
    var keys := Column(sims, 0);
    TopKSpec(keys, 4);
    var top := TopK(keys, 4).value;
    SortKeepsTop(keys, top);
    assert TopRows(sims) == SortAscending(top);
  }

  /** `sims[top_indices_sorted, 1:]`: the candidates' scores on the four chosen frames. */
  function RelationScores(sims: seq<seq<real>>): (rel: seq<seq<real>>)
    requires |sims| >= 4 && forall i :: 0 <= i < |sims| ==> |sims[i]| >= 1
    ensures |rel| == 4
    ensures forall t :: 0 <= t < 4 ==> rel[t] == sims[TopRows(sims)[t]][1..]
  {
    var rows := TopRows(sims);
    seq(4, t requires 0 <= t < 4 => sims[rows[t]][1..])
  }

  // ---------------------------------------------------------------------
  // One sample
  // ---------------------------------------------------------------------

  /** The object named by the question and the candidates named by the first option. */
  function Names(m: Meta): (string, seq<string>)
    requires m.options != []
  {
    (ExtractObject(m.question), CandidateObjects(m.options[0]))
  }

  /**
    The candidates' similarities on the sample's four chosen frames: row `t`
    for the `t`-th chosen frame in time order, column `k` for candidate `k`.
   */
  function Relations(s: Sample, sim: Similarity): seq<seq<real>>
    requires s.meta.options != [] && |s.frames| >= 4
  {
    var (obj, objects) := Names(s.meta);
    RelationScores(SimRows(s.meta.videoPath, s.frames, Texts(obj, objects), sim))
  }

  /**
    The option the script picks for one sample, or the exception that
    stops it, raised at the first step that fails.
   */
  function Predict(s: Sample, bs: int, sim: Similarity): Result<nat, Error> {
    var m := s.meta;
    if m.options == [] then Err(NoOptions)
    else if bs == 0 then Err(BadBatchSize)
    else if bs < 0 || s.frames == [] then Err(NoFrameFeatures)
    else if |s.frames| < 4 then Err(TooFewFrames)
    else
      match AllPositions(m.options, Names(m).1)
      case None => Err(UnknownObject)
      case Some(ps) =>
        match AllScores(Relations(s, sim), ps)
        case None => Err(BadPositionCount)
        case Some(scores) =>
          assert |scores| == |ps| == |m.options|;
          Ok(ArgMax(scores).value)
  }

  /**
    Lines 211-216 and the product after them: the frames are scored batch
    by batch and the rows joined; `None` when `bs` is 0, and no row at all
    when `bs` is negative.
   */
  method FrameFeatures(video: string, frames: seq<nat>, bs: int, texts: seq<Text>, sim: Similarity)
    returns (r: Option<seq<seq<real>>>)
    ensures r.None? <==> bs == 0
    ensures bs < 0 ==> r == Some([])
    ensures bs > 0 ==> r == Some(SimRows(video, frames, texts, sim))
  {
    var chunks := Chunks(frames, bs);
    if chunks.None? {
      return None;
    }
    var batches := chunks.value;
    if bs > 0 {
      BatchesSpec(frames, bs);
    }
    var features: seq<seq<real>> := [];
    var k := 0;
    while k < |batches|
      invariant 0 <= k <= |batches|
      invariant features == SimRows(video, Concat(batches[..k]), texts, sim)
    {
      assert batches[..k + 1][..k] == batches[..k];
      SimRowsAppend(video, Concat(batches[..k]), batches[k], texts, sim);
      features := features + SimRows(video, batches[k], texts, sim);
      k := k + 1;
    }
    assert batches[..k] == batches;
    r := Some(features);
  }

  /** Lines 180-242 for one sample. */
  method Evaluate(s: Sample, bs: int, sim: Similarity) returns (r: Result<nat, Error>)
    ensures r == Predict(s, bs, sim)
  {
    var m := s.meta;
    if m.options == [] {
      return Err(NoOptions);
    }
    var obj := ExtractObject(m.question);
    var objects := CandidateObjects(m.options[0]);
    assert (obj, objects) == Names(m);
    var prompts := BuildTextRows(obj, objects);
    var texts := Texts(obj, objects);
    var feats := FrameFeatures(m.videoPath, s.frames, bs, texts, sim);
    if feats.None? {
      return Err(BadBatchSize);
    }
    var features := feats.value;
    if features == [] {
      return Err(NoFrameFeatures);
    }
    if |features| < 4 {
      return Err(TooFewFrames);
    }
    var rel := RelationScores(features);
    var positions := OptionPositions(m.options, objects);
    if positions.None? {
      return Err(UnknownObject);
    }
    var scores := OptionScores(rel, positions.value);
    if scores.None? {
      return Err(BadPositionCount);
    }
    r := Ok(ArgMax(scores.value).value);
  }

  /**
    A sample as the benchmark writes it: up to four options, the first
    listing the candidates in order and option `i` listing them reordered
    by `perms[i]` (four positions, or one), behind its letter.
   */
  predicate Rendered(opts: seq<string>, objects: seq<string>, perms: seq<seq<nat>>) {
    1 <= |opts| <= 4 && |perms| == |opts| &&
    |objects| >= 1 && Distinct(objects) &&
    (forall k :: 0 <= k < |objects| ==> Item(objects[k])) &&
    opts[0] == RenderOption('A', objects) &&
    forall i :: 0 <= i < |opts| ==>
      (|perms[i]| == 4 || |perms[i]| == 1) &&
      (forall t :: 0 <= t < |perms[i]| ==> perms[i][t] < |objects|) &&
      opts[i] == RenderOption(AnswerLetters[i], Permute(objects, perms[i]))
  }

  /** Parsing the options of a written sample recovers the candidates and every option's order. */
  lemma ParseRendered(opts: seq<string>, objects: seq<string>, perms: seq<seq<nat>>)
    requires Rendered(opts, objects, perms)
    ensures CandidateObjects(opts[0]) == objects
    ensures AllPositions(opts, objects) == Some(perms)
  {
    OptionObjectsOfRendered('A', objects);
    var results := seq(|opts|, i requires 0 <= i < |opts| => Positions(OptionObjects(opts[i]), objects));
    forall i | 0 <= i < |opts| ensures results[i] == Some(perms[i]) {
      var items := Permute(objects, perms[i]);
      assert forall k :: 0 <= k < |items| ==> Item(items[k]) by {
        forall k | 0 <= k < |items| ensures Item(items[k]) {
          assert items[k] == objects[perms[i][k]];
        }
      }
      assert AnswerLetters[i] in "ABCD";
      OptionObjectsOfRendered(AnswerLetters[i], items);
      PositionsOfPermute(objects, perms[i]);
    }
    CollectSome(results, perms);
  }

  /**
    The relation matrix has a row for each of the four chosen frames and a
    column per candidate; its entry `(t, k)` is the similarity of the
    `t`-th chosen frame to the object paired with candidate `k`.
   */
  lemma RelationsSpec(s: Sample, sim: Similarity)
    requires s.meta.options != [] && |s.frames| >= 4
    ensures |Relations(s, sim)| == 4
    ensures forall t :: 0 <= t < 4 ==> |Relations(s, sim)[t]| == |Names(s.meta).1|
    ensures forall t, k :: 0 <= t < 4 && 0 <= k < |Names(s.meta).1| ==>
      Relations(s, sim)[t][k] ==
        sim(s.meta.videoPath,
            s.frames[TopRows(SimRows(s.meta.videoPath, s.frames, Texts(Names(s.meta).0, Names(s.meta).1), sim))[t]],
            RelationText(Strip(Names(s.meta).0), Strip(Names(s.meta).1[k])))
  {
    var (obj, objects) := Names(s.meta);
    RelationEntries(s.meta.videoPath, s.frames, obj, objects, sim);
  }

  /** `RelationsSpec` for any object and candidates. */
  lemma RelationEntries(video: string, frames: seq<nat>, obj: string, objects: seq<string>, sim: Similarity)
    requires |frames| >= 4
    ensures |RelationScores(SimRows(video, frames, Texts(obj, objects), sim))| == 4
    ensures forall t :: 0 <= t < 4 ==>
      |RelationScores(SimRows(video, frames, Texts(obj, objects), sim))[t]| == |objects|
    ensures forall t, k :: 0 <= t < 4 && 0 <= k < |objects| ==>
      RelationScores(SimRows(video, frames, Texts(obj, objects), sim))[t][k] ==
        sim(video, frames[TopRows(SimRows(video, frames, Texts(obj, objects), sim))[t]],
            RelationText(Strip(obj), Strip(objects[k])))
  {
    forall t, k | 0 <= t < 4 && 0 <= k < |objects| {
      RelationEntry(video, frames, obj, objects, sim, t, k);
    }
  }

  /** One entry of the relation matrix. */
  lemma RelationEntry(video: string, frames: seq<nat>, obj: string, objects: seq<string>, sim: Similarity, t: nat, k: nat)
    requires |frames| >= 4 && t < 4 && k < |objects|
    ensures RelationScores(SimRows(video, frames, Texts(obj, objects), sim))[t][k] ==
      sim(video, frames[TopRows(SimRows(video, frames, Texts(obj, objects), sim))[t]],
          RelationText(Strip(obj), Strip(objects[k])))
  {
    var texts := Texts(obj, objects);
    var sims := SimRows(video, frames, texts, sim);
    var i := TopRows(sims)[t];
    var text := texts[k + 1];
    assert text == RelationText(Strip(obj), Strip(objects[k]));
    SimRowsAt(video, frames, texts, sim, i, k + 1);
    assert RelationScores(sims)[t][k] == sims[i][k + 1] == sim(video, frames[i], text);
  }

  /**
    For a written sample with at least four frames and a positive batch
    size nothing fails: every option is scored over the four chosen frames
    by the order it was written in, and the prediction is the first option
    with the largest score.
   */
  lemma PredictRendered(s: Sample, bs: int, sim: Similarity, objects: seq<string>, perms: seq<seq<nat>>)
    requires Rendered(s.meta.options, objects, perms) && bs > 0 && |s.frames| >= 4
    ensures AllScores(Relations(s, sim), perms).Some?
    ensures Predict(s, bs, sim) == Ok(ArgMax(AllScores(Relations(s, sim), perms).value).value)
  {
    var m := s.meta;
    assert Names(m).1 == objects && AllPositions(m.options, objects) == Some(perms) by {
      ParseRendered(m.options, objects, perms);
    }
    assert AllScores(Relations(s, sim), perms).Some? by {
      RelationsSpec(s, sim);
      AllScoresSome(Relations(s, sim), perms, |objects|);
    }
    PredictScored(s, bs, sim, perms);
  }

  /** Once the positions and the scores exist, the prediction is the first best score. */
  lemma PredictScored(s: Sample, bs: int, sim: Similarity, ps: seq<seq<nat>>)
    requires bs > 0 && |s.frames| >= 4 && s.meta.options != []
    requires AllPositions(s.meta.options, Names(s.meta).1) == Some(ps)
    requires AllScores(Relations(s, sim), ps).Some?
    ensures Predict(s, bs, sim) == Ok(ArgMax(AllScores(Relations(s, sim), ps).value).value)
  {
  }

  // ---------------------------------------------------------------------
  // Counting (lines 161-162, 245-247, 251)
  // ---------------------------------------------------------------------

  /** The `correct` and `total` counters of the main loop. */
  class Accuracy {
    var correct: nat
    var total: nat

    ghost predicate Valid()
      reads this
    {
      correct <= total
    }

    constructor ()
      ensures Valid() && correct == 0 && total == 0
    {
      correct := 0;
      total := 0;
    }

    /**
      `total += 1`, then `ANSWER_MAPPING[answer]`: an unknown answer is
      reported after the sample has been counted; a known one counts as
      correct exactly when the prediction is its index.
     */
    method Record(prediction: nat, answer: string) returns (known: bool)
      requires Valid()
      modifies this
      ensures Valid()
      ensures known <==> answer in AnswerMapping
      ensures total == old(total) + 1
      ensures known ==> correct == old(correct) + Hit(AnswerMapping[answer], prediction)
      ensures !known ==> correct == old(correct)
    {
      total := total + 1;
      known := answer in AnswerMapping;
      if known && AnswerMapping[answer] == prediction {
        correct := correct + 1;
      }
    }

    /** `100. * correct / total`; `None` for the division by zero. */
    function Percent(): (p: Option<real>)
      requires Valid()
      reads this
      ensures p.None? <==> total == 0
      ensures p.Some? ==> 0.0 <= p.value <= 100.0
    {
      if total == 0 then None else Some(Percentage(correct, total))
    }
  }

  /** The accuracy in percent: between 0 and 100, and 100 exactly when every answer was right. */
  function Percentage(correct: nat, total: nat): (p: real)
    requires 0 < total && correct <= total
    ensures 0.0 <= p <= 100.0
    ensures p == 100.0 <==> correct == total
  {
    var t := total as real;
    var q := correct as real / t;
    assert q * t == correct as real;
    assert (1.0 - q) * t == t - correct as real;
    100.0 * q
  }

  // ---------------------------------------------------------------------
  // The whole run
  // ---------------------------------------------------------------------

  /** One row of the dataset with what reading its video gives. */
  datatype Trial = Trial(row: Row, video: Option<nat>, step: nat)

  /** What one sample yields: the predicted option and the answer, or the exception. */
  function Outcome(t: Trial, bs: int, sim: Similarity): Result<(nat, string), Error> {
    match Load(t.row, t.video, t.step)
    case None => Err(NoSample)
    case Some(s) =>
      match Predict(s, bs, sim)
      case Err(e) => Err(e)
      case Ok(p) => Ok((p, s.meta.answer))
  }

  /**
    The counters after one more sample, or the exception it raises; an
    exception raised earlier is kept. The sample is counted before its
    answer is looked up.
   */
  function Step(counts: Result<(nat, nat), Error>, outcome: Result<(nat, string), Error>): Result<(nat, nat), Error> {
    if counts.Err? then counts
    else if outcome.Err? then Err(outcome.error)
    else
      var (p, answer) := outcome.value;
      if answer !in AnswerMapping then Err(UnknownAnswer)
      else Ok((counts.value.0 + Hit(AnswerMapping[answer], p), counts.value.1 + 1))
  }

  /** One more correct answer when the prediction is the answer's index. */
  function Hit(expected: nat, prediction: nat): nat {
    if expected == prediction then 1 else 0
  }

  lemma StepCounts(c: nat, n: nat, p: nat, answer: string)
    ensures answer !in AnswerMapping ==> Step(Ok((c, n)), Ok((p, answer))) == Err(UnknownAnswer)
    ensures answer in AnswerMapping ==>
      Step(Ok((c, n)), Ok((p, answer))) == Ok((c + Hit(AnswerMapping[answer], p), n + 1))
  {
  }

  type Outcomes = seq<Result<(nat, string), Error>>

  /** The outcome of every sample, in dataset order. */
  function OutcomesOf(trials: seq<Trial>, bs: int, sim: Similarity): (outs: Outcomes)
    ensures |outs| == |trials|
  {
    if trials == [] then []
    else OutcomesOf(trials[..|trials| - 1], bs, sim) + [Outcome(trials[|trials| - 1], bs, sim)]
  }

  /** Sample `i` yields its own outcome. */
  lemma {:induction false} OutcomeAt(trials: seq<Trial>, bs: int, sim: Similarity, i: nat)
    requires i < |trials|
    ensures OutcomesOf(trials, bs, sim)[i] == Outcome(trials[i], bs, sim)
  {
    if i < |trials| - 1 {
      var init := trials[..|trials| - 1];
      OutcomeAt(init, bs, sim, i);
      assert init[i] == trials[i];
    }
  }

  /** The outcomes of the first `n` samples are the first `n` outcomes. */
  lemma {:induction false} OutcomesPrefix(trials: seq<Trial>, bs: int, sim: Similarity, n: nat)
    requires n <= |trials|
    ensures OutcomesOf(trials, bs, sim)[..n] == OutcomesOf(trials[..n], bs, sim)
    decreases |trials| - n
  {
    if n < |trials| {
      OutcomesPrefix(trials, bs, sim, n + 1);
      var m := trials[..n + 1];
      assert m[..n] == trials[..n];
      assert OutcomesOf(trials, bs, sim)[..n] == OutcomesOf(trials, bs, sim)[..n + 1][..n];
    } else {
      assert trials[..n] == trials;
    }
  }

  /** The counters after the given outcomes, in order, or the first exception. */
  function Tally(outs: Outcomes): Result<(nat, nat), Error> {
    if outs == [] then Ok((0, 0))
    else Step(Tally(outs[..|outs| - 1]), outs[|outs| - 1])
  }

  /** One more outcome is one more step. */
  lemma TallyAppend(outs: Outcomes, out: Result<(nat, string), Error>)
    ensures Tally(outs + [out]) == Step(Tally(outs), out)
  {
    assert (outs + [out])[..|outs|] == outs;
  }

  /** Every sample is counted once, and at most all of them are correct. */
  lemma {:induction false} TallyCounts(outs: Outcomes)
    ensures Tally(outs).Ok? ==> Tally(outs).value.1 == |outs| && Tally(outs).value.0 <= |outs|
  {
    if outs != [] {
      TallyCounts(outs[..|outs| - 1]);
    }
  }

  /** The run succeeds exactly when every sample yields a prediction with a known answer. */
  lemma {:induction false} TallyOk(outs: Outcomes)
    ensures Tally(outs).Ok? <==>
      forall i :: 0 <= i < |outs| ==> outs[i].Ok? && outs[i].value.1 in AnswerMapping
  {
    if outs != [] {
      var init := outs[..|outs| - 1];
      TallyOk(init);
      assert forall i :: 0 <= i < |init| ==> init[i] == outs[i];
    }
  }

  /** What the script prints at the end. */
  datatype Report = Report(correct: nat, total: nat, percent: real)

  /** The report after all samples, or the first exception; no sample at all divides by zero. */
  function Summary(outs: Outcomes): Result<Report, Error> {
    TallyCounts(outs);
    match Tally(outs)
    case Err(e) => Err(e)
    case Ok((c, t)) =>
      if t == 0 then Err(EmptyRun)
      else Ok(Report(c, t, Percentage(c, t)))
  }

  /**
    The main loop over the dataset, then the accuracy: the first exception
    ends the run.
   */
  method Run(trials: seq<Trial>, bs: int, sim: Similarity) returns (r: Result<Report, Error>)
    ensures r == Summary(OutcomesOf(trials, bs, sim))
    ensures r.Ok? ==> r.value.total == |trials| && r.value.correct <= r.value.total
    ensures r.Ok? ==> 0.0 <= r.value.percent <= 100.0
    ensures trials == [] ==> r == Err(EmptyRun)
  {
    var acc := new Accuracy();
    var err := CountAll(acc, trials, bs, sim);
    if err.Some? {
      return Err(err.value);
    }
    TallyCounts(OutcomesOf(trials, bs, sim));
    var p := acc.Percent();
    if p.None? {
      return Err(EmptyRun);
    }
    r := Ok(Report(acc.correct, acc.total, p.value));
  }

  /**
    The main loop (lines 167-247) from fresh counters: the counters end as
    `Tally` says, or the loop stops with the first exception.
   */
  method CountAll(acc: Accuracy, trials: seq<Trial>, bs: int, sim: Similarity) returns (err: Option<Error>)
    requires acc.Valid() && acc.correct == 0 && acc.total == 0
    modifies acc
    ensures acc.Valid()
    ensures err.None? ==> Tally(OutcomesOf(trials, bs, sim)) == Ok((acc.correct, acc.total))
    ensures err.Some? ==> Tally(OutcomesOf(trials, bs, sim)) == Err(err.value)
  {
    var i := 0;
    while i < |trials|
      invariant 0 <= i <= |trials|
      invariant acc.Valid()
      invariant Tally(OutcomesOf(trials[..i], bs, sim)) == Ok((acc.correct, acc.total))
    {
      err := Advance(acc, trials, i, bs, sim);
      if err.Some? {
        OutcomesPrefix(trials, bs, sim, i + 1);
        TallyStops(OutcomesOf(trials, bs, sim), i + 1);
        return;
      }
      i := i + 1;
    }
    assert trials[..i] == trials;
    err := None;
  }

  /** One pass of the main loop's body: sample `i` is predicted and counted. */
  method Advance(acc: Accuracy, trials: seq<Trial>, i: nat, bs: int, sim: Similarity) returns (err: Option<Error>)
    requires i < |trials| && acc.Valid()
    requires Tally(OutcomesOf(trials[..i], bs, sim)) == Ok((acc.correct, acc.total))
    modifies acc
    ensures acc.Valid()
    ensures err.None? ==> Tally(OutcomesOf(trials[..i + 1], bs, sim)) == Ok((acc.correct, acc.total))
    ensures err.Some? ==> Tally(OutcomesOf(trials[..i + 1], bs, sim)) == Err(err.value)
  {
    var out := Predicted(trials[i], bs, sim);
    ghost var done := OutcomesOf(trials[..i], bs, sim);
    assert OutcomesOf(trials[..i + 1], bs, sim) == done + [out] by {
      assert trials[..i + 1][..i] == trials[..i];
    }
    TallyAppend(done, out);
    err := Count(acc, out);
  }

  /** Load one sample and predict its answer (lines 98-126 and 180-242). */
  method Predicted(t: Trial, bs: int, sim: Similarity) returns (out: Result<(nat, string), Error>)
    ensures out == Outcome(t, bs, sim)
  {
    var sample := GetItem(t.row, t.video, t.step);
    if sample.None? {
      return Err(NoSample);
    }
    var prediction := Evaluate(sample.value, bs, sim);
    if prediction.Err? {
      return Err(prediction.error);
    }
    out := Ok((prediction.value, sample.value.meta.answer));
  }

  /**
    The counting at the end of the main loop's body (lines 245-247): the
    counters move as `Step` says, or the exception is returned.
   */
  method Count(acc: Accuracy, out: Result<(nat, string), Error>) returns (err: Option<Error>)
    requires acc.Valid()
    modifies acc
    ensures acc.Valid()
    ensures err.None? ==> Step(Ok((old(acc.correct), old(acc.total))), out) == Ok((acc.correct, acc.total))
    ensures err.Some? ==> Step(Ok((old(acc.correct), old(acc.total))), out) == Err(err.value)
  {
    if out.Err? {
      return Some(out.error);
    }
    var (p, answer) := out.value;
    StepCounts(acc.correct, acc.total, p, answer);
    var known := acc.Record(p, answer);
    if !known {
      return Some(UnknownAnswer);
    }
    err := None;
  }

  /** Once an exception is raised, the run ends with it. */
  lemma {:induction false} TallyStops(outs: Outcomes, n: nat)
    requires n <= |outs| && Tally(outs[..n]).Err?
    ensures Tally(outs) == Tally(outs[..n])
    decreases |outs| - n
  {
    if n < |outs| {
      assert outs[..n + 1][..n] == outs[..n];
      TallyStops(outs, n + 1);
    } else {
      assert outs[..n] == outs;
    }
  }
}
