# Answer selection of the VSI-Super-Recall benchmark, in Dafny

This project models the answering pipeline of the script
`nosense/run_vsi_super_recall.py`. The script runs a CLIP-style
model on a video with a multiple-choice question: "in which order did
these objects appear next to the object of interest?". The model covers
these steps:

- **Sampling frames.** `VideoFrameDataset.__getitem__` keeps every
  `step`-th frame of the video. When the video cannot be read it returns
  `None` (`Dataset.GetItem`, proved against `Dataset.Load`).
- **Reading the question.** The object of interest is the question with a
  fixed prefix, a fixed suffix and every `"the "` removed, then stripped
  (`Prompts.ExtractObject`).
- **Building the prompts.** There are 16 object templates and 20
  relation templates, filled in with Python's `str.format` semantics for
  `{}` fields (`PyStr.Format`, `Prompts.BuildTextRows`).
- **Reading the options.** The candidate objects come from the first
  option. Each option is turned into the positions of its objects among
  the candidates (`Options.OptionPositions`). Python's `replace`, `split`,
  `strip` and `", ".join` are modelled in `PyStr`.
- **Batching the frames.** Frames go into batches of `gpu_bs`
  (`Benchmark.Chunks`, proved against `Benchmark.Batches`). The batch
  results are concatenated back together (`Benchmark.FrameFeatures`).
- **Choosing frames.** The model takes the four frames most similar to
  the object (`Selection.TopK`) and puts them back in time order
  (`Selection.SortAscending`).
- **Scoring and answering.** Each option gets a score: over the four
  chosen frames, it adds the similarity of the object paired with the
  candidate that the option places at that point. Options keep one
  position per frame, or one position broadcast to all four
  (`Selection.OptionScores`). The prediction is the first option with the
  largest score, as `np.argmax` gives it (`Selection.ArgMax`).
- **Counting.** The `correct`/`total` counters and the final percentage
  live in a class (`Benchmark.Accuracy`). The main loop is
  `Benchmark.CountAll`, and `Benchmark.Run` adds the final percentage.
  The loop stops at the first exception, and `Benchmark.Tally` specifies
  it.
- **Constants.** `ANSWER_MAPPING`, `CLIP_MODELS` and its inversion
  `PATHS_TO_NAME_MAPPING`, and `FPS_TARGET` are modelled in `Constants`.

Every exception that stops the script is a value of `Benchmark.Error`,
raised at the step where the script would raise it:

- an unreadable video, which trips `assert isinstance(sample, dict)`;
- no options;
- a zero batch size, or one that gives no batch;
- fewer than four frames;
- an object that is not a candidate;
- an option whose positions cannot be gathered;
- an answer that is not a letter;
- an empty dataset, which makes the final division fail.

Similarity values are an input. `sim(video, frame, text)` stands for the
cosine similarity between one frame's image embedding and the
renormalised mean embedding of the prompt list `Prompts.Render(text)`.

## Model

| member | source | states |
|---|---|---|
| Dataset.GetItem | nosense/run_vsi_super_recall.py:98-126 | `None` exactly when the video cannot be read or the step is 0. Otherwise the frames are `range(0, len(vr), step)` and `num_frames` is their count; the loop is proved equal to `Load` |
| Dataset.SampledFrames | nosense/run_vsi_super_recall.py:108-112 | the sampled frames are the `ceil(len / step)` multiples of `step` below the video length: strictly increasing, and every such multiple appears |
| Dataset.RangeShape | nosense/run_vsi_super_recall.py:109 | `range(start, stop, step)` has `ceil((stop - start) / step)` elements; element `k` is `start + k * step`, below `stop` |
| Constants.AnswerMappingSpec | nosense/run_vsi_super_recall.py:37-42 | the keys are exactly the four letters A-D, and letter `i` maps to option index `i` |
| Constants.ToMapLookup | nosense/run_vsi_super_recall.py:22-31 | with distinct keys, a dict literal maps each key to the value written with it |
| Constants.InvertIsInverse | nosense/run_vsi_super_recall.py:32 | inverting a dict with distinct keys and values: the keys of the inverse are the values, and looking up a value gives its key back |
| Constants.PathsToNameIsInverse | nosense/run_vsi_super_recall.py:22-32 | `PATHS_TO_NAME_MAPPING` is keyed by the hub paths of `CLIP_MODELS`; name to path to name, and path to name to path, both round-trip |
| Constants.PromptTemplatesShape | nosense/run_vsi_super_recall.py:45-62 | there are 16 object templates, each with one `{}` field and no other brace |
| Constants.RelationTemplatesShape | nosense/run_vsi_super_recall.py:65-86 | there are 20 relation templates, each with two `{}` fields and no other brace |
| PyStr.Strip | nosense/run_vsi_super_recall.py:184 | the result of `str.strip()` neither starts nor ends with whitespace |
| PyStr.StripBetween | nosense/run_vsi_super_recall.py:184 | the stripped string sits inside the original, with only whitespace around it |
| PyStr.StripPadded | nosense/run_vsi_super_recall.py:194 | stripping whitespace-padded text gives back exactly the text |
| PyStr.StripIdempotent | nosense/run_vsi_super_recall.py:187 | stripping twice is stripping once, so the second `obj.strip()` changes nothing |
| PyStr.ReplaceAbsent | nosense/run_vsi_super_recall.py:182-184 | replacing a needle that does not occur leaves the string unchanged |
| PyStr.ReplaceTrailing | nosense/run_vsi_super_recall.py:183 | a needle at the end of the string is replaced, and nothing before it is, provided the needle's last character occurs neither earlier in the needle nor in the text before it |
| PyStr.Split | nosense/run_vsi_super_recall.py:194 | `split` gives at least one piece, and no piece contains the separator |
| PyStr.JoinSplit | nosense/run_vsi_super_recall.py:194 | joining the pieces of a split with the separator gives the string back |
| PyStr.SplitJoin | nosense/run_vsi_super_recall.py:232 | splitting a join of separator-free pieces gives the pieces back |
| PyStr.FormatOne | nosense/run_vsi_super_recall.py:187 | `format` on a one-field template puts the first argument in the field and ignores the rest |
| PyStr.FormatTwo | nosense/run_vsi_super_recall.py:199 | `format` on a two-field template puts the two arguments in order |
| Prompts.ExtractObject | nosense/run_vsi_super_recall.py:182-184 | the extracted object is stripped |
| Prompts.ExtractObjectOfQuestion | nosense/run_vsi_super_recall.py:182-184 | from a question built around a stripped object, the extraction returns that object, provided the object has no newline, no `?` and no `"the "` of its own |
| Prompts.ObjectPromptsSpec | nosense/run_vsi_super_recall.py:187 | the 16 object prompts never fail; each is its template with the stripped object in the field |
| Prompts.RelationPromptsSpec | nosense/run_vsi_super_recall.py:199 | the 20 relation prompts never fail; each has the stripped object first and the stripped candidate second |
| Prompts.BuildTextRows | nosense/run_vsi_super_recall.py:187-207 | the text matrix has one row more than there are candidates: row 0 is the 16 object prompts, and row `k + 1` the 20 relation prompts of candidate `k`; every row is the prompt list `Render` gives for the matching entry of `Texts`, the prompt lists the similarity is taken against |
| Prompts.BuildRelationRows | nosense/run_vsi_super_recall.py:197-204 | one list per candidate, in candidate order: list `k` is the 20 relation templates filled with the stripped object and the stripped candidate `k` |
| Options.IndexOf | nosense/run_vsi_super_recall.py:233 | `list.index`: `None` exactly when the value is absent; otherwise the first position holding it |
| Options.Positions | nosense/run_vsi_super_recall.py:233 | the positions exist exactly when every object is a candidate; each is that object's first position |
| Options.OptionPositions | nosense/run_vsi_super_recall.py:230-234 | the loop gives every option's positions in order, or `None` as soon as one option names an unknown object |
| Wrappers.Collect | nosense/run_vsi_super_recall.py:230-242 | appending per-item results in a loop that stops at the first failure: `None` exactly when some item fails, otherwise every value in order |
| Options.RemoveLetters | nosense/run_vsi_super_recall.py:232 | removing the labels of some letters in turn from a written option removes its own label exactly when its letter is among them, and never touches its items |
| Options.RemoveLabelsOfRendered | nosense/run_vsi_super_recall.py:232 | removing the four labels from a written option leaves exactly its comma-joined list |
| Options.OptionObjectsOfRendered | nosense/run_vsi_super_recall.py:232 | for items that are stripped and hold no `,` and no `.`, parsing a written option gives back its objects in order; for option A, reading the candidates as line 194 does gives them back too |
| Options.PositionsOfPermute | nosense/run_vsi_super_recall.py:233 | with distinct candidates, the positions of a reordered list are the reordering itself |
| Selection.SortAscendingSpec | nosense/run_vsi_super_recall.py:226 | `torch.sort` gives a permutation of its input, in ascending order |
| Selection.AscendingUnique | nosense/run_vsi_super_recall.py:223-226 | an ascending sequence is fixed by its elements, so the order `topk` returns them in does not matter |
| Selection.AscendingDistinct | nosense/run_vsi_super_recall.py:226 | sorting distinct frame indices gives strictly increasing ones |
| Selection.TopK | nosense/run_vsi_super_recall.py:223 | `topk` fails exactly when k exceeds the number of values; otherwise it gives k valid indices |
| Selection.TopKSpec | nosense/run_vsi_super_recall.py:223 | the top k are distinct, largest first, and no index left out has a larger value than one chosen |
| Selection.GatherBroadcast | nosense/run_vsi_super_recall.py:239-241 | one position gathers exactly as four copies of it do, any count other than one or four is an indexing error, and only the rows of the four chosen frames are read |
| Selection.OptionScoreSpec | nosense/run_vsi_super_recall.py:239-242 | an option's score is the sum over the four frames of the score at its position; one position scores like that position repeated four times |
| Selection.OptionScores | nosense/run_vsi_super_recall.py:237-242 | the loop gives every option's score, or `None` as soon as one option cannot be gathered |
| Selection.SortKeepsTop | nosense/run_vsi_super_recall.py:223-226 | sorting the top indices keeps the top property: the sorted indices are strictly increasing, and no index left out has a larger value |
| Selection.AllScoresSome | nosense/run_vsi_super_recall.py:237-242 | with four rows of `n` scores, options of four positions or one, all below `n`, all have a score |
| Selection.ArgMax | nosense/run_vsi_super_recall.py:246 | `np.argmax` fails only for an empty list; otherwise the index holds the largest value and every earlier value is smaller |
| Benchmark.Chunks | nosense/run_vsi_super_recall.py:211-212 | `None` exactly for `gpu_bs == 0`, no batch for a negative size, and otherwise the batches of `Batches` |
| Benchmark.BatchesSpec | nosense/run_vsi_super_recall.py:211-216 | the batches, laid end to end, are the frames; there are `ceil(n / gpu_bs)` of them, and batch `k` is `frames[k*gpu_bs : k*gpu_bs + gpu_bs]` |
| Benchmark.BatchSizes | nosense/run_vsi_super_recall.py:212 | every batch holds 1 to `gpu_bs` frames, and only the last can be short |
| Benchmark.SimRowsAppend | nosense/run_vsi_super_recall.py:213-216 | scoring the batches one by one and concatenating equals scoring all frames at once |
| Benchmark.FrameFeatures | nosense/run_vsi_super_recall.py:211-219 | scoring the frames batch by batch gives `None` exactly for `gpu_bs == 0`, no row for a negative size, and otherwise the similarity rows of all frames in order |
| Benchmark.TopRows | nosense/run_vsi_super_recall.py:220-226 | the chosen rows are four valid frame rows |
| Benchmark.TopRowsSpec | nosense/run_vsi_super_recall.py:220-226 | the four chosen frames are strictly in time order, and none left out is more similar to the object than a chosen one |
| Benchmark.RelationsSpec | nosense/run_vsi_super_recall.py:219-227 | the relation matrix is 4 by (number of candidates); entry `(t, k)` is the similarity of the `t`-th chosen frame to the object paired with candidate `k` |
| Benchmark.Evaluate | nosense/run_vsi_super_recall.py:175-242 | for one sample, the methods (prompts, batching, positions, scores) give exactly the prediction or error of `Predict` |
| Benchmark.ParseRendered | nosense/run_vsi_super_recall.py:194-234 | for options written from distinct candidates, parsing recovers the candidates and each option's order |
| Benchmark.PredictRendered | nosense/run_vsi_super_recall.py:175-246 | with written options, at least four frames and a positive batch size, nothing fails; the prediction is the first best option, each scored in its written order |
| Benchmark.Accuracy.constructor | nosense/run_vsi_super_recall.py:161-162 | both counters start at 0 |
| Benchmark.Accuracy.Record | nosense/run_vsi_super_recall.py:245-247 | `total` goes up by one before the answer lookup; a known answer adds one to `correct` exactly when the prediction is its index; an unknown one is reported |
| Benchmark.Accuracy.Percent | nosense/run_vsi_super_recall.py:251 | the accuracy is undefined exactly when nothing was counted; otherwise it lies between 0 and 100 |
| Benchmark.Percentage | nosense/run_vsi_super_recall.py:251 | `100. * correct / total` lies in [0, 100] and is 100 exactly when every answer was right |
| Benchmark.Count | nosense/run_vsi_super_recall.py:245-247 | the counting at the end of the loop body moves the counters as `Step` says, or returns the error |
| Benchmark.Predicted | nosense/run_vsi_super_recall.py:167-242 | loading and evaluating one row yield exactly its `Outcome` |
| Benchmark.OutcomeAt | nosense/run_vsi_super_recall.py:167-242 | the `i`-th outcome of the run is the outcome of the `i`-th sample |
| Benchmark.OutcomesPrefix | nosense/run_vsi_super_recall.py:167 | the outcomes of the first `n` samples are the first `n` outcomes of the run |
| Benchmark.Advance | nosense/run_vsi_super_recall.py:167-247 | one pass of the loop body loads, predicts and counts the next sample: the counters then equal the tally of one more outcome, or the error is that tally's exception |
| Benchmark.CountAll | nosense/run_vsi_super_recall.py:161-247 | from counters at 0, the main loop ends with the counters of `Tally` over all outcomes, or with the first exception |
| Benchmark.TallyCounts | nosense/run_vsi_super_recall.py:245-247 | a finished run counted every sample once, and at most all of them are correct |
| Benchmark.TallyOk | nosense/run_vsi_super_recall.py:167-247 | the run completes exactly when every sample yields a prediction and has a known answer letter |
| Benchmark.TallyStops | nosense/run_vsi_super_recall.py:167-247 | the first exception ends the run; later samples change nothing |
| Benchmark.Run | nosense/run_vsi_super_recall.py:161-251 | the main loop with the `Accuracy` counters equals `Summary` of the outcomes. On success the total is the number of samples, correct is at most total, and the percentage is in [0, 100]; an empty dataset is an error |

## Left out

- Model loading (`create_model_from_pretrained`, `get_tokenizer`, `torch.compile`, `model.eval`): a foreign library with no observable logic here.
- Tokenising, the text and image encoders, and averaging/renormalising embeddings: replaced by the similarity function given as input. Floating-point rounding and `autocast` half precision are not modelled, and scores are exact reals.
- Video decoding with decord and PIL: the video is given as its frame count, or `None` when reading it raises anything (opening the file, the frame-rate arithmetic or decoding a frame), and a frame is its index. The `print` in the exception handler is left out.
- Dataset.GetItem: the step `int(round(native_fps / fps_target))` is an input, because the native frame rate is read from the file; `FPS_TARGET` is the constant `Constants.FpsTarget`.
- Selection.TopK: among equal values the lower index is chosen. PyTorch does not specify which of several equal values `topk` returns, so with ties the chosen frames can differ from PyTorch's. `AscendingUnique` shows that the order `topk` returns them in does not matter.
- `DataLoader` workers, prefetching, `pin_memory`, the collate function and `tqdm`: concurrency and progress display. Samples are modelled as processed one at a time in dataset order, which `num_workers=2` keeps.
- Command-line parsing with `argparse`, the `HF_HOME`/`TORCH_HOME` cache-directory lookup and the parquet path: environment and I/O. `gpu_bs` is an input; its default of 512 and the `choices` checks are not modelled.
- The final three `print` lines: the model returns their numbers in `Benchmark.Report`.
- The asserts `"meta" in sample` and `"frames" in sample`: a dataset item always holds both.
- PyStr.Replace: requires a non-empty needle, because Python's rule for an empty needle is not modelled; the script never uses one.
- PyStr.Format: only `{}`, `{{` and `}}` are modelled. Named or numbered fields, and format specifications, are reported as failure rather than interpreted; the templates use none.
- Prompts.ExtractObjectOfQuestion: the script removes every `"the "`, including one inside an object name (for example "lathe " loses its tail). The round trip is therefore stated for objects that contain no `"the "`, and the extraction itself is modelled as written.
- The `perturb_vsc_repeat.py` script and the plotting scripts are not part of this model.
