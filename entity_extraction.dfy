/**
 * The resumable triple-extraction driver (scripts/extract_entities/extract_entities.py,
 * `process_file` and the main loop). Each cleaned line's `text` is given to
 * the REBEL model, every decoded prediction is parsed into triples, and the
 * triples are written in batches every 25 lines; after each batch the line
 * number is stored in the progress file so that a later run starts there.
 *
 * The model is a parameter (`Predictor`): the decoded predictions for one
 * text. JSON parsing is a parameter, as in the earlier stages.
 */
module EntityExtraction {
  import opened Base
  import opened Json
  import opened Text
  import opened Triplets
  import opened Progress
  import opened Resume
  import Extraction
  import Paths

  const FlushEvery: nat := 25

  /** `prep_model_inputs`: the decoded predictions for one text. */
  type Predictor = Json -> seq<string>

  /** The triples of a list of predictions, in order. */
  function FromPredictions(preds: seq<string>): seq<Triplet> {
    if preds == [] then []
    else FromPredictions(preds[..|preds| - 1]) + Parse(Tokens(preds[|preds| - 1]))
  }

  /** The triples of two runs of predictions are those of the first followed by
      those of the second: each prediction contributes its own triples, in
      order. */
  lemma {:induction false} FromPredictionsAppend(a: seq<string>, b: seq<string>)
    ensures FromPredictions(a + b) == FromPredictions(a) + FromPredictions(b)
    decreases |b|
  {
    if b == [] {
      assert a + b == a;
    } else {
      var b', x := b[..|b| - 1], b[|b| - 1];
      var ts := Parse(Tokens(x));
      assert FromPredictions(a + b) == FromPredictions(a + b') + ts by {
        assert a + b == (a + b') + [x];
        FromPredictionsSnoc(a + b', x);
      }
      assert FromPredictions(b) == FromPredictions(b') + ts by {
        assert b == b' + [x];
        FromPredictionsSnoc(b', x);
      }
      FromPredictionsAppend(a, b');
      AppendAssoc(FromPredictions(a), FromPredictions(b'), ts);
    }
  }

  lemma {:induction false} FromPredictionsSnoc(preds: seq<string>, x: string)
    ensures FromPredictions(preds + [x]) == FromPredictions(preds) + Parse(Tokens(x))
  {
    assert (preds + [x])[..|preds|] == preds;
  }

  /** The triples of the first `k` predictions come first. */
  lemma {:induction false} FromPredictionsPrefix(preds: seq<string>)
    ensures forall k :: 0 <= k <= |preds| ==> FromPredictions(preds[..k]) <= FromPredictions(preds)
  {
    forall k | 0 <= k <= |preds|
      ensures FromPredictions(preds[..k]) <= FromPredictions(preds)
    {
      FromPredictionsAppend(preds[..k], preds[k..]);
      assert preds[..k] + preds[k..] == preds;
    }
  }

  /** Every triple taken from the predictions carries a relation type. */
  lemma {:induction false} FromPredictionsTypes(preds: seq<string>)
    ensures TypesNonEmpty(FromPredictions(preds))
    decreases |preds|
  {
    if preds != [] {
      FromPredictionsTypes(preds[..|preds| - 1]);
      TypesAreNonEmpty(preds[|preds| - 1]);
    }
  }

  /** The inner loop over the decoded predictions of one text. */
  method PredictionTriplets(preds: seq<string>) returns (ts: seq<Triplet>)
    ensures ts == FromPredictions(preds)
  {
    ts := [];
    for j := 0 to |preds|
      invariant ts == FromPredictions(preds[..j])
    {
      assert preds[..j + 1][..j] == preds[..j];
      var t := ExtractTriplets(preds[j]);
      ts := ts + t;
    }
    assert preds[..|preds|] == preds;
  }

  /** The triples of one line, or `None` when the line raises:
      `json.loads(line.strip())` fails, or the value has no `.get`. A line
      whose `text` is missing or falsy gives none. */
  function LineTriplets(parse: Extraction.Parser, predict: Predictor, line: string): Option<seq<Triplet>> {
    match parse(Strip(line))
    case Object(obj) => Some(if Truthy(Get(obj, "text")) then FromPredictions(predict(obj["text"])) else [])
    case _ => None
  }

  /** The body of the line loop for one line that is not skipped: it raises
      exactly when the stripped line does not parse to an object; otherwise
      its triples, each with a relation type, are those of the predictions
      for a truthy `text`, and there are none without one. */
  method LineStep(parse: Extraction.Parser, predict: Predictor, line: string) returns (r: Option<seq<Triplet>>)
    ensures r == LineTriplets(parse, predict, line)
    ensures r.None? <==> !parse(Strip(line)).Object?
    ensures r.Some? ==> TypesNonEmpty(r.value)
    ensures r.Some? ==>
      var obj := parse(Strip(line)).obj;
      && (!Truthy(Get(obj, "text")) ==> r.value == [])
      && (Truthy(Get(obj, "text")) ==>
            forall k :: 0 <= k <= |predict(obj["text"])| ==>
              FromPredictions(predict(obj["text"])[..k]) <= r.value)
  {
    match parse(Strip(line)) {
      case Object(obj) =>
        if Truthy(Get(obj, "text")) {
          var preds := predict(obj["text"]);
          var ts := PredictionTriplets(preds);
          FromPredictionsTypes(preds);
          FromPredictionsPrefix(preds);
          r := Some(ts);
        } else {
          r := Some([]);
        }
      case _ =>
        r := None;
    }
  }

  function Yield(parse: Extraction.Parser, predict: Predictor, line: string): seq<Triplet> {
    match LineTriplets(parse, predict, line)
    case Some(ts) => ts
    case None => []
  }

  /** The triples of each line, in order. */
  function Yields(parse: Extraction.Parser, predict: Predictor, lines: seq<string>): (ys: seq<seq<Triplet>>)
    ensures |ys| == |lines|
  {
    if lines == [] then []
    else Yields(parse, predict, lines[..|lines| - 1]) + [Yield(parse, predict, lines[|lines| - 1])]
  }

  lemma {:induction false} YieldsAt(parse: Extraction.Parser, predict: Predictor, lines: seq<string>, i: nat)
    requires i < |lines|
    ensures Yields(parse, predict, lines)[i] == Yield(parse, predict, lines[i])
  {
    if i < |lines| - 1 {
      YieldsAt(parse, predict, lines[..|lines| - 1], i);
    }
  }

  /** The triples a run that starts at line `start` produces from the first
      `n` lines. */
  function Produced(parse: Extraction.Parser, predict: Predictor, lines: seq<string>, start: int, n: nat): seq<Triplet>
    requires n <= |lines|
  {
    Gathered(Yields(parse, predict, lines), start, n)
  }

  /** The line at index `i` is not skipped and raises. */
  predicate Crashes(parse: Extraction.Parser, predict: Predictor, lines: seq<string>, start: int, i: nat)
    requires i < |lines|
  {
    i + 1 >= start && LineTriplets(parse, predict, lines[i]).None?
  }

  /** The line number stored by a run that completes: the last line when the
      final batch is non-empty, otherwise the last full batch's line. */
  function FinalMark(parse: Extraction.Parser, predict: Predictor, lines: seq<string>, start: int): Option<nat> {
    var n := |lines|;
    if |Produced(parse, predict, lines, start, n)| > |Produced(parse, predict, lines, start, Flushed(n, FlushEvery))| then Some(n)
    else LastFlush(start, n, FlushEvery)
  }

  /** `int(...)` of a stored `line` entry; `None` when it raises. */
  function CursorAt(entry: Reach): Option<int> {
    match entry
    case Found(Leaf(v)) => IntOf(v)
    case _ => None
  }

  /** `int(progress_config[file_name]["line"])`; `None` when it raises. */
  function Cursor(d: Doc, key: string): Option<int> {
    CursorAt(Follow(d, [key, "line"]))
  }

  datatype Status = Completed | CursorFailed | LineFailed(line: nat)

  /** The stored line of a completed run is one it did not skip, is the last
      line or a multiple of 25, and lies less than 25 lines before the end. */
  lemma {:induction false} FinalMarkBounds(parse: Extraction.Parser, predict: Predictor, lines: seq<string>, start: int)
    ensures var mark := FinalMark(parse, predict, lines, start);
      mark.Some? ==>
        && start <= mark.value <= |lines|
        && (mark.value == |lines| || mark.value % FlushEvery == 0)
        && |lines| - mark.value < FlushEvery
    ensures FinalMark(parse, predict, lines, start).None? ==>
      Produced(parse, predict, lines, start, |lines|) == []
  {
    var n := |lines|;
    var m := Flushed(n, FlushEvery);
    FlushedBounds(n, FlushEvery);
    var ys := Yields(parse, predict, lines);
    GatheredPrefix(ys, start, m, n);
    if |Gathered(ys, start, n)| > |Gathered(ys, start, m)| {
      if n < start {
        GatheredBelowStart(ys, start, n);
        assert false;
      }
    } else if m < start {
      GatheredBelowStart(ys, start, m);
    }
  }

  /** Resuming at a stored line `c` reprocesses line `c` itself, and since the
      output file is reopened for writing, the run that resumes leaves a file
      without the triples of lines 1 to c - 1: what a run from the beginning
      would have written is those triples followed by the resumed file. */
  lemma {:induction false} ResumeDropsEarlierLines(parse: Extraction.Parser, predict: Predictor, lines: seq<string>, c: nat)
    requires 1 <= c <= |lines|
    ensures Produced(parse, predict, lines, 1, |lines|)
         == Produced(parse, predict, lines, 1, c - 1) + Produced(parse, predict, lines, c, |lines|)
    ensures Yields(parse, predict, lines)[c - 1] <= Produced(parse, predict, lines, c, |lines|)
  {
    GatheredRestart(Yields(parse, predict, lines), c, |lines|);
  }

  /** `process_file`: the output path, the triples written to the output file
      (opened with "w", so earlier contents are gone) and how the run ended. */
  method ProcessFile(fileName: string, inputPath: string, lines: seq<string>, parse: Extraction.Parser,
                     predict: Predictor, store: ProgressFile)
    returns (outputPath: string, written: seq<Triplet>, status: Status)
    modifies store
    ensures outputPath == Paths.RawEntitiesPath(inputPath)
    ensures status.CursorFailed? <==> Cursor(old(store.doc), fileName).None?
    ensures status.CursorFailed? ==> written == [] && store.doc == old(store.doc)
    ensures !status.CursorFailed? ==>
      var start := Cursor(old(store.doc), fileName).value;
      var path := [fileName, "line"];
      && Follow(old(store.doc), path).Found?
      && (status.Completed? ==>
          && (forall i :: 0 <= i < |lines| ==> !Crashes(parse, predict, lines, start, i))
          && written == Produced(parse, predict, lines, start, |lines|)
          && store.doc == Marked(old(store.doc), path, FinalMark(parse, predict, lines, start)))
      && (status.LineFailed? ==>
          && status.line < |lines|
          && Crashes(parse, predict, lines, start, status.line)
          && (forall i :: 0 <= i < status.line ==> !Crashes(parse, predict, lines, start, i))
          && written == Produced(parse, predict, lines, start, Flushed(status.line, FlushEvery))
          && store.doc == Marked(old(store.doc), path, LastFlush(start, status.line, FlushEvery)))
    ensures forall q :: Diverge([fileName, "line"], q) ==> Follow(store.doc, q) == Follow(old(store.doc), q)
  {
    var path := [fileName, "line"];
    var cursor := store.Traverse(path);
    var start: int;
    match cursor {
      case Found(Leaf(v)) =>
        match IntOf(v) {
          case Some(k) => start := k;
          case None => return Paths.RawEntitiesPath(inputPath), [], CursorFailed;
        }
      case _ =>
        return Paths.RawEntitiesPath(inputPath), [], CursorFailed;
    }
    outputPath := Paths.RawEntitiesPath(inputPath);
    ghost var doc0 := store.doc;
    var batch;
    ghost var mark;
    written, batch, status, mark := ProcessLines(path, lines, start, parse, predict, store);
    if status.Completed? {
      if batch != [] {
        written := written + batch;
        MarkAgain(doc0, path, mark, |lines|);
        store.UpdateQuietly(path, JInt(|lines|));
        mark := Some(|lines|);
      }
      assert mark == FinalMark(parse, predict, lines, start);
    }
    forall q | Diverge(path, q)
      ensures Follow(store.doc, q) == Follow(doc0, q)
    {
      MarkedOther(doc0, path, mark, q);
    }
  }

  /** The line loop of `process_file`: the batches written so far, the triples
      still pending, and the line number last stored. */
  method ProcessLines(path: seq<string>, lines: seq<string>, start: int, parse: Extraction.Parser,
                      predict: Predictor, store: ProgressFile)
    returns (written: seq<Triplet>, batch: seq<Triplet>, status: Status, ghost mark: Option<nat>)
    requires path != [] && Follow(store.doc, path).Found?
    modifies store
    ensures status.Completed? || status.LineFailed?
    ensures store.doc == Marked(old(store.doc), path, mark)
    ensures status.Completed? ==>
      && NoCrashBefore(parse, predict, lines, start, |lines|)
      && Progressed(Yields(parse, predict, lines), start, FlushEvery, |lines|, written, batch, mark)
    ensures status.LineFailed? ==>
      && status.line < |lines|
      && Crashes(parse, predict, lines, start, status.line)
      && NoCrashBefore(parse, predict, lines, start, status.line)
      && Progressed(Yields(parse, predict, lines), start, FlushEvery, status.line, written, batch, mark)
  {
    ghost var doc0 := store.doc;
    ghost var ys := Yields(parse, predict, lines);
    written, batch, mark := [], [], None;
    for i := 0 to |lines|
      invariant NoCrashBefore(parse, predict, lines, start, i)
      invariant Progressed(ys, start, FlushEvery, i, written, batch, mark)
      invariant store.doc == Marked(doc0, path, mark)
    {
      var crashed;
      written, batch, mark, crashed := ProcessOne(path, doc0, ys, lines, start, i, parse, predict, written, batch, mark, store);
      if crashed {
        return written, batch, LineFailed(i), mark;
      }
    }
    status := Completed;
  }

  /** The loop body for line `i`: skip it, stop when it raises, or add its
      triples. */
  method ProcessOne(path: seq<string>, ghost doc0: Doc, ghost ys: seq<seq<Triplet>>, lines: seq<string>, start: int, i: nat,
                    parse: Extraction.Parser, predict: Predictor,
                    written: seq<Triplet>, batch: seq<Triplet>, ghost mark: Option<nat>, store: ProgressFile)
    returns (written': seq<Triplet>, batch': seq<Triplet>, ghost mark': Option<nat>, crashed: bool)
    requires ys == Yields(parse, predict, lines) && i < |lines|
    requires NoCrashBefore(parse, predict, lines, start, i)
    requires Progressed(ys, start, FlushEvery, i, written, batch, mark)
    requires path != [] && Follow(doc0, path).Found? && store.doc == Marked(doc0, path, mark)
    modifies store
    ensures store.doc == Marked(doc0, path, mark')
    ensures !crashed ==>
      && NoCrashBefore(parse, predict, lines, start, i + 1)
      && Progressed(ys, start, FlushEvery, i + 1, written', batch', mark')
    ensures crashed ==>
      && written' == written && batch' == batch && mark' == mark
      && Crashes(parse, predict, lines, start, i)
  {
    written', batch', mark', crashed := written, batch, mark, false;
    var lineNum := i + 1;
    if lineNum < start {
      assert NoCrashBefore(parse, predict, lines, start, i + 1)
          && Progressed(ys, start, FlushEvery, i + 1, written, batch, mark) by {
        NoCrashStep(parse, predict, lines, start, i);
        SkipLine(ys, start, FlushEvery, i, written, batch, mark);
      }
      return;
    }
    var r := LineStep(parse, predict, lines[i]);
    if r.None? {
      crashed := true;
      return;
    }
    assert NoCrashBefore(parse, predict, lines, start, i + 1) && ys[i] == r.value by {
      NoCrashStep(parse, predict, lines, start, i);
      YieldsAt(parse, predict, lines, i);
    }
    written', batch', mark' := AddLine(path, doc0, ys, start, i, r.value, written, batch, mark, store);
  }

  /** One line that is not skipped: its triples join the batch, and on every
      25th line the batch is written and the line number stored. */
  method AddLine(path: seq<string>, ghost doc0: Doc, ghost ys: seq<seq<Triplet>>, start: int, i: nat,
                 out: seq<Triplet>, written: seq<Triplet>, batch: seq<Triplet>, ghost mark: Option<nat>,
                 store: ProgressFile)
    returns (written': seq<Triplet>, batch': seq<Triplet>, ghost mark': Option<nat>)
    requires i < |ys| && i + 1 >= start && ys[i] == out
    requires Progressed(ys, start, FlushEvery, i, written, batch, mark)
    requires path != [] && Follow(doc0, path).Found? && store.doc == Marked(doc0, path, mark)
    modifies store
    ensures Progressed(ys, start, FlushEvery, i + 1, written', batch', mark')
    ensures store.doc == Marked(doc0, path, mark')
  {
    var lineNum := i + 1;
    if lineNum % FlushEvery == 0 {
      assert Progressed(ys, start, FlushEvery, i + 1, written + batch + out, [], Some(lineNum)) by {
        TakeLine(ys, start, FlushEvery, i, written, batch, mark);
      }
      written', batch' := written + batch + out, [];
      MarkAgain(doc0, path, mark, lineNum);
      store.UpdateQuietly(path, JInt(lineNum));
      mark' := Some(lineNum);
    } else {
      assert Progressed(ys, start, FlushEvery, i + 1, written, batch + out, mark) by {
        TakeLine(ys, start, FlushEvery, i, written, batch, mark);
      }
      written', batch', mark' := written, batch + out, mark;
    }
  }

  ghost predicate NoCrashBefore(parse: Extraction.Parser, predict: Predictor, lines: seq<string>, start: int, n: nat)
    requires n <= |lines|
  {
    forall j :: 0 <= j < n ==> !Crashes(parse, predict, lines, start, j)
  }

  lemma {:induction false} NoCrashStep(parse: Extraction.Parser, predict: Predictor, lines: seq<string>, start: int, i: nat)
    requires i < |lines| && NoCrashBefore(parse, predict, lines, start, i)
    requires i + 1 < start || LineTriplets(parse, predict, lines[i]).Some?
    ensures NoCrashBefore(parse, predict, lines, start, i + 1)
  {
  }

  /** `progress_config[key]["status"] == True` on the progress document as
      loaded before the loop; `None` when the lookup raises. */
  function AlreadyDone(snapshot: Doc, key: string): Option<bool> {
    match Follow(snapshot, [key, "status"])
    case Found(Leaf(v)) => Some(EqualsTrue(v))
    case Found(_) => Some(false)
    case _ => None
  }

  /** The sources the main loop processes, in configuration order. */
  function Pending(snapshot: Doc, sources: seq<string>): seq<string> {
    if sources == [] then []
    else
      var last := sources[|sources| - 1];
      Pending(snapshot, sources[..|sources| - 1]) + (if AlreadyDone(snapshot, last) == Some(false) then [last] else [])
  }

  /** One `process_file` run of the main loop, on the lines of `input`. */
  datatype Run = Run(source: string, input: string, outputPath: string, written: seq<Triplet>, status: Status)

  /** What a run wrote and stored, given the source's `line` entry before it
      (`prior`) and after it (`after`): nothing when the cursor does not
      convert; otherwise the triples of the lines from the cursor on, up to the
      end or up to the last batch before the line that raised, and the line
      number of the last batch written. */
  ghost predicate Reported(r: Run, lines: seq<string>, parse: Extraction.Parser, predict: Predictor,
                           prior: Reach, after: Reach)
  {
    var c := CursorAt(prior);
    && r.outputPath == Paths.RawEntitiesPath(r.input)
    && (r.status.CursorFailed? <==> c.None?)
    && (r.status.CursorFailed? ==> r.written == [] && after == prior)
    && (r.status.Completed? ==>
          && c.Some?
          && (forall i :: 0 <= i < |lines| ==> !Crashes(parse, predict, lines, c.value, i))
          && r.written == Produced(parse, predict, lines, c.value, |lines|)
          && after == Stored(prior, FinalMark(parse, predict, lines, c.value)))
    && (r.status.LineFailed? ==>
          && c.Some?
          && r.status.line < |lines|
          && Crashes(parse, predict, lines, c.value, r.status.line)
          && (forall i :: 0 <= i < r.status.line ==> !Crashes(parse, predict, lines, c.value, i))
          && r.written == Produced(parse, predict, lines, c.value, Flushed(r.status.line, FlushEvery))
          && after == Stored(prior, LastFlush(c.value, r.status.line, FlushEvery)))
  }

  function Sources(runs: seq<Run>): seq<string> {
    if runs == [] then [] else Sources(runs[..|runs| - 1]) + [runs[|runs| - 1].source]
  }

  datatype MainStatus = AllProcessed | GateFailed(index: nat) | RunFailed(index: nat)

  /** The main loop over the configured sources (`config` maps a source to its
      input path; `files` gives the lines of each input file). A source whose
      stored status equals `True` is skipped; every other one is processed
      and then marked with `True`. */
  method ExtractEntities(config: seq<(string, string)>, files: string -> seq<string>, parse: Extraction.Parser,
                         predict: Predictor, store: ProgressFile)
    returns (runs: seq<Run>, outcome: MainStatus)
    requires Distinct(SourceNames(config))
    modifies store
    ensures outcome.AllProcessed? ==>
      && (forall j :: 0 <= j < |config| ==> AlreadyDone(old(store.doc), config[j].0).Some?)
      && Sources(runs) == Pending(old(store.doc), SourceNames(config))
      && forall r :: r in runs ==>
           && r.status.Completed?
           && Follow(store.doc, [r.source, "status"]) == Found(Leaf(JBool(true)))
    ensures outcome.GateFailed? ==>
      && outcome.index < |config| && AlreadyDone(old(store.doc), config[outcome.index].0).None?
      && Follow(store.doc, [config[outcome.index].0, "status"]) == Follow(old(store.doc), [config[outcome.index].0, "status"])
      && forall r :: r in runs ==>
           && r.status.Completed?
           && Follow(store.doc, [r.source, "status"]) == Found(Leaf(JBool(true)))
    ensures outcome.RunFailed? ==>
      && outcome.index < |config| && runs != [] && !runs[|runs| - 1].status.Completed?
      && runs[|runs| - 1].source == config[outcome.index].0
      && Follow(store.doc, [config[outcome.index].0, "status"]) == Follow(old(store.doc), [config[outcome.index].0, "status"])
      && forall r :: r in runs[..|runs| - 1] ==>
           && r.status.Completed?
           && Follow(store.doc, [r.source, "status"]) == Found(Leaf(JBool(true)))
    ensures forall r :: r in runs ==> (r.source, r.input) in config
    ensures RunsReported(old(store.doc), files, parse, predict, runs, store.doc)
    ensures forall k :: AlreadyDone(old(store.doc), k) == Some(true) ==>
      Follow(store.doc, [k, "status"]) == Follow(old(store.doc), [k, "status"])
    ensures forall q :: Untouched(runs, q) ==> Follow(store.doc, q) == Follow(old(store.doc), q)
  {
    var snapshot := store.doc;
    var names := SourceNames(config);
    runs := [];
    var i := 0;
    while i < |config|
      invariant i <= |config|
      invariant MainState(snapshot, names, i, runs, store.doc)
      invariant Reports(snapshot, config, files, parse, predict, i, runs, store.doc)
      invariant Framed(snapshot, runs, store.doc)
    {
      var stop;
      runs, stop := MainStep(snapshot, config, i, runs, files, parse, predict, store);
      if stop.Some? {
        MainLeaves(snapshot, config, files, parse, predict, i + 1, runs, store.doc);
        return runs, stop.value;
      }
      i := i + 1;
    }
    MainDone(snapshot, config, runs, store.doc);
    MainLeaves(snapshot, config, files, parse, predict, i, runs, store.doc);
    outcome := AllProcessed;
  }

  /** One pass of the main loop over source `config[i]`: its gate is read, a
      done source is skipped, and any other is processed and marked. `stop`
      is the outcome when the pass ends the loop. */
  method MainStep(snapshot: Doc, config: seq<(string, string)>, i: nat, runs: seq<Run>,
                  files: string -> seq<string>, parse: Extraction.Parser, predict: Predictor,
                  store: ProgressFile)
    returns (runs': seq<Run>, stop: Option<MainStatus>)
    requires Distinct(SourceNames(config)) && i < |config|
    requires MainState(snapshot, SourceNames(config), i, runs, store.doc)
    requires Reports(snapshot, config, files, parse, predict, i, runs, store.doc)
    requires Framed(snapshot, runs, store.doc)
    modifies store
    ensures Reports(snapshot, config, files, parse, predict, i + 1, runs', store.doc)
    ensures Framed(snapshot, runs', store.doc)
    ensures stop.None? ==> MainState(snapshot, SourceNames(config), i + 1, runs', store.doc)
    ensures stop.Some? ==> !stop.value.AllProcessed? && stop.value.index == i
    ensures stop.Some? ==> Follow(store.doc, [config[i].0, "status"]) == Follow(snapshot, [config[i].0, "status"])
    ensures stop.Some? && stop.value.GateFailed? ==>
      && AlreadyDone(snapshot, config[i].0).None?
      && forall r :: r in runs' ==>
           && r.status.Completed?
           && Follow(store.doc, [r.source, "status"]) == Found(Leaf(JBool(true)))
    ensures stop.Some? && stop.value.RunFailed? ==>
      && runs' != [] && !runs'[|runs'| - 1].status.Completed?
      && runs'[|runs'| - 1].source == config[i].0
      && forall r :: r in runs'[..|runs'| - 1] ==>
           && r.status.Completed?
           && Follow(store.doc, [r.source, "status"]) == Found(Leaf(JBool(true)))
  {
    runs', stop := runs, None;
    var names := SourceNames(config);
    var done := AlreadyDone(snapshot, config[i].0);
    if done.None? {
      stop := Some(GateFailed(i));
      ReportsSkip(snapshot, config, files, parse, predict, i, runs, store.doc);
      MainStopped(snapshot, names, i, runs, store.doc);
    } else if done.value {
      SkipSource(snapshot, names, i, runs, store.doc);
      ReportsSkip(snapshot, config, files, parse, predict, i, runs, store.doc);
    } else {
      runs', stop := PendingStep(snapshot, config, i, runs, files, parse, predict, store);
    }
  }

  /** The pass over a source that is not done: its run joins the runs, and
      the loop stops with `RunFailed` unless the run completed. */
  method PendingStep(snapshot: Doc, config: seq<(string, string)>, i: nat, runs: seq<Run>,
                     files: string -> seq<string>, parse: Extraction.Parser, predict: Predictor,
                     store: ProgressFile)
    returns (runs': seq<Run>, stop: Option<MainStatus>)
    requires Distinct(SourceNames(config)) && i < |config|
    requires MainState(snapshot, SourceNames(config), i, runs, store.doc)
    requires Reports(snapshot, config, files, parse, predict, i, runs, store.doc)
    requires Framed(snapshot, runs, store.doc)
    requires AlreadyDone(snapshot, config[i].0) == Some(false)
    modifies store
    ensures Reports(snapshot, config, files, parse, predict, i + 1, runs', store.doc)
    ensures Framed(snapshot, runs', store.doc)
    ensures stop.None? ==> MainState(snapshot, SourceNames(config), i + 1, runs', store.doc)
    ensures stop.Some? ==> stop.value == RunFailed(i)
    ensures stop.Some? ==> Follow(store.doc, [config[i].0, "status"]) == Follow(snapshot, [config[i].0, "status"])
    ensures stop.Some? ==>
      && runs' != [] && !runs'[|runs'| - 1].status.Completed?
      && runs'[|runs'| - 1].source == config[i].0
      && forall r :: r in runs'[..|runs'| - 1] ==>
           && r.status.Completed?
           && Follow(store.doc, [r.source, "status"]) == Found(Leaf(JBool(true)))
  {
    var run := ExtractSource(snapshot, config, i, runs, files, parse, predict, store);
    runs', stop := runs + [run], None;
    if !run.status.Completed? {
      FailedLast(runs, run, store.doc);
      stop := Some(RunFailed(i));
    }
  }

  /** After a run that fails, the runs before it are the earlier ones. */
  lemma {:induction false} FailedLast(runs: seq<Run>, run: Run, doc: Doc)
    requires forall r :: r in runs ==> r.status.Completed? && Follow(doc, [r.source, "status"]) == Found(Leaf(JBool(true)))
    ensures var runs' := runs + [run];
      && runs' != [] && runs'[|runs'| - 1] == run
      && forall r :: r in runs'[..|runs'| - 1] ==>
           && r.status.Completed?
           && Follow(doc, [r.source, "status"]) == Found(Leaf(JBool(true)))
  {
    assert (runs + [run])[..|runs|] == runs;
  }

  /** Where the loop stops at source `i`, the runs so far completed and were
      marked, and the status of source `i` is the loaded one. */
  lemma {:induction false} MainStopped(snapshot: Doc, names: seq<string>, i: nat, runs: seq<Run>, doc: Doc)
    requires MainState(snapshot, names, i, runs, doc) && i < |names|
    ensures Follow(doc, [names[i], "status"]) == Follow(snapshot, [names[i], "status"])
    ensures forall r :: r in runs ==> r.status.Completed? && Follow(doc, [r.source, "status"]) == Found(Leaf(JBool(true)))
  {
  }

  /** What the loop knows of its runs holds one source further on when that
      source adds no run. */
  lemma {:induction false} ReportsSkip(snapshot: Doc, config: seq<(string, string)>, files: string -> seq<string>,
                                       parse: Extraction.Parser, predict: Predictor, i: nat, runs: seq<Run>, doc: Doc)
    requires Reports(snapshot, config, files, parse, predict, i, runs, doc) && i < |config|
    ensures Reports(snapshot, config, files, parse, predict, i + 1, runs, doc)
  {
  }

  /** The main loop's pass over a source that is not done:
      `ProcessAndMark` on its configured input. */
  method ExtractSource(snapshot: Doc, config: seq<(string, string)>, i: nat, runs: seq<Run>,
                       files: string -> seq<string>, parse: Extraction.Parser, predict: Predictor,
                       store: ProgressFile)
    returns (run: Run)
    requires Distinct(SourceNames(config)) && i < |config|
    requires MainState(snapshot, SourceNames(config), i, runs, store.doc)
    requires Reports(snapshot, config, files, parse, predict, i, runs, store.doc)
    requires AlreadyDone(snapshot, config[i].0) == Some(false)
    requires Framed(snapshot, runs, store.doc)
    modifies store
    ensures run.source == config[i].0
    ensures Reports(snapshot, config, files, parse, predict, i + 1, runs + [run], store.doc)
    ensures Framed(snapshot, runs + [run], store.doc)
    ensures run.status.Completed? ==> MainState(snapshot, SourceNames(config), i + 1, runs + [run], store.doc)
    ensures !run.status.Completed? ==> Follow(store.doc, [config[i].0, "status"]) == Follow(snapshot, [config[i].0, "status"])
    ensures forall r :: r in runs ==> r.status.Completed? && Follow(store.doc, [r.source, "status"]) == Found(Leaf(JBool(true)))
  {
    var names := SourceNames(config);
    var key := config[i].0;
    assert key == names[i];
    ghost var before := store.doc;
    run := ProcessAndMark(key, config[i].1, files(config[i].1), parse, predict, store);
    RecordReport(snapshot, config, files, parse, predict, i, runs, before, run, store.doc);
    forall r | r in runs
      ensures r.source != key
      ensures Follow(store.doc, [r.source, "status"]) == Found(Leaf(JBool(true)))
    {
      assert r.source in names[..i];
    }
    FramedNext(snapshot, runs, before, run, store.doc);
    if run.status.Completed? {
      RecordSource(snapshot, names, i, runs, before, run, store.doc);
    }
  }

  /** Once every source has passed, every gate could be read and the runs
      are exactly those of the pending sources, each completed and marked. */
  lemma {:induction false} MainDone(snapshot: Doc, config: seq<(string, string)>, runs: seq<Run>, doc: Doc)
    requires MainState(snapshot, SourceNames(config), |config|, runs, doc)
    ensures forall j :: 0 <= j < |config| ==> AlreadyDone(snapshot, config[j].0).Some?
    ensures Sources(runs) == Pending(snapshot, SourceNames(config))
    ensures forall r :: r in runs ==> r.status.Completed? && Follow(doc, [r.source, "status"]) == Found(Leaf(JBool(true)))
  {
    var names := SourceNames(config);
    assert names[..|config|] == names;
    assert forall j :: 0 <= j < |config| ==> names[j] == config[j].0;
  }

  /** The main loop's state after `i` sources: each gate so far could be
      read, the runs are those of the sources not done, each completed and
      marked `True`, and the statuses of the sources still to come are those
      of the snapshot. */
  ghost predicate MainState(snapshot: Doc, names: seq<string>, i: nat, runs: seq<Run>, doc: Doc) {
    && i <= |names|
    && (forall j :: 0 <= j < i ==> AlreadyDone(snapshot, names[j]).Some?)
    && Sources(runs) == Pending(snapshot, names[..i])
    && (forall r :: r in runs ==> r.status.Completed? && r.source in names[..i])
    && (forall r :: r in runs ==> Follow(doc, [r.source, "status"]) == Found(Leaf(JBool(true))))
    && (forall j :: i <= j < |names| ==> Follow(doc, [names[j], "status"]) == Follow(snapshot, [names[j], "status"]))
  }

  /** Path `q` lies outside the `line` and `status` entries of every run's
      source. */
  ghost predicate Untouched(runs: seq<Run>, q: seq<string>) {
    forall r :: r in runs ==> Diverge([r.source, "line"], q) && Diverge([r.source, "status"], q)
  }

  /** What the main loop leaves as it was loaded: every run is of a source
      whose status was not `True`, a run that did not complete leaves its
      source's status alone (so the next invocation processes it again), and
      every path outside the runs' `line` and `status` entries keeps its
      value. */
  ghost predicate Framed(snapshot: Doc, runs: seq<Run>, doc: Doc) {
    && (forall r :: r in runs ==> AlreadyDone(snapshot, r.source) == Some(false))
    && (forall r :: r in runs && !r.status.Completed? ==>
          Follow(doc, [r.source, "status"]) == Follow(snapshot, [r.source, "status"]))
    && (forall q {:trigger Untouched(runs, q)} :: Untouched(runs, q) ==> Follow(doc, q) == Follow(snapshot, q))
  }

  /** A run of a new, not done source that touches only its own entries, and
      its status only when it completes, keeps `Framed`. */
  lemma {:induction false} FramedNext(snapshot: Doc, runs: seq<Run>, doc: Doc, run: Run, doc': Doc)
    requires Framed(snapshot, runs, doc)
    requires AlreadyDone(snapshot, run.source) == Some(false)
    requires forall r :: r in runs ==> r.source != run.source
    requires Follow(doc, [run.source, "status"]) == Follow(snapshot, [run.source, "status"])
    requires !run.status.Completed? ==> Follow(doc', [run.source, "status"]) == Follow(doc, [run.source, "status"])
    requires forall q :: Diverge([run.source, "line"], q) && Diverge([run.source, "status"], q) ==> Follow(doc', q) == Follow(doc, q)
    ensures Framed(snapshot, runs + [run], doc')
  {
    forall r | r in runs + [run] && !r.status.Completed?
      ensures Follow(doc', [r.source, "status"]) == Follow(snapshot, [r.source, "status"])
    {
      if r != run {
        assert r in runs;
        DivergeAt([run.source, "line"], [r.source, "status"], 0);
        DivergeAt([run.source, "status"], [r.source, "status"], 0);
      }
    }
    forall q | Untouched(runs + [run], q)
      ensures Follow(doc', q) == Follow(snapshot, q)
    {
      assert run in runs + [run];
      assert Untouched(runs, q);
    }
  }

  /** What the main loop guarantees however it ends: each run's source and
      input come from the configuration and it reported what `Reported`
      says; a source loaded as done keeps its status; and every path outside
      the runs' `line` and `status` entries keeps its loaded value. */
  lemma {:induction false} MainLeaves(snapshot: Doc, config: seq<(string, string)>, files: string -> seq<string>,
                                      parse: Extraction.Parser, predict: Predictor, i: nat, runs: seq<Run>, doc: Doc)
    requires Reports(snapshot, config, files, parse, predict, i, runs, doc) && Framed(snapshot, runs, doc)
    ensures forall r :: r in runs ==> (r.source, r.input) in config
    ensures RunsReported(snapshot, files, parse, predict, runs, doc)
    ensures forall k :: AlreadyDone(snapshot, k) == Some(true) ==>
      Follow(doc, [k, "status"]) == Follow(snapshot, [k, "status"])
    ensures forall q :: Untouched(runs, q) ==> Follow(doc, q) == Follow(snapshot, q)
  {
    DoneKept(snapshot, runs, doc);
  }

  /** A source whose loaded status was `True` or could not be read has no
      run, so its status is still the loaded one. */
  lemma {:induction false} DoneKept(snapshot: Doc, runs: seq<Run>, doc: Doc)
    requires Framed(snapshot, runs, doc)
    ensures forall k :: AlreadyDone(snapshot, k) != Some(false) ==>
      Follow(doc, [k, "status"]) == Follow(snapshot, [k, "status"])
  {
    forall k | AlreadyDone(snapshot, k) != Some(false)
      ensures Follow(doc, [k, "status"]) == Follow(snapshot, [k, "status"])
    {
      forall r | r in runs
        ensures Diverge([r.source, "line"], [k, "status"]) && Diverge([r.source, "status"], [k, "status"])
      {
        DivergeAt([r.source, "line"], [k, "status"], 0);
        DivergeAt([r.source, "status"], [k, "status"], 0);
      }
      assert Untouched(runs, [k, "status"]);
    }
  }

  /** Every run reported what `Reported` says, measured from the loaded
      `line` entry of its source to the entry in `doc`. */
  ghost predicate RunsReported(snapshot: Doc, files: string -> seq<string>, parse: Extraction.Parser,
                               predict: Predictor, runs: seq<Run>, doc: Doc)
  {
    forall r :: r in runs ==>
      Reported(r, files(r.input), parse, predict, Follow(snapshot, [r.source, "line"]), Follow(doc, [r.source, "line"]))
  }

  /** What the main loop knows of every run so far: its source and input come
      from the configuration and it wrote and stored what `Reported` says,
      measured against the loaded progress; the `line` entries of the sources
      still to come are those loaded. */
  ghost predicate Reports(snapshot: Doc, config: seq<(string, string)>, files: string -> seq<string>,
                          parse: Extraction.Parser, predict: Predictor, i: nat, runs: seq<Run>, doc: Doc)
  {
    var names := SourceNames(config);
    && i <= |names|
    && (forall r :: r in runs ==> (r.source, r.input) in config)
    && RunsReported(snapshot, files, parse, predict, runs, doc)
    && (forall j :: i <= j < |names| ==> Follow(doc, [names[j], "line"]) == Follow(snapshot, [names[j], "line"]))
  }

  lemma {:induction false} RecordReport(snapshot: Doc, config: seq<(string, string)>, files: string -> seq<string>,
                                        parse: Extraction.Parser, predict: Predictor, i: nat, runs: seq<Run>,
                                        doc: Doc, run: Run, doc': Doc)
    requires Reports(snapshot, config, files, parse, predict, i, runs, doc) && i < |config|
    requires Distinct(SourceNames(config)) && forall r :: r in runs ==> r.source in SourceNames(config)[..i]
    requires run.source == config[i].0 && run.input == config[i].1
    requires Reported(run, files(run.input), parse, predict, Follow(doc, [run.source, "line"]), Follow(doc', [run.source, "line"]))
    requires forall k :: k != run.source ==> Follow(doc', [k, "line"]) == Follow(doc, [k, "line"])
    ensures Reports(snapshot, config, files, parse, predict, i + 1, runs + [run], doc')
  {
    NextSource(snapshot, config, i, runs, doc, run, doc');
    ReportsNext(snapshot, files, parse, predict, runs, doc, run, doc');
  }

  /** The bookkeeping half of `RecordReport`: the new run's source and input
      come from the configuration, it is a source none of the earlier runs
      had, and it leaves the `line` entries of the sources still to come as
      they were loaded. */
  lemma {:induction false} NextSource(snapshot: Doc, config: seq<(string, string)>, i: nat, runs: seq<Run>,
                                      doc: Doc, run: Run, doc': Doc)
    requires i < |config| && Distinct(SourceNames(config))
    requires forall r :: r in runs ==> (r.source, r.input) in config
    requires forall r :: r in runs ==> r.source in SourceNames(config)[..i]
    requires forall j :: i <= j < |config| ==> Follow(doc, [SourceNames(config)[j], "line"]) == Follow(snapshot, [SourceNames(config)[j], "line"])
    requires run.source == config[i].0 && run.input == config[i].1
    requires forall k :: k != run.source ==> Follow(doc', [k, "line"]) == Follow(doc, [k, "line"])
    ensures forall r :: r in runs + [run] ==> (r.source, r.input) in config
    ensures forall r :: r in runs ==> r.source != run.source
    ensures Follow(doc, [run.source, "line"]) == Follow(snapshot, [run.source, "line"])
    ensures forall j :: i + 1 <= j < |config| ==> Follow(doc', [SourceNames(config)[j], "line"]) == Follow(snapshot, [SourceNames(config)[j], "line"])
  {
    var names := SourceNames(config);
    assert run.source == names[i];
    forall r | r in runs + [run] ensures (r.source, r.input) in config {
      if r == run { assert config[i] in config; } else { assert r in runs; }
    }
    forall r | r in runs ensures r.source != run.source {
      assert r.source in names[..i];
    }
    forall j | i + 1 <= j < |names|
      ensures Follow(doc', [names[j], "line"]) == Follow(snapshot, [names[j], "line"])
    {
      assert names[j] != names[i];
    }
  }

  /** A run of a new source, reported from the loaded `line` entry, joins
      the runs before it, whose entries it leaves alone. */
  lemma {:induction false} ReportsNext(snapshot: Doc, files: string -> seq<string>, parse: Extraction.Parser,
                                       predict: Predictor, runs: seq<Run>, doc: Doc, run: Run, doc': Doc)
    requires RunsReported(snapshot, files, parse, predict, runs, doc)
    requires forall r :: r in runs ==> r.source != run.source
    requires Follow(doc, [run.source, "line"]) == Follow(snapshot, [run.source, "line"])
    requires Reported(run, files(run.input), parse, predict, Follow(doc, [run.source, "line"]), Follow(doc', [run.source, "line"]))
    requires forall k :: k != run.source ==> Follow(doc', [k, "line"]) == Follow(doc, [k, "line"])
    ensures RunsReported(snapshot, files, parse, predict, runs + [run], doc')
  {
    ReportsKept(snapshot, files, parse, predict, runs, run.source, doc, doc');
    ReportedFrom(run, files(run.input), parse, predict,
                 Follow(doc, [run.source, "line"]), Follow(snapshot, [run.source, "line"]), Follow(doc', [run.source, "line"]));
    ReportsAppend(snapshot, files, parse, predict, runs, run, doc');
  }

  lemma {:induction false} ReportsAppend(snapshot: Doc, files: string -> seq<string>, parse: Extraction.Parser,
                                         predict: Predictor, runs: seq<Run>, run: Run, doc: Doc)
    requires RunsReported(snapshot, files, parse, predict, runs, doc)
    requires Reported(run, files(run.input), parse, predict, Follow(snapshot, [run.source, "line"]), Follow(doc, [run.source, "line"]))
    ensures RunsReported(snapshot, files, parse, predict, runs + [run], doc)
  {
  }

  lemma {:induction false} ReportedFrom(r: Run, lines: seq<string>, parse: Extraction.Parser, predict: Predictor,
                                        prior: Reach, prior': Reach, after: Reach)
    requires Reported(r, lines, parse, predict, prior, after) && prior == prior'
    ensures Reported(r, lines, parse, predict, prior', after)
  {
  }

  /** A run of another source leaves what the earlier runs reported as it was. */
  lemma {:induction false} ReportsKept(snapshot: Doc, files: string -> seq<string>, parse: Extraction.Parser,
                                       predict: Predictor, runs: seq<Run>, key: string, doc: Doc, doc': Doc)
    requires forall r :: r in runs ==> r.source != key
    requires forall k :: k != key ==> Follow(doc', [k, "line"]) == Follow(doc, [k, "line"])
    requires RunsReported(snapshot, files, parse, predict, runs, doc)
    ensures RunsReported(snapshot, files, parse, predict, runs, doc')
  {
    forall r | r in runs
      ensures Reported(r, files(r.input), parse, predict, Follow(snapshot, [r.source, "line"]), Follow(doc', [r.source, "line"]))
    {
      assert Follow(doc', [r.source, "line"]) == Follow(doc, [r.source, "line"]);
    }
  }

  lemma {:induction false} SkipSource(snapshot: Doc, names: seq<string>, i: nat, runs: seq<Run>, doc: Doc)
    requires MainState(snapshot, names, i, runs, doc) && i < |names|
    requires AlreadyDone(snapshot, names[i]) == Some(true)
    ensures MainState(snapshot, names, i + 1, runs, doc)
  {
    assert names[..i + 1][..i] == names[..i] && names[..i + 1][i] == names[i];
    assert Pending(snapshot, names[..i + 1]) == Pending(snapshot, names[..i]);
  }

  lemma {:induction false} RecordSource(snapshot: Doc, names: seq<string>, i: nat, runs: seq<Run>, doc: Doc, run: Run, doc': Doc)
    requires MainState(snapshot, names, i, runs, doc) && i < |names| && Distinct(names)
    requires AlreadyDone(snapshot, names[i]) == Some(false)
    requires run.source == names[i] && run.status.Completed?
    requires Follow(doc', [names[i], "status"]) == Found(Leaf(JBool(true)))
    requires forall k :: k != names[i] ==> Follow(doc', [k, "status"]) == Follow(doc, [k, "status"])
    ensures MainState(snapshot, names, i + 1, runs + [run], doc')
  {
    var key := names[i];
    var runs' := runs + [run];
    assert names[..i + 1][..i] == names[..i] && names[..i + 1][i] == key;
    assert Pending(snapshot, names[..i + 1]) == Pending(snapshot, names[..i]) + [key];
    assert runs'[..|runs|] == runs && runs'[|runs|] == run;
    assert Sources(runs') == Sources(runs) + [key];
    forall r | r in runs'
      ensures r.status.Completed? && r.source in names[..i + 1]
      ensures Follow(doc', [r.source, "status"]) == Found(Leaf(JBool(true)))
    {
      if r != run {
        assert r in runs && r.source in names[..i];
        assert r.source != key;
      }
    }
    forall j | i + 1 <= j < |names|
      ensures Follow(doc', [names[j], "status"]) == Follow(snapshot, [names[j], "status"])
    {
      assert names[j] != key;
    }
  }

  /** One pass of the main loop for a source that is not done: `process_file`,
      then the status set to `True` when it completes. No other source's
      status changes. */
  method ProcessAndMark(key: string, inputPath: string, lines: seq<string>, parse: Extraction.Parser,
                        predict: Predictor, store: ProgressFile)
    returns (run: Run)
    requires Follow(store.doc, [key, "status"]).Found?
    modifies store
    ensures run.source == key && run.input == inputPath
    ensures Reported(run, lines, parse, predict, Follow(old(store.doc), [key, "line"]), Follow(store.doc, [key, "line"]))
    ensures run.status.Completed? ==> Follow(store.doc, [key, "status"]) == Found(Leaf(JBool(true)))
    ensures forall k :: k != key ==> Follow(store.doc, [k, "status"]) == Follow(old(store.doc), [k, "status"])
    ensures forall k :: k != key ==> Follow(store.doc, [k, "line"]) == Follow(old(store.doc), [k, "line"])
    ensures !run.status.Completed? ==> Follow(store.doc, [key, "status"]) == Follow(old(store.doc), [key, "status"])
    ensures forall q :: Diverge([key, "line"], q) && Diverge([key, "status"], q) ==> Follow(store.doc, q) == Follow(old(store.doc), q)
  {
    ghost var d0 := store.doc;
    var outputPath, written, status := ProcessFile(key, inputPath, lines, parse, predict, store);
    run := Run(key, inputPath, outputPath, written, status);
    ghost var path := [key, "line"];
    if !status.CursorFailed? {
      var c := Cursor(d0, key).value;
      var mark := if status.Completed? then FinalMark(parse, predict, lines, c) else LastFlush(c, status.line, FlushEvery);
      MarkedAt(d0, path, mark);
    }
    assert Reported(run, lines, parse, predict, Follow(d0, path), Follow(store.doc, path));
    forall k
      ensures Follow(store.doc, [k, "status"]) == Follow(d0, [k, "status"])
    {
      DivergeAt(path, [k, "status"], 1);
    }
    forall k | k != key
      ensures Follow(store.doc, [k, "line"]) == Follow(d0, [k, "line"])
    {
      DivergeAt(path, [k, "line"], 0);
    }
    if status.Completed? {
      ghost var before := store.doc;
      store.UpdateQuietly([key, "status"], JBool(true));
      UpdateSets(before, [key, "status"], JBool(true));
      forall k
        ensures Follow(store.doc, [k, "line"]) == Follow(before, [k, "line"])
      {
        if k == key { DivergeAt([key, "status"], [k, "line"], 1); } else { DivergeAt([key, "status"], [k, "line"], 0); }
      }
      forall k | k != key
        ensures Follow(store.doc, [k, "status"]) == Follow(d0, [k, "status"])
      {
        DivergeAt([key, "status"], [k, "status"], 0);
      }
    }
  }

  function SourceNames(config: seq<(string, string)>): (names: seq<string>)
    ensures |names| == |config| && forall j :: 0 <= j < |config| ==> names[j] == config[j].0
  {
    if config == [] then [] else SourceNames(config[..|config| - 1]) + [config[|config| - 1].0]
  }
}
