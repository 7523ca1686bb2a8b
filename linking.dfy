/**
 * The resumable entity-linking driver (scripts/filter_entities/filter_entities.py,
 * `process_and_link_entities` and the main loop). Each raw triple's head and
 * tail are searched on Wikidata and resolved to a label; a triple whose head
 * and tail both resolve is kept with both labels. Kept triples are appended
 * to the output file in batches every 100 lines, and the line number is
 * stored in the progress file after each batch and at the end.
 *
 * The search, the similarity ratio and JSON parsing are parameters.
 */
module Linking {
  import opened Base
  import opened Json
  import opened Progress
  import opened Resume
  import opened Resolver
  import Extraction
  import Paths

  const FlushEvery: nat := 100

  /** `search_wikidata`'s HTTP response for a term. */
  type Searcher = Json -> Response

  /** Python truthiness of a resolved label: present and non-empty. */
  predicate Linked(choice: Option<string>) {
    choice.Some? && choice.value != ""
  }

  /** The record written for a linked triple, in its key order. */
  function LinkedTriplet(linkedHead: string, head: Json, typ: Json, linkedTail: string, tail: Json): Record {
    [("linked_head", JStr(linkedHead)), ("original_head", head), ("type", typ),
     ("linked_tail", JStr(linkedTail)), ("original_tail", tail)]
  }

  /** The five keys of a linked record, in their order. */
  lemma {:induction false} LinkedTripletKeys(linkedHead: string, head: Json, typ: Json, linkedTail: string, tail: Json)
    ensures Keys(LinkedTriplet(linkedHead, head, typ, linkedTail, tail))
         == ["linked_head", "original_head", "type", "linked_tail", "original_tail"]
  {
    var r := LinkedTriplet(linkedHead, head, typ, linkedTail, tail);
    var ks := Keys(r);
    assert |ks| == 5;
    assert ks[0] == r[0].0 && ks[1] == r[1].0 && ks[2] == r[2].0 && ks[3] == r[3].0 && ks[4] == r[4].0;
  }

  /** How one line that is not skipped ends: with the records it adds (none
      or one), with an exception, or with the process exiting on a 403. */
  datatype LineOutcome = Emitted(records: seq<Record>) | Raises | Exits

  /** One line: `json.loads`, then the linking of the parsed object; a
      line that is not JSON, or whose value is not an object, raises at the
      `head` lookup at the latest. */
  function LinkLine(parse: Extraction.Parser, search: Searcher, ratio: Ratio, line: string): LineOutcome {
    match parse(line)
    case Malformed => Raises
    case NotObject => Raises
    case Object(obj) => LinkObject(search, ratio, obj)
  }

  /** The `head` and `tail` lookups, the search and choice for the head, then
      for the tail, and the `type` lookup when both are linked. */
  function LinkObject(search: Searcher, ratio: Ratio, obj: Obj): LineOutcome {
    if "head" !in obj || "tail" !in obj then Raises
    else
      var head, tail := obj["head"], obj["tail"];
      var hs := SearchOutcome(search(head));
      if hs.Exit? then Exits
      else
        var lh := Select(ratio, head, hs.entries, SimilarityThreshold);
        if lh.LabelMissing? then Raises
        else
          var ts := SearchOutcome(search(tail));
          if ts.Exit? then Exits
          else
            var lt := Select(ratio, tail, ts.entries, SimilarityThreshold);
            if lt.LabelMissing? then Raises
            else if Linked(lh.name) && Linked(lt.name) then
              (if "type" in obj then Emitted([LinkedTriplet(lh.name.value, head, obj["type"], lt.name.value, tail)])
               else Raises)
            else Emitted([])
  }

  method LinkLineStep(parse: Extraction.Parser, search: Searcher, ratio: Ratio, line: string) returns (r: LineOutcome)
    ensures r == LinkLine(parse, search, ratio, line)
  {
    match parse(line) {
      case Object(obj) =>
        if "head" !in obj || "tail" !in obj {
          return Raises;
        }
        var head, tail := obj["head"], obj["tail"];
        var headResults := SearchOutcome(search(head));
        if headResults.Exit? {
          return Exits;
        }
        var linkedHead := FilterResults(ratio, head, headResults.entries, SimilarityThreshold);
        if linkedHead.LabelMissing? {
          return Raises;
        }
        var tailResults := SearchOutcome(search(tail));
        if tailResults.Exit? {
          return Exits;
        }
        var linkedTail := FilterResults(ratio, tail, tailResults.entries, SimilarityThreshold);
        if linkedTail.LabelMissing? {
          return Raises;
        }
        if Linked(linkedHead.name) && Linked(linkedTail.name) {
          if "type" !in obj {
            return Raises;
          }
          r := Emitted([LinkedTriplet(linkedHead.name.value, head, obj["type"], linkedTail.name.value, tail)]);
        } else {
          r := Emitted([]);
        }
      case _ =>
        r := Raises;
    }
  }

  /** A kept line gives one record with the five keys in order, holding the
      original head and tail and labels of results of their searches. */
  lemma {:induction false} EmittedRecord(parse: Extraction.Parser, search: Searcher, ratio: Ratio, line: string)
    requires LinkLine(parse, search, ratio, line).Emitted?
    requires LinkLine(parse, search, ratio, line).records != []
    ensures var rs := LinkLine(parse, search, ratio, line).records;
      && |rs| == 1
      && Keys(rs[0]) == ["linked_head", "original_head", "type", "linked_tail", "original_tail"]
      && parse(line).Object?
      && var obj := parse(line).obj;
      && "head" in obj && "tail" in obj && "type" in obj
      && rs[0] == LinkedTriplet(rs[0][0].1.s, obj["head"], obj["type"], rs[0][3].1.s, obj["tail"])
      && rs[0][0].1.s != "" && rs[0][3].1.s != ""
      && (exists e :: e in SearchOutcome(search(obj["head"])).entries && e.name == Some(rs[0][0].1.s))
      && (exists e :: e in SearchOutcome(search(obj["tail"])).entries && e.name == Some(rs[0][3].1.s))
  {
    var obj := parse(line).obj;
    assert LinkLine(parse, search, ratio, line) == LinkObject(search, ratio, obj);
    var head, tail := obj["head"], obj["tail"];
    var hs, ts := SearchOutcome(search(head)), SearchOutcome(search(tail));
    var sh := Select(ratio, head, hs.entries, SimilarityThreshold);
    var st := Select(ratio, tail, ts.entries, SimilarityThreshold);
    assert Linked(sh.name) && Linked(st.name) && "type" in obj;
    var lh, lt := sh.name.value, st.name.value;
    assert LinkObject(search, ratio, obj) == Emitted([LinkedTriplet(lh, head, obj["type"], lt, tail)]);
    LinkedTripletKeys(lh, head, obj["type"], lt, tail);
    var j :| 0 <= j < |hs.entries| && hs.entries[j].name == sh.name;
    assert hs.entries[j] in hs.entries;
    var k :| 0 <= k < |ts.entries| && ts.entries[k].name == st.name;
    assert ts.entries[k] in ts.entries;
  }

  function Output(parse: Extraction.Parser, search: Searcher, ratio: Ratio, line: string): seq<Record> {
    match LinkLine(parse, search, ratio, line)
    case Emitted(rs) => rs
    case _ => []
  }

  /** The records of each line, in order. */
  function Outputs(parse: Extraction.Parser, search: Searcher, ratio: Ratio, lines: seq<string>): (ys: seq<seq<Record>>)
    ensures |ys| == |lines|
  {
    if lines == [] then []
    else Outputs(parse, search, ratio, lines[..|lines| - 1]) + [Output(parse, search, ratio, lines[|lines| - 1])]
  }

  lemma {:induction false} OutputsAt(parse: Extraction.Parser, search: Searcher, ratio: Ratio, lines: seq<string>, i: nat)
    requires i < |lines|
    ensures Outputs(parse, search, ratio, lines)[i] == Output(parse, search, ratio, lines[i])
  {
    if i < |lines| - 1 {
      OutputsAt(parse, search, ratio, lines[..|lines| - 1], i);
    }
  }

  /** The records a run that starts at line `start` appends from the first
      `n` lines. */
  function Appended(parse: Extraction.Parser, search: Searcher, ratio: Ratio, lines: seq<string>, start: int, n: nat): seq<Record>
    requires n <= |lines|
  {
    Gathered(Outputs(parse, search, ratio, lines), start, n)
  }

  /** The line at index `i` is not skipped and ends the run. */
  predicate Halts(parse: Extraction.Parser, search: Searcher, ratio: Ratio, lines: seq<string>, start: int, i: nat)
    requires i < |lines|
  {
    i + 1 >= start && !LinkLine(parse, search, ratio, lines[i]).Emitted?
  }

  /** `line_number < current_line` for a stored cursor, over a file of `n`
      lines: the cursor as an integer bound, or `None` when the comparison
      raises. A float bound `x` skips the same lines as its ceiling; every
      line number is below infinity, so it skips all `n` lines, and none is
      below NaN or minus infinity, so they skip none. */
  function StartOf(cursor: Doc, n: nat): Option<int> {
    match cursor
    case Leaf(JInt(c)) => Some(c)
    case Leaf(JBool(b)) => Some(if b then 1 else 0)
    case Leaf(JFloat(x, _)) => Some(Ceil(x))
    case Leaf(JNonFinite(PosInf)) => Some(n + 1)
    case Leaf(JNonFinite(_)) => Some(1)
    case _ => None
  }

  /** A cursor of infinity skips every line, so the run appends nothing, no
      line can stop it, and it still stores the last line number; NaN and
      minus infinity skip no line, like a cursor of 1. */
  lemma {:induction false} NonFiniteCursors(parse: Extraction.Parser, search: Searcher, ratio: Ratio, lines: seq<string>)
    ensures var start := StartOf(Leaf(JNonFinite(PosInf)), |lines|);
      && start.Some?
      && Appended(parse, search, ratio, lines, start.value, |lines|) == []
      && forall i :: 0 <= i < |lines| ==> !Halts(parse, search, ratio, lines, start.value, i)
    ensures StartOf(Leaf(JNonFinite(NaN)), |lines|) == StartOf(Leaf(JInt(1)), |lines|)
    ensures StartOf(Leaf(JNonFinite(NegInf)), |lines|) == StartOf(Leaf(JInt(1)), |lines|)
  {
    GatheredBelowStart(Outputs(parse, search, ratio, lines), |lines| + 1, |lines|);
  }

  function Ceil(x: real): int {
    if x.Floor as real == x then x.Floor else x.Floor + 1
  }

  /** A line number is below a float cursor exactly when it is below the
      cursor's ceiling. */
  lemma {:induction false} CeilBound(x: real, n: int)
    ensures n as real < x <==> n < Ceil(x)
  {
  }

  /** The line number stored at the end: the last line, or 1 for an empty
      file (the initial value of `line_number`). */
  function LastLine(lines: seq<string>): nat {
    if lines == [] then 1 else |lines|
  }

  datatype LinkStatus = Finished | Crashed(line: nat) | Exited(line: nat)

  /** `process_and_link_entities`: the records appended to the output file
      (opened with "a") and how the run ended. */
  method ProcessAndLink(source: string, lines: seq<string>, cursor: Doc, parse: Extraction.Parser,
                        search: Searcher, ratio: Ratio, store: ProgressFile)
    returns (written: seq<Record>, status: LinkStatus)
    requires Follow(store.doc, [source, "line"]).Found?
    modifies store
    ensures StartOf(cursor, |lines|).None? && lines != [] ==>
      status == Crashed(0) && written == [] && store.doc == old(store.doc)
    ensures StartOf(cursor, |lines|).Some? || lines == [] ==>
      var start := if StartOf(cursor, |lines|).Some? then StartOf(cursor, |lines|).value else 1;
      var path := [source, "line"];
      && (status.Finished? ==>
          && (forall i :: 0 <= i < |lines| ==> !Halts(parse, search, ratio, lines, start, i))
          && written == Appended(parse, search, ratio, lines, start, |lines|)
          && store.doc == Marked(old(store.doc), path, Some(LastLine(lines))))
      && (!status.Finished? ==>
          var i := status.line;
          && i < |lines|
          && Halts(parse, search, ratio, lines, start, i)
          && (status.Exited? <==> LinkLine(parse, search, ratio, lines[i]).Exits?)
          && (forall j :: 0 <= j < i ==> !Halts(parse, search, ratio, lines, start, j))
          && written == Appended(parse, search, ratio, lines, start, Flushed(i, FlushEvery))
          && store.doc == Marked(old(store.doc), path, LastFlush(start, i, FlushEvery)))
    ensures forall q :: Diverge([source, "line"], q) ==> Follow(store.doc, q) == Follow(old(store.doc), q)
  {
    var path := [source, "line"];
    ghost var doc0 := store.doc;
    var start := StartOf(cursor, |lines|);
    if start.None? && lines != [] {
      return [], Crashed(0);
    }
    var first := if start.Some? then start.value else 1;
    var batch;
    ghost var mark;
    written, batch, status, mark := LinkLines(path, lines, first, parse, search, ratio, store);
    if status.Finished? {
      written := written + batch;
      MarkAgain(doc0, path, mark, LastLine(lines));
      var raised := store.UpdateOrRaise(path, JInt(LastLine(lines)));
      assert !raised;
      mark := Some(LastLine(lines));
    }
    forall q | Diverge(path, q)
      ensures Follow(store.doc, q) == Follow(doc0, q)
    {
      MarkedOther(doc0, path, mark, q);
    }
  }

  /** The line loop of `process_and_link_entities`: the batches written so
      far, the records still pending, and the line number last stored. */
  method LinkLines(path: seq<string>, lines: seq<string>, start: int, parse: Extraction.Parser,
                   search: Searcher, ratio: Ratio, store: ProgressFile)
    returns (written: seq<Record>, batch: seq<Record>, status: LinkStatus, ghost mark: Option<nat>)
    requires path != [] && Follow(store.doc, path).Found?
    modifies store
    ensures store.doc == Marked(old(store.doc), path, mark)
    ensures status.Finished? ==>
      && NoHaltBefore(parse, search, ratio, lines, start, |lines|)
      && Progressed(Outputs(parse, search, ratio, lines), start, FlushEvery, |lines|, written, batch, mark)
    ensures !status.Finished? ==>
      && status.line < |lines|
      && Halts(parse, search, ratio, lines, start, status.line)
      && (status.Exited? <==> LinkLine(parse, search, ratio, lines[status.line]).Exits?)
      && NoHaltBefore(parse, search, ratio, lines, start, status.line)
      && Progressed(Outputs(parse, search, ratio, lines), start, FlushEvery, status.line, written, batch, mark)
  {
    ghost var doc0 := store.doc;
    ghost var ys := Outputs(parse, search, ratio, lines);
    written, batch, mark := [], [], None;
    for i := 0 to |lines|
      invariant NoHaltBefore(parse, search, ratio, lines, start, i)
      invariant Progressed(ys, start, FlushEvery, i, written, batch, mark)
      invariant store.doc == Marked(doc0, path, mark)
    {
      var halt;
      written, batch, mark, halt := LinkOne(path, doc0, ys, lines, start, i, parse, search, ratio, written, batch, mark, store);
      if halt.Some? {
        return written, batch, halt.value, mark;
      }
    }
    status := Finished;
  }

  /** One pass of the line loop: a line below the cursor is skipped, a line
      that raises or exits stops the loop with the state as it was, any other
      line adds its records. */
  method LinkOne(path: seq<string>, ghost doc0: Doc, ghost ys: seq<seq<Record>>, lines: seq<string>, start: int, i: nat,
                 parse: Extraction.Parser, search: Searcher, ratio: Ratio,
                 written: seq<Record>, batch: seq<Record>, ghost mark: Option<nat>, store: ProgressFile)
    returns (written': seq<Record>, batch': seq<Record>, ghost mark': Option<nat>, halt: Option<LinkStatus>)
    requires ys == Outputs(parse, search, ratio, lines) && i < |lines|
    requires NoHaltBefore(parse, search, ratio, lines, start, i)
    requires Progressed(ys, start, FlushEvery, i, written, batch, mark)
    requires path != [] && Follow(doc0, path).Found? && store.doc == Marked(doc0, path, mark)
    modifies store
    ensures store.doc == Marked(doc0, path, mark')
    ensures halt.None? ==>
      && NoHaltBefore(parse, search, ratio, lines, start, i + 1)
      && Progressed(ys, start, FlushEvery, i + 1, written', batch', mark')
    ensures halt.Some? ==>
      && written' == written && batch' == batch && mark' == mark
      && Halts(parse, search, ratio, lines, start, i)
      && halt.value == (if LinkLine(parse, search, ratio, lines[i]).Exits? then Exited(i) else Crashed(i))
  {
    written', batch', mark', halt := written, batch, mark, None;
    var lineNumber := i + 1;
    if lineNumber < start {
      assert NoHaltBefore(parse, search, ratio, lines, start, i + 1)
          && Progressed(ys, start, FlushEvery, i + 1, written, batch, mark) by {
        NoHaltStep(parse, search, ratio, lines, start, i);
        SkipLine(ys, start, FlushEvery, i, written, batch, mark);
      }
      return;
    }
    var r := LinkLineStep(parse, search, ratio, lines[i]);
    if r.Raises? {
      return written, batch, mark, Some(Crashed(i));
    }
    if r.Exits? {
      return written, batch, mark, Some(Exited(i));
    }
    assert NoHaltBefore(parse, search, ratio, lines, start, i + 1) && ys[i] == r.records by {
      NoHaltStep(parse, search, ratio, lines, start, i);
      OutputsAt(parse, search, ratio, lines, i);
    }
    written', batch', mark' := AddLine(path, doc0, ys, start, i, r.records, written, batch, mark, store);
  }

  /** One line that is not skipped: its records join the batch, and on every
      100th line the batch is written and the line number stored (even when
      the batch is empty). */
  method AddLine(path: seq<string>, ghost doc0: Doc, ghost ys: seq<seq<Record>>, start: int, i: nat,
                 out: seq<Record>, written: seq<Record>, batch: seq<Record>, ghost mark: Option<nat>,
                 store: ProgressFile)
    returns (written': seq<Record>, batch': seq<Record>, ghost mark': Option<nat>)
    requires i < |ys| && i + 1 >= start && ys[i] == out
    requires Progressed(ys, start, FlushEvery, i, written, batch, mark)
    requires path != [] && Follow(doc0, path).Found? && store.doc == Marked(doc0, path, mark)
    modifies store
    ensures Progressed(ys, start, FlushEvery, i + 1, written', batch', mark')
    ensures store.doc == Marked(doc0, path, mark')
  {
    var lineNumber := i + 1;
    if lineNumber % FlushEvery == 0 {
      assert Progressed(ys, start, FlushEvery, i + 1, written + batch + out, [], Some(lineNumber)) by {
        TakeLine(ys, start, FlushEvery, i, written, batch, mark);
      }
      written', batch' := written + batch + out, [];
      MarkAgain(doc0, path, mark, lineNumber);
      var raised := store.UpdateOrRaise(path, JInt(lineNumber));
      assert !raised;
      mark' := Some(lineNumber);
    } else {
      assert Progressed(ys, start, FlushEvery, i + 1, written, batch + out, mark) by {
        TakeLine(ys, start, FlushEvery, i, written, batch, mark);
      }
      written', batch', mark' := written, batch + out, mark;
    }
  }

  ghost predicate NoHaltBefore(parse: Extraction.Parser, search: Searcher, ratio: Ratio, lines: seq<string>, start: int, n: nat)
    requires n <= |lines|
  {
    forall j :: 0 <= j < n ==> !Halts(parse, search, ratio, lines, start, j)
  }

  lemma {:induction false} NoHaltStep(parse: Extraction.Parser, search: Searcher, ratio: Ratio, lines: seq<string>, start: int, i: nat)
    requires i < |lines| && NoHaltBefore(parse, search, ratio, lines, start, i)
    requires i + 1 < start || LinkLine(parse, search, ratio, lines[i]).Emitted?
    ensures NoHaltBefore(parse, search, ratio, lines, start, i + 1)
  {
  }

  /** The output file is opened for appending and line `m`, the stored one,
      is processed again on resuming: after a run from the first line that
      stored `m` and a resumed run that finishes, the file holds what one
      uninterrupted run appends, with the records of line `m` a second time
      right after the first. */
  lemma {:induction false} ResumeRepeatsCursorLine(parse: Extraction.Parser, search: Searcher, ratio: Ratio, lines: seq<string>, m: nat)
    requires 1 <= m <= |lines|
    ensures var once := Appended(parse, search, ratio, lines, 1, |lines|);
      var before := Appended(parse, search, ratio, lines, 1, m);
      && before <= once
      && before + Appended(parse, search, ratio, lines, m, |lines|)
         == before + Output(parse, search, ratio, lines[m - 1]) + once[|before|..]
  {
    var ys := Outputs(parse, search, ratio, lines);
    GatheredResume(ys, m, |lines|);
    OutputsAt(parse, search, ratio, lines, m - 1);
  }

  /** `config[source]["status"] is True` on the configuration as loaded
      before the loop; `None` when the lookup raises. Only the boolean itself
      counts: a stored 1 is processed again. */
  function IsDone(snapshot: Doc, key: string): Option<bool> {
    match Follow(snapshot, [key, "status"])
    case Found(Leaf(v)) => Some(IsTrue(v))
    case Found(_) => Some(false)
    case _ => None
  }

  /** The input path and the cursor of a source; `None` when either lookup
      raises or the path is not a string (`os.path.split` raises). */
  function Setup(snapshot: Doc, key: string): Option<(string, Doc)> {
    match Follow(snapshot, [key, "path"])
    case Found(Leaf(JStr(p))) =>
      (match Follow(snapshot, [key, "line"])
       case Found(cursor) => Some((p, cursor))
       case _ => None)
    case _ => None
  }

  /** The sources the main loop links, in configuration order. */
  function Pending(snapshot: Doc, sources: seq<string>): seq<string> {
    if sources == [] then []
    else
      var last := sources[|sources| - 1];
      Pending(snapshot, sources[..|sources| - 1]) + (if IsDone(snapshot, last) == Some(false) then [last] else [])
  }

  /** One `process_and_link_entities` run of the main loop, on the lines of
      `input`. */
  datatype Run = Run(source: string, input: string, outputPath: string, written: seq<Record>, status: LinkStatus)

  /** What a run appended and stored, given the cursor it was passed and the
      source's `line` entry before it (`prior`) and after it (`after`):
      nothing when comparing with the cursor raises; otherwise the records of
      the lines from the cursor on, up to the end or up to the last batch
      before the line that stopped it, and the last line number stored. */
  ghost predicate RunLinked(r: Run, lines: seq<string>, parse: Extraction.Parser, search: Searcher, ratio: Ratio,
                         cursor: Doc, prior: Reach, after: Reach)
  {
    var s := StartOf(cursor, |lines|);
    && r.outputPath == Paths.FilteredEntitiesPath(r.input)
    && (s.None? && lines != [] ==> r.status == Crashed(0) && r.written == [] && after == prior)
    && (s.Some? || lines == [] ==>
          var start := if s.Some? then s.value else 1;
          && (r.status.Finished? ==>
                && (forall i :: 0 <= i < |lines| ==> !Halts(parse, search, ratio, lines, start, i))
                && r.written == Appended(parse, search, ratio, lines, start, |lines|)
                && after == Found(Leaf(JInt(LastLine(lines)))))
          && (!r.status.Finished? ==>
                var i := r.status.line;
                && i < |lines|
                && Halts(parse, search, ratio, lines, start, i)
                && (r.status.Exited? <==> LinkLine(parse, search, ratio, lines[i]).Exits?)
                && (forall j :: 0 <= j < i ==> !Halts(parse, search, ratio, lines, start, j))
                && r.written == Appended(parse, search, ratio, lines, start, Flushed(i, FlushEvery))
                && after == Stored(prior, LastFlush(start, i, FlushEvery))))
  }

  /** Every run read its input path and cursor from the loaded configuration
      and appended and stored what `RunLinked` says, measured from the loaded
      `line` entry of its source to the entry in `doc`. */
  ghost predicate RunsLinked(snapshot: Doc, files: string -> seq<string>, parse: Extraction.Parser,
                             search: Searcher, ratio: Ratio, runs: seq<Run>, doc: Doc)
  {
    forall r :: r in runs ==>
      && Setup(snapshot, r.source).Some? && Setup(snapshot, r.source).value.0 == r.input
      && RunLinked(r, files(r.input), parse, search, ratio, Setup(snapshot, r.source).value.1,
                Follow(snapshot, [r.source, "line"]), Follow(doc, [r.source, "line"]))
  }

  function Sources(runs: seq<Run>): seq<string> {
    if runs == [] then [] else Sources(runs[..|runs| - 1]) + [runs[|runs| - 1].source]
  }

  datatype MainStatus = AllFiltered | SourceFailed(index: nat) | RunStopped(index: nat)

  /** The main loop over the sources of the configuration, which is also the
      progress file; `order` is its key order and `files` gives the lines of
      each input file. A source whose status is `True` is skipped; every
      other one is linked and then marked `True`. */
  method FilterEntities(order: seq<string>, files: string -> seq<string>, parse: Extraction.Parser,
                        search: Searcher, ratio: Ratio, store: ProgressFile)
    returns (runs: seq<Run>, outcome: MainStatus)
    requires store.doc.Node? && Distinct(order)
    requires forall k {:trigger k in order} :: k in order <==> k in store.doc.fields
    modifies store
    ensures outcome.AllFiltered? ==>
      && (forall j :: 0 <= j < |order| ==> IsDone(old(store.doc), order[j]).Some?)
      && Sources(runs) == Pending(old(store.doc), order)
      && forall r :: r in runs ==>
           && r.status.Finished?
           && Follow(store.doc, [r.source, "status"]) == Found(Leaf(JBool(true)))
    ensures outcome.SourceFailed? ==>
      && outcome.index < |order|
      && (IsDone(old(store.doc), order[outcome.index]).None?
          || (IsDone(old(store.doc), order[outcome.index]) == Some(false)
              && Setup(old(store.doc), order[outcome.index]).None?))
      && Follow(store.doc, [order[outcome.index], "status"]) == Follow(old(store.doc), [order[outcome.index], "status"])
      && forall r :: r in runs ==>
           && r.status.Finished?
           && Follow(store.doc, [r.source, "status"]) == Found(Leaf(JBool(true)))
    ensures outcome.RunStopped? ==>
      && outcome.index < |order| && runs != [] && !runs[|runs| - 1].status.Finished?
      && runs[|runs| - 1].source == order[outcome.index]
      && Follow(store.doc, [order[outcome.index], "status"]) == Follow(old(store.doc), [order[outcome.index], "status"])
      && forall r :: r in runs[..|runs| - 1] ==>
           && r.status.Finished?
           && Follow(store.doc, [r.source, "status"]) == Found(Leaf(JBool(true)))
    ensures RunsLinked(old(store.doc), files, parse, search, ratio, runs, store.doc)
    ensures forall k :: IsDone(old(store.doc), k) == Some(true) ==>
      Follow(store.doc, [k, "status"]) == Follow(old(store.doc), [k, "status"])
    ensures forall q :: Untouched(runs, q) ==> Follow(store.doc, q) == Follow(old(store.doc), q)
  {
    var snapshot := store.doc;
    runs := [];
    var i := 0;
    while i < |order|
      invariant i <= |order|
      invariant MainState(snapshot, order, i, runs, store.doc)
      invariant RunsLinked(snapshot, files, parse, search, ratio, runs, store.doc)
      invariant Framed(snapshot, runs, store.doc)
    {
      var stop;
      runs, stop := MainStep(snapshot, order, i, runs, files, parse, search, ratio, store);
      if stop.Some? {
        DoneKept(snapshot, runs, store.doc);
        return runs, stop.value;
      }
      i := i + 1;
    }
    MainDone(snapshot, order, runs, store.doc);
    DoneKept(snapshot, runs, store.doc);
    outcome := AllFiltered;
  }

  /** One pass of the main loop over source `order[i]`: its gate is read, a
      done source is skipped, and any other is linked and marked. `stop` is
      the outcome when the pass ends the loop. */
  method MainStep(snapshot: Doc, order: seq<string>, i: nat, runs: seq<Run>, files: string -> seq<string>,
                  parse: Extraction.Parser, search: Searcher, ratio: Ratio, store: ProgressFile)
    returns (runs': seq<Run>, stop: Option<MainStatus>)
    requires MainState(snapshot, order, i, runs, store.doc) && i < |order| && Distinct(order)
    requires RunsLinked(snapshot, files, parse, search, ratio, runs, store.doc)
    requires Framed(snapshot, runs, store.doc)
    modifies store
    ensures RunsLinked(snapshot, files, parse, search, ratio, runs', store.doc)
    ensures Framed(snapshot, runs', store.doc)
    ensures stop.None? ==> MainState(snapshot, order, i + 1, runs', store.doc)
    ensures stop.Some? ==> !stop.value.AllFiltered? && stop.value.index == i
    ensures stop.Some? ==> Follow(store.doc, [order[i], "status"]) == Follow(snapshot, [order[i], "status"])
    ensures stop.Some? && stop.value.SourceFailed? ==>
      && (IsDone(snapshot, order[i]).None? || (IsDone(snapshot, order[i]) == Some(false) && Setup(snapshot, order[i]).None?))
      && forall r :: r in runs' ==>
           && r.status.Finished?
           && Follow(store.doc, [r.source, "status"]) == Found(Leaf(JBool(true)))
    ensures stop.Some? && stop.value.RunStopped? ==>
      && runs' != [] && !runs'[|runs'| - 1].status.Finished?
      && runs'[|runs'| - 1].source == order[i]
      && forall r :: r in runs'[..|runs'| - 1] ==>
           && r.status.Finished?
           && Follow(store.doc, [r.source, "status"]) == Found(Leaf(JBool(true)))
  {
    runs', stop := runs, None;
    var key := order[i];
    var done := IsDone(snapshot, key);
    if done.None? {
      stop := Some(SourceFailed(i));
    } else if done.value {
      SkipSource(snapshot, order, i, runs, store.doc);
    } else if Setup(snapshot, key).None? {
      stop := Some(SourceFailed(i));
    } else {
      var run := FilterSource(snapshot, order, i, runs, files, parse, search, ratio, store);
      runs' := runs + [run];
      if !run.status.Finished? {
        assert runs'[..|runs|] == runs && run in runs';
        stop := Some(RunStopped(i));
      }
    }
  }

  /** Once every source has passed, every gate could be read and the runs
      are exactly those of the pending sources, each finished and marked. */
  lemma {:induction false} MainDone(snapshot: Doc, order: seq<string>, runs: seq<Run>, doc: Doc)
    requires MainState(snapshot, order, |order|, runs, doc)
    ensures forall j :: 0 <= j < |order| ==> IsDone(snapshot, order[j]).Some?
    ensures Sources(runs) == Pending(snapshot, order)
    ensures forall r :: r in runs ==> r.status.Finished? && Follow(doc, [r.source, "status"]) == Found(Leaf(JBool(true)))
  {
    assert order[..|order|] == order;
  }

  /** The main loop's pass over a source that is not done and whose setup
      can be read: `LinkAndMark` on its input path and cursor. */
  method FilterSource(snapshot: Doc, order: seq<string>, i: nat, runs: seq<Run>, files: string -> seq<string>,
                      parse: Extraction.Parser, search: Searcher, ratio: Ratio, store: ProgressFile)
    returns (run: Run)
    requires MainState(snapshot, order, i, runs, store.doc) && i < |order| && Distinct(order)
    requires RunsLinked(snapshot, files, parse, search, ratio, runs, store.doc)
    requires IsDone(snapshot, order[i]) == Some(false) && Setup(snapshot, order[i]).Some?
    requires Framed(snapshot, runs, store.doc)
    modifies store
    ensures run.source == order[i]
    ensures RunsLinked(snapshot, files, parse, search, ratio, runs + [run], store.doc)
    ensures Framed(snapshot, runs + [run], store.doc)
    ensures run.status.Finished? ==> MainState(snapshot, order, i + 1, runs + [run], store.doc)
    ensures forall r :: r in runs ==> r.status.Finished? && Follow(store.doc, [r.source, "status"]) == Found(Leaf(JBool(true)))
  {
    var key := order[i];
    var (inputPath, cursor) := Setup(snapshot, key).value;
    ghost var before := store.doc;
    run := LinkAndMark(key, inputPath, files(inputPath), cursor, parse, search, ratio, store);
    RecordLinked(snapshot, order, files, parse, search, ratio, i, runs, before, run, store.doc);
    forall r | r in runs
      ensures r.source != key
      ensures Follow(store.doc, [r.source, "status"]) == Found(Leaf(JBool(true)))
    {
      assert r.source in order[..i];
    }
    FramedNext(snapshot, runs, before, run, store.doc);
    if run.status.Finished? {
      RecordSource(snapshot, order, i, runs, before, run, store.doc);
    }
  }

  /** Path `q` lies outside the `line` and `status` entries of every run's
      source. */
  ghost predicate Untouched(runs: seq<Run>, q: seq<string>) {
    forall r :: r in runs ==> Diverge([r.source, "line"], q) && Diverge([r.source, "status"], q)
  }

  /** What the main loop leaves as it was loaded: every run is of a source
      whose status was not `True`, a run that did not finish leaves its
      source's status alone (so the next invocation links it again), and
      every path outside the runs' `line` and `status` entries, the `path`
      entries included, keeps its value. */
  ghost predicate Framed(snapshot: Doc, runs: seq<Run>, doc: Doc) {
    && (forall r :: r in runs ==> IsDone(snapshot, r.source) == Some(false))
    && (forall r :: r in runs && !r.status.Finished? ==>
          Follow(doc, [r.source, "status"]) == Follow(snapshot, [r.source, "status"]))
    && (forall q {:trigger Untouched(runs, q)} :: Untouched(runs, q) ==> Follow(doc, q) == Follow(snapshot, q))
  }

  /** A run of a new, not done source that touches only its own entries, and
      its status only when it finishes, keeps `Framed`. */
  lemma {:induction false} FramedNext(snapshot: Doc, runs: seq<Run>, doc: Doc, run: Run, doc': Doc)
    requires Framed(snapshot, runs, doc)
    requires IsDone(snapshot, run.source) == Some(false)
    requires forall r :: r in runs ==> r.source != run.source
    requires Follow(doc, [run.source, "status"]) == Follow(snapshot, [run.source, "status"])
    requires !run.status.Finished? ==> Follow(doc', [run.source, "status"]) == Follow(doc, [run.source, "status"])
    requires forall q :: Diverge([run.source, "line"], q) && Diverge([run.source, "status"], q) ==> Follow(doc', q) == Follow(doc, q)
    ensures Framed(snapshot, runs + [run], doc')
  {
    forall r | r in runs + [run] && !r.status.Finished?
      ensures Follow(doc', [r.source, "status"]) == Follow(snapshot, [r.source, "status"])
    {
      if r != run {
        assert r in runs;
        DivergeAt([run.source, "line"], [r.source, "status"], 0);
        DivergeAt([run.source, "status"], [r.source, "status"], 0);
      }
    }
    forall q | Untouched(runs + [run], q)
      ensures Follow(doc', q) == Follow(snapshot, q)
    {
      assert run in runs + [run];
      assert Untouched(runs, q);
    }
  }

  /** A source whose loaded status was `True` or could not be read has no
      run, so its status is still the loaded one. */
  lemma {:induction false} DoneKept(snapshot: Doc, runs: seq<Run>, doc: Doc)
    requires Framed(snapshot, runs, doc)
    ensures forall k :: IsDone(snapshot, k) != Some(false) ==>
      Follow(doc, [k, "status"]) == Follow(snapshot, [k, "status"])
  {
    forall k | IsDone(snapshot, k) != Some(false)
      ensures Follow(doc, [k, "status"]) == Follow(snapshot, [k, "status"])
    {
      forall r | r in runs
        ensures Diverge([r.source, "line"], [k, "status"]) && Diverge([r.source, "status"], [k, "status"])
      {
        DivergeAt([r.source, "line"], [k, "status"], 0);
        DivergeAt([r.source, "status"], [k, "status"], 0);
      }
      assert Untouched(runs, [k, "status"]);
    }
  }

  /** The main loop's state after `i` sources: each gate so far could be
      read, the runs are those of the sources not done, each finished and
      marked `True`, and the status and line of every source still to come
      are those of the snapshot. */
  ghost predicate MainState(snapshot: Doc, order: seq<string>, i: nat, runs: seq<Run>, doc: Doc) {
    && i <= |order|
    && (forall j :: 0 <= j < i ==> IsDone(snapshot, order[j]).Some?)
    && Sources(runs) == Pending(snapshot, order[..i])
    && (forall r :: r in runs ==> r.status.Finished? && r.source in order[..i])
    && (forall r :: r in runs ==> Follow(doc, [r.source, "status"]) == Found(Leaf(JBool(true))))
    && (forall j :: i <= j < |order| ==> Follow(doc, [order[j], "status"]) == Follow(snapshot, [order[j], "status"]))
    && (forall j :: i <= j < |order| ==> Follow(doc, [order[j], "line"]) == Follow(snapshot, [order[j], "line"]))
  }

  lemma {:induction false} RecordLinked(snapshot: Doc, order: seq<string>, files: string -> seq<string>,
                                        parse: Extraction.Parser, search: Searcher, ratio: Ratio, i: nat,
                                        runs: seq<Run>, doc: Doc, run: Run, doc': Doc)
    requires RunsLinked(snapshot, files, parse, search, ratio, runs, doc) && i < |order| && Distinct(order)
    requires forall r :: r in runs ==> r.source in order[..i]
    requires forall j :: i <= j < |order| ==> Follow(doc, [order[j], "line"]) == Follow(snapshot, [order[j], "line"])
    requires run.source == order[i] && Setup(snapshot, run.source).Some? && Setup(snapshot, run.source).value.0 == run.input
    requires RunLinked(run, files(run.input), parse, search, ratio, Setup(snapshot, run.source).value.1,
                    Follow(doc, [run.source, "line"]), Follow(doc', [run.source, "line"]))
    requires forall k :: k != run.source ==> Follow(doc', [k, "line"]) == Follow(doc, [k, "line"])
    ensures RunsLinked(snapshot, files, parse, search, ratio, runs + [run], doc')
  {
    assert forall r :: r in runs ==> r.source != order[i] by {
      forall r | r in runs ensures r.source != order[i] {
        assert r.source in order[..i];
      }
    }
    LinkedKept(snapshot, files, parse, search, ratio, runs, order[i], doc, doc');
    LinkedFrom(run, files(run.input), parse, search, ratio, Setup(snapshot, run.source).value.1,
               Follow(doc, [run.source, "line"]), Follow(snapshot, [run.source, "line"]), Follow(doc', [run.source, "line"]));
    LinkedAppend(snapshot, files, parse, search, ratio, runs, run, doc');
  }

  lemma {:induction false} LinkedFrom(r: Run, lines: seq<string>, parse: Extraction.Parser, search: Searcher, ratio: Ratio,
                                      cursor: Doc, prior: Reach, prior': Reach, after: Reach)
    requires RunLinked(r, lines, parse, search, ratio, cursor, prior, after) && prior == prior'
    ensures RunLinked(r, lines, parse, search, ratio, cursor, prior', after)
  {
  }

  /** A run of another source leaves what the earlier runs reported as it was. */
  lemma {:induction false} LinkedKept(snapshot: Doc, files: string -> seq<string>, parse: Extraction.Parser,
                                      search: Searcher, ratio: Ratio, runs: seq<Run>, key: string, doc: Doc, doc': Doc)
    requires forall r :: r in runs ==> r.source != key
    requires forall k :: k != key ==> Follow(doc', [k, "line"]) == Follow(doc, [k, "line"])
    requires RunsLinked(snapshot, files, parse, search, ratio, runs, doc)
    ensures RunsLinked(snapshot, files, parse, search, ratio, runs, doc')
  {
    forall r | r in runs
      ensures RunLinked(r, files(r.input), parse, search, ratio, Setup(snapshot, r.source).value.1,
                     Follow(snapshot, [r.source, "line"]), Follow(doc', [r.source, "line"]))
    {
      assert Follow(doc', [r.source, "line"]) == Follow(doc, [r.source, "line"]);
    }
  }

  lemma {:induction false} LinkedAppend(snapshot: Doc, files: string -> seq<string>, parse: Extraction.Parser,
                                        search: Searcher, ratio: Ratio, runs: seq<Run>, run: Run, doc: Doc)
    requires RunsLinked(snapshot, files, parse, search, ratio, runs, doc)
    requires Setup(snapshot, run.source).Some? && Setup(snapshot, run.source).value.0 == run.input
    requires RunLinked(run, files(run.input), parse, search, ratio, Setup(snapshot, run.source).value.1,
                    Follow(snapshot, [run.source, "line"]), Follow(doc, [run.source, "line"]))
    ensures RunsLinked(snapshot, files, parse, search, ratio, runs + [run], doc)
  {
  }

  lemma {:induction false} SkipSource(snapshot: Doc, order: seq<string>, i: nat, runs: seq<Run>, doc: Doc)
    requires MainState(snapshot, order, i, runs, doc) && i < |order|
    requires IsDone(snapshot, order[i]) == Some(true)
    ensures MainState(snapshot, order, i + 1, runs, doc)
  {
    assert order[..i + 1][..i] == order[..i] && order[..i + 1][i] == order[i];
    assert Pending(snapshot, order[..i + 1]) == Pending(snapshot, order[..i]);
  }

  lemma {:induction false} RecordSource(snapshot: Doc, order: seq<string>, i: nat, runs: seq<Run>, doc: Doc, run: Run, doc': Doc)
    requires MainState(snapshot, order, i, runs, doc) && i < |order| && Distinct(order)
    requires IsDone(snapshot, order[i]) == Some(false)
    requires run.source == order[i] && run.status.Finished?
    requires Follow(doc', [order[i], "status"]) == Found(Leaf(JBool(true)))
    requires forall k :: k != order[i] ==> Follow(doc', [k, "status"]) == Follow(doc, [k, "status"])
    requires forall k :: k != order[i] ==> Follow(doc', [k, "line"]) == Follow(doc, [k, "line"])
    ensures MainState(snapshot, order, i + 1, runs + [run], doc')
  {
    var key := order[i];
    assert order[..i + 1][..i] == order[..i] && order[..i + 1][i] == key;
    assert Pending(snapshot, order[..i + 1]) == Pending(snapshot, order[..i]) + [key];
    assert (runs + [run])[..|runs|] == runs;
    forall r | r in runs
      ensures Follow(doc', [r.source, "status"]) == Found(Leaf(JBool(true)))
    {
      assert r.source != key;
    }
  }

  /** One pass of the main loop for a source that is not done:
      `process_and_link_entities` into the filtered-entities path, then the
      status set to `True` when it finishes. No other source's status or
      line changes. */
  method LinkAndMark(key: string, inputPath: string, lines: seq<string>, cursor: Doc, parse: Extraction.Parser,
                     search: Searcher, ratio: Ratio, store: ProgressFile)
    returns (run: Run)
    requires Follow(store.doc, [key, "status"]).Found? && Follow(store.doc, [key, "line"]).Found?
    modifies store
    ensures run.source == key && run.input == inputPath
    ensures RunLinked(run, lines, parse, search, ratio, cursor, Follow(old(store.doc), [key, "line"]), Follow(store.doc, [key, "line"]))
    ensures run.status.Finished? ==> Follow(store.doc, [key, "status"]) == Found(Leaf(JBool(true)))
    ensures forall k :: k != key ==> Follow(store.doc, [k, "status"]) == Follow(old(store.doc), [k, "status"])
    ensures forall k :: k != key ==> Follow(store.doc, [k, "line"]) == Follow(old(store.doc), [k, "line"])
    ensures !run.status.Finished? ==> Follow(store.doc, [key, "status"]) == Follow(old(store.doc), [key, "status"])
    ensures forall q :: Diverge([key, "line"], q) && Diverge([key, "status"], q) ==> Follow(store.doc, q) == Follow(old(store.doc), q)
  {
    ghost var d0 := store.doc;
    var outputPath := Paths.FilteredEntitiesPath(inputPath);
    var written, status := ProcessAndLink(key, lines, cursor, parse, search, ratio, store);
    run := Run(key, inputPath, outputPath, written, status);
    ghost var path := [key, "line"];
    ghost var s := StartOf(cursor, |lines|);
    if s.Some? || lines == [] {
      var start := if s.Some? then s.value else 1;
      var mark := if status.Finished? then Some(LastLine(lines)) else LastFlush(start, status.line, FlushEvery);
      MarkedAt(d0, path, mark);
    }
    assert RunLinked(run, lines, parse, search, ratio, cursor, Follow(d0, path), Follow(store.doc, path));
    forall k
      ensures Follow(store.doc, [k, "status"]) == Follow(d0, [k, "status"])
    {
      DivergeAt([key, "line"], [k, "status"], 1);
    }
    forall k | k != key
      ensures Follow(store.doc, [k, "line"]) == Follow(d0, [k, "line"])
    {
      DivergeAt([key, "line"], [k, "line"], 0);
    }
    if status.Finished? {
      ghost var before := store.doc;
      var raised := store.UpdateOrRaise([key, "status"], JBool(true));
      UpdateSets(before, [key, "status"], JBool(true));
      assert !raised;
      forall k | k != key
        ensures Follow(store.doc, [k, "status"]) == Follow(d0, [k, "status"])
        ensures Follow(store.doc, [k, "line"]) == Follow(d0, [k, "line"])
      {
        DivergeAt([key, "status"], [k, "status"], 0);
        DivergeAt([key, "status"], [k, "line"], 0);
      }
      DivergeAt([key, "status"], path, 1);
    }
  }
}
