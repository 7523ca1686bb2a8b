/**
 * The cleaning stage (scripts/prep_data.py): `clean_comments` and
 * `clean_submissions` read the extracted JSON lines, drop or rewrite records
 * and write the survivors in batches of 100.
 *
 * The two functions run the same loop and differ only in the per-record
 * verdict, so the loop is modelled once, with the kind of file as a parameter.
 * JSON parsing and `json.dumps` are parameters.
 */
module Cleaning {
  import opened Json
  import opened Text
  import Extraction
  import Paths

  datatype Kind = Comments | Submissions

  /** What the loop does with one parsed record: keep it (possibly rewritten),
      skip it, or raise (a missing key or a `.split()` on a non-string is not
      caught). */
  datatype Verdict = Keep(obj: Obj) | Drop | Crash

  const MinWords: nat := 3
  const BatchSize: nat := 100

  /** The `in deleted_or_removed` list of `clean_submissions`. */
  const DeletedMarkers: seq<string> :=
    ["[deleted]", "deleted", "[deleted", "deleted]", "[removed]", "removed", "[removed", "removed]"]

  predicate IsText(v: Json) { v.JStr? }

  /** A string with fewer than three whitespace-separated words. */
  predicate Short(v: Json)
    requires IsText(v)
  {
    WordCount(v.s) < MinWords
  }

  /** The filters of `clean_comments`, in their order: AutoModerator's comments,
      deleted or removed bodies, and bodies under three words are skipped. */
  function CommentVerdict(obj: Obj): (v: Verdict)
    ensures v.Keep? <==>
      && "author" in obj && obj["author"] != JStr("AutoModerator")
      && "body" in obj && IsText(obj["body"])
      && obj["body"].s != "[deleted]" && obj["body"].s != "[removed]"
      && !Short(obj["body"])
    ensures v.Keep? ==> v.obj == obj
    ensures v.Crash? <==>
      || "author" !in obj
      || (obj["author"] != JStr("AutoModerator") && ("body" !in obj || !IsText(obj["body"])))
  {
    if "author" !in obj then Crash
    else if obj["author"] == JStr("AutoModerator") then Drop
    else if "body" !in obj then Crash
    else if obj["body"] == JStr("[deleted]") || obj["body"] == JStr("[removed]") then Drop
    else if !IsText(obj["body"]) then Crash
    else if Short(obj["body"]) then Drop
    else Keep(obj)
  }

  /** The rules of `clean_submissions`: a record is skipped when both its title
      and its body are under three words; a deleted or removed body is replaced
      by null and the record is kept. The body is looked at only when the
      title is short, and then again for the marker test. */
  function SubmissionVerdict(obj: Obj): (v: Verdict)
    ensures v.Drop? <==>
      && "title" in obj && IsText(obj["title"]) && Short(obj["title"])
      && "body" in obj && IsText(obj["body"]) && Short(obj["body"])
    ensures v.Crash? <==>
      || "title" !in obj || !IsText(obj["title"]) || "body" !in obj
      || (Short(obj["title"]) && !IsText(obj["body"]))
    ensures v.Keep? ==>
      && "body" in obj
      && v.obj.Keys == obj.Keys
      && (forall k :: k in obj && k != "body" ==> v.obj[k] == obj[k])
      && v.obj["body"] == (if obj["body"].JStr? && obj["body"].s in DeletedMarkers then JNull else obj["body"])
  {
    if "title" !in obj || !IsText(obj["title"]) then Crash
    else if Short(obj["title"]) && ("body" !in obj || !IsText(obj["body"])) then Crash
    else if Short(obj["title"]) && Short(obj["body"]) then Drop
    else if "body" !in obj then Crash
    else if obj["body"].JStr? && obj["body"].s in DeletedMarkers then Keep(obj["body" := JNull])
    else Keep(obj)
  }

  function VerdictOf(kind: Kind, obj: Obj): Verdict {
    match kind
    case Comments => CommentVerdict(obj)
    case Submissions => SubmissionVerdict(obj)
  }

  /** One input line: `json.loads(line.strip())`; a line that does not parse is
      skipped, one that parses to a non-object raises at the first key lookup. */
  function LineVerdict(kind: Kind, parse: Extraction.Parser, line: string): Verdict {
    match parse(Strip(line))
    case Malformed => Drop
    case NotObject => Crash
    case Object(obj) => VerdictOf(kind, obj)
  }

  /** The serialised records the stage writes for `lines`, in input order. */
  function Cleaned(kind: Kind, parse: Extraction.Parser, dump: Obj -> string, lines: seq<string>): seq<string> {
    if lines == [] then []
    else
      var rest := Cleaned(kind, parse, dump, lines[..|lines| - 1]);
      match LineVerdict(kind, parse, lines[|lines| - 1])
      case Keep(obj) => rest + [dump(obj)]
      case _ => rest
  }

  datatype Status = Completed | LineFailed(line: nat)

  /** Each write is `"\n".join(batch) + "\n"` of one batch of 100 records, and
      the file holds the records of all batches, each followed by a newline. */
  ghost predicate FullBatches(writes: seq<string>, batches: seq<seq<string>>) {
    && |writes| == |batches|
    && (forall j :: 0 <= j < |writes| ==> writes[j] == Terminated(batches[j]) && |batches[j]| == BatchSize)
    && Concat(writes) == Terminated(Concat(batches))
  }

  /** As `FullBatches`, except that the last batch may hold from 1 to 100
      records. */
  ghost predicate Batched(writes: seq<string>, batches: seq<seq<string>>) {
    && |writes| == |batches|
    && (forall j :: 0 <= j < |writes| ==> writes[j] == Terminated(batches[j]) && 1 <= |batches[j]| <= BatchSize)
    && (forall j :: 0 <= j < |batches| - 1 ==> |batches[j]| == BatchSize)
    && Concat(writes) == Terminated(Concat(batches))
  }

  lemma {:induction false} FullIsBatched(writes: seq<string>, batches: seq<seq<string>>)
    requires FullBatches(writes, batches)
    ensures Batched(writes, batches)
  {
  }

  /** `clean_comments` / `clean_submissions`. `writes` are the `outfile.write`
      calls, in order; `batches` the records each one wrote. Whatever the
      batching, the file holds every kept record followed by a newline, in input
      order; every batch but the last holds exactly 100 records. When a line
      raises, the records still pending (fewer than 100) are lost. */
  method CleanFile(kind: Kind, path: string, lines: seq<string>, parse: Extraction.Parser, dump: Obj -> string)
    returns (outputPath: string, writes: seq<string>, status: Status, ghost batches: seq<seq<string>>)
    ensures outputPath == Paths.PreppedPath(path)
    ensures Batched(writes, batches)
    ensures status.Completed? ==>
      && (forall i :: 0 <= i < |lines| ==> !LineVerdict(kind, parse, lines[i]).Crash?)
      && Concat(batches) == Cleaned(kind, parse, dump, lines)
    ensures status.LineFailed? ==>
      && status.line < |lines|
      && LineVerdict(kind, parse, lines[status.line]).Crash?
      && (forall i :: 0 <= i < status.line ==> !LineVerdict(kind, parse, lines[i]).Crash?)
      && FullBatches(writes, batches)
      && var all := Cleaned(kind, parse, dump, lines[..status.line]);
         Concat(batches) <= all && |all| - |Concat(batches)| < BatchSize
  {
    outputPath := Paths.PreppedPath(path);
    var pending;
    writes, batches, pending, status := CleanLines(kind, lines, parse, dump);
    if status.Completed? {
      FullIsBatched(writes, batches);
      if pending != [] {
        ConcatSnoc(batches, pending);
        writes, batches := FlushLast(writes, batches, pending);
      }
    } else {
      FullIsBatched(writes, batches);
    }
  }

  /** The loop over the input lines of `CleanFile`: the full batches it wrote and
      the records still pending when it stops. */
  method CleanLines(kind: Kind, lines: seq<string>, parse: Extraction.Parser, dump: Obj -> string)
    returns (writes: seq<string>, ghost batches: seq<seq<string>>, pending: seq<string>, status: Status)
    ensures FullBatches(writes, batches) && |pending| < BatchSize
    ensures status.Completed? ==>
      && (forall i :: 0 <= i < |lines| ==> !LineVerdict(kind, parse, lines[i]).Crash?)
      && Concat(batches) + pending == Cleaned(kind, parse, dump, lines)
    ensures status.LineFailed? ==>
      && status.line < |lines|
      && LineVerdict(kind, parse, lines[status.line]).Crash?
      && (forall i :: 0 <= i < status.line ==> !LineVerdict(kind, parse, lines[i]).Crash?)
      && Concat(batches) + pending == Cleaned(kind, parse, dump, lines[..status.line])
  {
    writes, batches, pending := [], [], [];
    for i := 0 to |lines|
      invariant CleanedUpTo(kind, parse, dump, lines, i, batches, pending)
      invariant |pending| < BatchSize
      invariant FullBatches(writes, batches)
    {
      var crashed;
      writes, batches, pending, crashed := CleanOne(kind, lines, i, parse, dump, writes, batches, pending);
      if crashed {
        return writes, batches, pending, LineFailed(i);
      }
    }
    assert lines[..|lines|] == lines;
    status := Completed;
  }

  /** No line before `i` crashes, and the records gathered so far are the
      cleaned first `i` lines. */
  ghost predicate CleanedUpTo(kind: Kind, parse: Extraction.Parser, dump: Obj -> string, lines: seq<string>, i: nat,
                              batches: seq<seq<string>>, pending: seq<string>)
    requires i <= |lines|
  {
    && (forall j :: 0 <= j < i ==> !LineVerdict(kind, parse, lines[j]).Crash?)
    && Concat(batches) + pending == Cleaned(kind, parse, dump, lines[..i])
  }

  /** The loop body for line `i`: stop on a crash, otherwise keep or drop the
      line. */
  method CleanOne(kind: Kind, lines: seq<string>, i: nat, parse: Extraction.Parser, dump: Obj -> string,
                  writes: seq<string>, ghost batches: seq<seq<string>>, pending: seq<string>)
    returns (writes': seq<string>, ghost batches': seq<seq<string>>, pending': seq<string>, crashed: bool)
    requires i < |lines| && CleanedUpTo(kind, parse, dump, lines, i, batches, pending)
    requires FullBatches(writes, batches) && |pending| < BatchSize
    ensures FullBatches(writes', batches') && |pending'| < BatchSize
    ensures crashed ==> LineVerdict(kind, parse, lines[i]).Crash? && writes' == writes && batches' == batches && pending' == pending
    ensures !crashed ==> CleanedUpTo(kind, parse, dump, lines, i + 1, batches', pending')
  {
    writes', batches', pending' := writes, batches, pending;
    var verdict := LineVerdict(kind, parse, lines[i]);
    crashed := verdict.Crash?;
    if crashed {
      return;
    }
    assert Cleaned(kind, parse, dump, lines[..i + 1])
        == Cleaned(kind, parse, dump, lines[..i]) + (if verdict.Keep? then [dump(verdict.obj)] else []) by {
      CleanedStep(kind, parse, dump, lines, i);
    }
    if verdict.Keep? {
      writes', batches', pending' := Accumulate(writes, batches, pending, dump(verdict.obj));
    }
  }

  /** `valid_lines.append(...)`, then the write of the batch once it holds 100
      records. */
  method Accumulate(writes: seq<string>, ghost batches: seq<seq<string>>, pending: seq<string>, record: string)
    returns (writes': seq<string>, ghost batches': seq<seq<string>>, pending': seq<string>)
    requires FullBatches(writes, batches) && |pending| < BatchSize
    ensures FullBatches(writes', batches') && |pending'| < BatchSize
    ensures Concat(batches') + pending' == Concat(batches) + pending + [record]
    ensures writes <= writes'
  {
    pending' := pending + [record];
    writes', batches' := writes, batches;
    if |pending'| >= BatchSize {
      ConcatSnoc(batches, pending');
      writes', batches' := Flush(writes, batches, pending');
      pending' := [];
    }
  }

  /** `outfile.write("\n".join(batch) + "\n")` of a full batch. */
  method Flush(writes: seq<string>, ghost batches: seq<seq<string>>, batch: seq<string>)
    returns (writes': seq<string>, ghost batches': seq<seq<string>>)
    requires |batch| == BatchSize && FullBatches(writes, batches)
    ensures writes' == writes + [Terminated(batch)] && batches' == batches + [batch]
    ensures FullBatches(writes', batches')
  {
    JoinLinesTerminated(batch);
    writes' := writes + [JoinLines(batch) + "\n"];
    batches' := batches + [batch];
    ConcatSnoc(writes, Terminated(batch));
    ConcatSnoc(batches, batch);
    TerminatedAppend(Concat(batches), batch);
  }

  /** The final `outfile.write` of the records still pending. */
  method FlushLast(writes: seq<string>, ghost batches: seq<seq<string>>, batch: seq<string>)
    returns (writes': seq<string>, ghost batches': seq<seq<string>>)
    requires 1 <= |batch| <= BatchSize && FullBatches(writes, batches)
    ensures writes' == writes + [Terminated(batch)] && batches' == batches + [batch]
    ensures Batched(writes', batches')
  {
    JoinLinesTerminated(batch);
    writes' := writes + [JoinLines(batch) + "\n"];
    batches' := batches + [batch];
    ConcatSnoc(writes, Terminated(batch));
    ConcatSnoc(batches, batch);
    TerminatedAppend(Concat(batches), batch);
  }

  /** What one more line adds to `Cleaned`. */
  lemma {:induction false} CleanedStep(kind: Kind, parse: Extraction.Parser, dump: Obj -> string, lines: seq<string>, i: nat)
    requires i < |lines|
    ensures var v := LineVerdict(kind, parse, lines[i]);
      Cleaned(kind, parse, dump, lines[..i + 1])
      == Cleaned(kind, parse, dump, lines[..i]) + (if v.Keep? then [dump(v.obj)] else [])
  {
    assert lines[..i + 1][..i] == lines[..i];
  }
}
