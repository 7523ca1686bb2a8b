/**
 * The submissions extraction script (data_extraction/submissions_extraction.py):
 * the same line loop as the raw-data extractor, but with a fixed eight-field
 * record, collected in memory and dumped as one JSON array at the end.
 */
module Submissions {
  import opened Base
  import opened Json
  import opened StreamReader
  import opened Extraction
  import opened Text
  import Paths

  const SubmissionFields: seq<string> :=
    ["title", "body", "number_of_comments", "upvotes", "downvotes", "score", "created", "reddit_url"]

  /** The keys the first seven fields are read from, in field order. */
  const SubmissionSources: seq<string> :=
    ["title", "selftext", "num_comments", "ups", "downs", "score", "created_utc"]

  /** The record literal of the main loop. */
  function SubmissionRecord(obj: Obj): Record {
    [ ("title", Get(obj, "title")),
      ("body", Get(obj, "selftext")),
      ("number_of_comments", Get(obj, "num_comments")),
      ("upvotes", Get(obj, "ups")),
      ("downvotes", Get(obj, "downs")),
      ("score", Get(obj, "score")),
      ("created", Get(obj, "created_utc")),
      ("reddit_url", JStr(RedditPrefix + Str(if "permalink" in obj then obj["permalink"] else JStr("")))) ]
  }

  /** Every record has exactly the eight fields, in order, whatever the object
      holds; `body` comes from `selftext` and a missing key reads as null. */
  lemma {:induction false} SubmissionRecordShape(obj: Obj)
    ensures Keys(SubmissionRecord(obj)) == SubmissionFields
    ensures Distinct(Keys(SubmissionRecord(obj)))
    ensures forall i :: 0 <= i < |SubmissionSources| ==>
      Lookup(SubmissionRecord(obj), SubmissionFields[i]) == Some(Get(obj, SubmissionSources[i]))
    ensures Lookup(SubmissionRecord(obj), "body") == Some(Get(obj, "selftext"))
    ensures "num_comments" !in obj ==> Lookup(SubmissionRecord(obj), "number_of_comments") == Some(JNull)
  {
    var rec := SubmissionRecord(obj);
    assert Keys(rec) == SubmissionFields by {
      RecordKeys(obj);
    }
    assert Distinct(SubmissionFields) by {
      FieldsDistinct();
    }
    forall i | 0 <= i < |SubmissionSources|
      ensures Lookup(rec, SubmissionFields[i]) == Some(Get(obj, SubmissionSources[i]))
    {
      assert rec[i] == (SubmissionFields[i], Get(obj, SubmissionSources[i]));
      assert forall j :: 0 <= j < i ==> Keys(rec)[j] != Keys(rec)[i];
      LookupFirst(rec, i);
    }
    assert SubmissionFields[1] == "body" && SubmissionSources[1] == "selftext";
    assert SubmissionFields[2] == "number_of_comments" && SubmissionSources[2] == "num_comments";
  }

  lemma {:induction false} FieldsDistinct()
    ensures Distinct(SubmissionFields)
  {
    var fs := SubmissionFields;
    forall i, j | 0 <= i < j < |fs|
      ensures fs[i] != fs[j]
    {
      assert fs[i][0] != fs[j][0] || fs[i][1] != fs[j][1] || |fs[i]| != |fs[j]|;
    }
  }

  lemma {:induction false} RecordKeys(obj: Obj)
    ensures Keys(SubmissionRecord(obj)) == SubmissionFields
  {
    var ks := Keys(SubmissionRecord(obj));
    assert |ks| == |SubmissionFields|;
    forall i | 0 <= i < |ks| ensures ks[i] == SubmissionFields[i] {
    }
  }

  /** The URL always carries the prefix: a missing permalink gives the bare
      prefix, a null one the prefix followed by `None`; the raw-data extractor
      leaves both of those as they are. */
  lemma {:induction false} RedditUrlAlwaysPrefixed(obj: Obj)
    ensures var url := Lookup(SubmissionRecord(obj), "reddit_url");
      && url.Some? && url.value.JStr?
      && RedditPrefix <= url.value.s
      && ("permalink" in obj ==> url.value.s == RedditPrefix + Str(obj["permalink"]))
      && ("permalink" !in obj ==> url.value.s == RedditPrefix && Field(obj, "permalink") == JNull)
      && (Get(obj, "permalink") == JNull ==> Field(obj, "permalink") == JNull)
      && (obj == map["permalink" := JNull] ==> url.value.s == RedditPrefix + "None")
  {
    var rec := SubmissionRecord(obj);
    RecordKeys(obj);
    LookupFirst(rec, 7);
  }

  function SubmissionBuilder(): Builder {
    obj => SubmissionRecord(obj)
  }

  /** How the script ends: the array it dumps, with the final counters, or the
      line or the read that raised (nothing is dumped then). */
  datatype Outcome =
    | Dumped(jsonPath: string, data: seq<Record>, fileLines: nat, badLines: nat)
    | LineFailed(line: nat)
    | ReadFailed(error: DecodeError)

  /** The main loop over the yielded lines and the final dump. */
  method ExtractSubmissions(path: string, lines: seq<string>, parse: Parser) returns (out: Outcome)
    ensures out.Dumped? || out.LineFailed?
    ensures out.Dumped? ==>
      && (forall i :: 0 <= i < |lines| ==> !CrashesOn(parse, lines, i))
      && out.jsonPath == Paths.SubmissionsJsonPath(path)
      && out.data == Kept(parse, SubmissionBuilder(), lines)
      && out.fileLines == |lines|
      && out.badLines == BadLines(parse, lines)
    ensures out.LineFailed? ==>
      && out.line < |lines|
      && CrashesOn(parse, lines, out.line)
      && (forall i :: 0 <= i < out.line ==> !CrashesOn(parse, lines, i))
  {
    var data: seq<Record> := [];
    var fileLines, badLines := 0, 0;
    var created: Option<int> := None;
    var i := 0;
    while i < |lines|
      invariant i <= |lines|
      invariant forall j :: 0 <= j < i ==> !CrashesOn(parse, lines, j)
      invariant data == Kept(parse, SubmissionBuilder(), lines[..i])
      invariant fileLines == i && badLines == BadLines(parse, lines[..i])
      invariant created.Some? <==> AnyStamped(parse, lines[..i])
    {
      PrefixStep(parse, SubmissionBuilder(), lines, i);
      match parse(lines[i]) {
        case Malformed =>
          badLines := badLines + 1;
        case NotObject =>
          return Outcome.LineFailed(i);
        case Object(obj) =>
          data := data + [SubmissionRecord(obj)];
          if "created_utc" !in obj {
            badLines := badLines + 1;
          } else {
            match IntOf(obj["created_utc"]) {
              case None =>
                return Outcome.LineFailed(i);
              case Some(t) =>
                created := Some(t);
            }
          }
      }
      fileLines := fileLines + 1;
      if fileLines % LogInterval == 0 && created.None? {
        return Outcome.LineFailed(i);
      }
      i := i + 1;
    }
    assert lines[..i] == lines;
    out := Dumped(Paths.SubmissionsJsonPath(path), data, fileLines, badLines);
  }

  /** The script on an archive: a decoding error raised by the reader ends it
      after the lines read before it, and nothing is dumped. */
  method SubmissionsFile(path: string, r: Reader, decode: Decoder, parse: Parser)
    returns (out: Outcome, lines: seq<string>, ghost windows: seq<Bytes>, ghost texts: seq<string>)
    requires r.Valid() && EmptyOnlyFromEmpty(decode)
    modifies r
    ensures r.Valid() && old(r.pos) <= r.pos && Decodes(decode, windows, texts)
    ensures Concat(windows) <= r.stream[old(r.pos)..r.pos]
    ensures lines == CompleteLines(Concat(texts)).0
    ensures out.Dumped? ==>
      && r.pos == |r.stream|
      && out.jsonPath == Paths.SubmissionsJsonPath(path)
      && out.data == Kept(parse, SubmissionBuilder(), lines)
      && out.fileLines == |lines|
      && out.badLines == BadLines(parse, lines)
    ensures out.LineFailed? ==> out.line < |lines| && CrashesOn(parse, lines, out.line)
    ensures out.ReadFailed? ==>
      && out.error.bytesRead > MaxWindow
      && (forall i :: 0 <= i < |lines| ==> !CrashesOn(parse, lines, i))
  {
    var buffer, err; ghost var failed;
    lines, buffer, err, windows, texts, failed := ReadLines(r, decode);
    out := ExtractSubmissions(path, lines, parse);
    if out.Dumped? && err.Some? {
      out := Outcome.ReadFailed(err.value);
    }
  }
}
