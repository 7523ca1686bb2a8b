/**
 * Record extraction from the decompressed archive (scripts/extract_data.py,
 * `process_file`): every line the reader yields is parsed as JSON, remapped to
 * the configured field names and written out at once; lines that do not parse
 * or that lack `created_utc` are counted as bad.
 *
 * The specification functions here (`Kept`, `BadLines`, `CrashesOn`) are shared
 * with the submissions extraction script, which runs the same loop with a fixed
 * record layout.
 */
module Extraction {
  import opened Base
  import opened Json
  import opened StreamReader
  import opened Text
  import Paths

  /** `json.loads(line)`: a decoding error, a value that is not an object (no
      `.get`, so the next step raises), or an object. */
  datatype Parsed = Malformed | NotObject | Object(obj: Obj)
  type Parser = string -> Parsed

  const RedditPrefix: string := "https://www.reddit.com/"

  /** Progress is logged every this many lines; the log line formats the last
      `created` timestamp and raises while there is none. */
  const LogInterval: nat := 100000

  /** How `datetime.fromtimestamp(int(obj['created_utc']))` ends: `KeyError`
      (caught and counted), an `int()` failure (not caught), or a timestamp. */
  datatype Stamp = Missing | Unconvertible | Stamped(seconds: int)

  function CreatedStamp(obj: Obj): Stamp {
    if "created_utc" !in obj then Missing
    else match IntOf(obj["created_utc"])
      case None => Unconvertible
      case Some(t) => Stamped(t)
  }

  /** Builds the output record of a parsed object. */
  type Builder = Obj -> Record

  /** Whether some line of `lines` set `created`. */
  function AnyStamped(parse: Parser, lines: seq<string>): bool {
    if lines == [] then false
    else
      var p := parse(lines[|lines| - 1]);
      AnyStamped(parse, lines[..|lines| - 1]) || (p.Object? && CreatedStamp(p.obj).Stamped?)
  }

  /** Line `i` ends the run: it is not an object, its `created_utc` does not
      convert, or it completes a multiple of `LogInterval` lines before any
      timestamp was seen. */
  predicate CrashesOn(parse: Parser, lines: seq<string>, i: nat)
    requires i < |lines|
  {
    var p := parse(lines[i]);
    || p.NotObject?
    || (p.Object? && CreatedStamp(p.obj).Unconvertible?)
    || ((i + 1) % LogInterval == 0 && !AnyStamped(parse, lines[..i + 1]))
  }

  /** The records written for `lines`: one per line that parses to an object,
      in line order. */
  function Kept(parse: Parser, build: Builder, lines: seq<string>): seq<Record> {
    if lines == [] then []
    else
      var rest := Kept(parse, build, lines[..|lines| - 1]);
      match parse(lines[|lines| - 1])
      case Object(obj) => rest + [build(obj)]
      case _ => rest
  }

  /** `bad_lines`: the lines that do not parse plus the objects without
      `created_utc`. */
  function BadLines(parse: Parser, lines: seq<string>): nat {
    if lines == [] then 0
    else
      var p := parse(lines[|lines| - 1]);
      BadLines(parse, lines[..|lines| - 1])
        + (if p.Malformed? || (p.Object? && CreatedStamp(p.obj).Missing?) then 1 else 0)
  }

  /** The lines that do not parse. */
  function MalformedLines(parse: Parser, lines: seq<string>): nat {
    if lines == [] then 0
    else MalformedLines(parse, lines[..|lines| - 1]) + (if parse(lines[|lines| - 1]).Malformed? then 1 else 0)
  }

  /** In a run no line ended, every line was either written or counted as
      malformed, and `bad_lines` counts at least the malformed ones. */
  lemma {:induction false} EveryLineAccounted(parse: Parser, build: Builder, lines: seq<string>)
    requires forall i :: 0 <= i < |lines| ==> !parse(lines[i]).NotObject?
    ensures |Kept(parse, build, lines)| + MalformedLines(parse, lines) == |lines|
    ensures MalformedLines(parse, lines) <= BadLines(parse, lines) <= |lines|
  {
    if lines != [] {
      var init := lines[..|lines| - 1];
      assert forall i :: 0 <= i < |init| ==> init[i] == lines[i];
      EveryLineAccounted(parse, build, init);
    }
  }

  /** One entry of the configuration's `values` list: the key in the archive
      and the name it gets in the output. */
  type Mapping = (string, string)

  function NewNames(keys: seq<Mapping>): (names: seq<string>)
    ensures |names| == |keys|
    ensures forall i :: 0 <= i < |keys| ==> names[i] == keys[i].1
  {
    if keys == [] then [] else [keys[0].1] + NewNames(keys[1..])
  }

  /** The value stored for an original key: `obj.get(key)`, with the Reddit
      prefix put in front of a truthy `permalink`. */
  function Field(obj: Obj, original: string): Json {
    var v := Get(obj, original);
    if original == "permalink" && Truthy(v) then JStr(RedditPrefix + Str(v)) else v
  }

  /** The record `process_file` builds, one dict assignment per mapping in
      configuration order. */
  function Remap(obj: Obj, keys: seq<Mapping>): Record {
    if keys == [] then []
    else
      var (original, name) := keys[|keys| - 1];
      Put(Remap(obj, keys[..|keys| - 1]), name, Field(obj, original))
  }

  function RemapBy(keys: seq<Mapping>): Builder {
    obj => Remap(obj, keys)
  }

  /** The inner loop of `process_file` over the configured mappings. */
  method BuildRecord(obj: Obj, keys: seq<Mapping>) returns (record: Record)
    ensures record == Remap(obj, keys)
  {
    record := [];
    for i := 0 to |keys|
      invariant record == Remap(obj, keys[..i])
    {
      var (original, name) := keys[i];
      var value := Get(obj, original);
      if original == "permalink" && Truthy(value) {
        value := JStr(RedditPrefix + Str(value));
      }
      assert keys[..i + 1][..i] == keys[..i];
      record := Put(record, name, value);
    }
    assert keys[..|keys|] == keys;
  }

  /** The record's keys are distinct, whatever names the configuration repeats. */
  lemma {:induction false} RemapDistinct(obj: Obj, keys: seq<Mapping>)
    ensures Distinct(Keys(Remap(obj, keys)))
  {
    if keys != [] {
      var init := keys[..|keys| - 1];
      RemapDistinct(obj, init);
      PutDistinct(Remap(obj, init), keys[|keys| - 1].1, Field(obj, keys[|keys| - 1].0));
    }
  }

  /** The record's keys are exactly the configured new names. */
  lemma {:induction false} RemapKeys(obj: Obj, keys: seq<Mapping>)
    ensures forall k :: k in Keys(Remap(obj, keys)) <==> k in NewNames(keys)
  {
    RemapKeyOrder(obj, keys);
    PutNamesMembers(NewNames(keys));
  }

  /** The key order of a record built by putting `names` in turn. */
  function PutNames(names: seq<string>): seq<string> {
    if names == [] then []
    else
      var ks := PutNames(names[..|names| - 1]);
      var x := names[|names| - 1];
      if x in ks then ks else ks + [x]
  }

  lemma {:induction false} RemapKeyOrder(obj: Obj, keys: seq<Mapping>)
    ensures Keys(Remap(obj, keys)) == PutNames(NewNames(keys))
  {
    if keys != [] {
      var init := keys[..|keys| - 1];
      RemapKeyOrder(obj, init);
      var names := NewNames(keys);
      assert names[..|names| - 1] == NewNames(init);
      assert Remap(obj, keys) == Put(Remap(obj, init), keys[|keys| - 1].1, Field(obj, keys[|keys| - 1].0));
    }
  }

  lemma {:induction false} PutNamesMembers(names: seq<string>)
    ensures forall k :: k in PutNames(names) <==> k in names
  {
    if names != [] {
      var init := names[..|names| - 1];
      PutNamesMembers(init);
      assert names == init + [names[|names| - 1]];
    }
  }

  /** A new name holds the field of the last mapping that names it. */
  lemma {:induction false} RemapLastWins(obj: Obj, keys: seq<Mapping>, i: nat)
    requires i < |keys|
    requires forall j :: i < j < |keys| ==> keys[j].1 != keys[i].1
    ensures Lookup(Remap(obj, keys), keys[i].1) == Some(Field(obj, keys[i].0))
  {
    var init := keys[..|keys| - 1];
    var (original, name) := keys[|keys| - 1];
    PutLookup(Remap(obj, init), name, Field(obj, original), keys[i].1);
    if i < |init| {
      assert init[i] == keys[i];
      RemapLastWins(obj, init, i);
    }
  }

  /** With distinct new names the record holds exactly those names in
      configuration order, each with its own field. */
  lemma {:induction false} RemapDistinctNames(obj: Obj, keys: seq<Mapping>)
    requires Distinct(NewNames(keys))
    ensures Keys(Remap(obj, keys)) == NewNames(keys)
    ensures forall i :: 0 <= i < |keys| ==> Lookup(Remap(obj, keys), keys[i].1) == Some(Field(obj, keys[i].0))
  {
    RemapKeysInOrder(obj, keys);
    forall i | 0 <= i < |keys| ensures Lookup(Remap(obj, keys), keys[i].1) == Some(Field(obj, keys[i].0)) {
      RemapLastWins(obj, keys, i);
    }
  }

  lemma {:induction false} RemapKeysInOrder(obj: Obj, keys: seq<Mapping>)
    requires Distinct(NewNames(keys))
    ensures Keys(Remap(obj, keys)) == NewNames(keys)
  {
    if keys != [] {
      var init, last := keys[..|keys| - 1], keys[|keys| - 1];
      var names := NewNames(keys);
      assert names == NewNames(init) + [last.1];
      assert Distinct(NewNames(init)) by {
        forall i, j | 0 <= i < j < |init| ensures NewNames(init)[i] != NewNames(init)[j] {
          assert names[i] != names[j];
        }
      }
      assert last.1 !in NewNames(init) by {
        forall i | 0 <= i < |init| ensures NewNames(init)[i] != last.1 {
          assert names[i] != names[|keys| - 1];
        }
      }
      assert Keys(Remap(obj, init)) == NewNames(init) by {
        RemapKeysInOrder(obj, init);
      }
      assert Remap(obj, keys) == Put(Remap(obj, init), last.1, Field(obj, last.0));
    }
  }

  /** The prefix goes on a `permalink` exactly when the archived value is truthy;
      a missing, null or empty one is written as it is. */
  lemma {:induction false} PermalinkRule(obj: Obj)
    ensures Truthy(Get(obj, "permalink")) ==>
      Field(obj, "permalink") == JStr(RedditPrefix + Str(obj["permalink"]))
    ensures !Truthy(Get(obj, "permalink")) ==> Field(obj, "permalink") == Get(obj, "permalink")
    ensures "permalink" !in obj ==> Field(obj, "permalink") == JNull
  {
  }

  /** What one more line adds to the specification functions. */
  lemma {:induction false} PrefixStep(parse: Parser, build: Builder, lines: seq<string>, i: nat)
    requires i < |lines|
    ensures var p := parse(lines[i]);
      && Kept(parse, build, lines[..i + 1])
         == Kept(parse, build, lines[..i]) + (if p.Object? then [build(p.obj)] else [])
      && BadLines(parse, lines[..i + 1])
         == BadLines(parse, lines[..i]) + (if p.Malformed? || (p.Object? && CreatedStamp(p.obj).Missing?) then 1 else 0)
      && AnyStamped(parse, lines[..i + 1])
         == (AnyStamped(parse, lines[..i]) || (p.Object? && CreatedStamp(p.obj).Stamped?))
  {
    assert lines[..i + 1][..i] == lines[..i];
  }

  /** What the failing line itself adds to the output before the run stops: with
      no extraction keys nothing of the parsed value is touched, so a line that
      parses to something other than an object is still written, as the empty
      record `{}`, and the run stops on its `created_utc` lookup. */
  function CrashWrite(parse: Parser, keys: seq<Mapping>, line: string): (w: seq<Record>)
    ensures w == [] || w == [[]]
    ensures w == [[]] <==> keys == [] && parse(line).NotObject?
  {
    if keys == [] && parse(line).NotObject? then [[]] else []
  }

  /** How a run over the yielded lines ends. */
  datatype Status =
    | Completed(fileLines: nat, badLines: nat)
    | LineFailed(line: nat)
    | ReadFailed(error: DecodeError)

  /** The loop of `process_file` over the yielded lines. `written` is what has
      reached the output file when the loop ends, normally or not. */
  method ProcessLines(lines: seq<string>, keys: seq<Mapping>, parse: Parser)
    returns (written: seq<Record>, status: Status)
    ensures status.Completed? || status.LineFailed?
    ensures status.Completed? ==>
      && (forall i :: 0 <= i < |lines| ==> !CrashesOn(parse, lines, i))
      && written == Kept(parse, RemapBy(keys), lines)
      && status.fileLines == |lines|
      && status.badLines == BadLines(parse, lines)
    ensures status.LineFailed? ==>
      && status.line < |lines|
      && CrashesOn(parse, lines, status.line)
      && (forall i :: 0 <= i < status.line ==> !CrashesOn(parse, lines, i))
      && written == Kept(parse, RemapBy(keys), lines[..status.line + 1])
                    + CrashWrite(parse, keys, lines[status.line])
  {
    written := [];
    var fileLines, badLines := 0, 0;
    var created: Option<int> := None;
    var i := 0;
    while i < |lines|
      invariant i <= |lines|
      invariant forall j :: 0 <= j < i ==> !CrashesOn(parse, lines, j)
      invariant written == Kept(parse, RemapBy(keys), lines[..i])
      invariant fileLines == i && badLines == BadLines(parse, lines[..i])
      invariant created.Some? <==> AnyStamped(parse, lines[..i])
    {
      var crashed;
      written, badLines, created, crashed := ExtractLine(lines, i, keys, parse, written, badLines, created);
      if crashed {
        status := LineFailed(i);
        return;
      }
      fileLines := fileLines + 1;
      if fileLines % LogInterval == 0 && created.None? {
        status := LineFailed(i);
        return;
      }
      i := i + 1;
    }
    assert lines[..i] == lines;
    status := Completed(fileLines, badLines);
  }

  /** The body of the line loop for line `i`, up to the progress log: the
      record is written when the line parses to an object, then its
      `created_utc` is read. `crashed` when that raises. */
  method ExtractLine(lines: seq<string>, i: nat, keys: seq<Mapping>, parse: Parser,
                     written: seq<Record>, badLines: nat, created: Option<int>)
    returns (written': seq<Record>, badLines': nat, created': Option<int>, crashed: bool)
    requires i < |lines|
    requires written == Kept(parse, RemapBy(keys), lines[..i])
    requires badLines == BadLines(parse, lines[..i])
    requires created.Some? <==> AnyStamped(parse, lines[..i])
    ensures var p := parse(lines[i]);
      crashed <==> p.NotObject? || (p.Object? && CreatedStamp(p.obj).Unconvertible?)
    ensures crashed ==> written' == Kept(parse, RemapBy(keys), lines[..i + 1]) + CrashWrite(parse, keys, lines[i])
    ensures !crashed ==>
      && written' == Kept(parse, RemapBy(keys), lines[..i + 1])
      && badLines' == BadLines(parse, lines[..i + 1])
      && (created'.Some? <==> AnyStamped(parse, lines[..i + 1]))
  {
    PrefixStep(parse, RemapBy(keys), lines, i);
    written', badLines', created', crashed := written, badLines, created, false;
    match parse(lines[i]) {
      case Malformed =>
        badLines' := badLines + 1;
      case NotObject =>
        if keys == [] {
          written' := written + [[]];
        }
        crashed := true;
      case Object(obj) =>
        var record := BuildRecord(obj, keys);
        written' := written + [record];
        if "created_utc" !in obj {
          badLines' := badLines + 1;
        } else {
          match IntOf(obj["created_utc"]) {
            case None =>
              crashed := true;
            case Some(t) =>
              created' := Some(t);
          }
        }
    }
  }

  /** `process_file`: the output path, and the lines of the archive run through
      the loop as the reader yields them. A decoding error surfaces after the
      lines read before it were processed. */
  method ExtractFile(path: string, r: Reader, decode: Decoder, keys: seq<Mapping>, parse: Parser)
    returns (outputPath: string, written: seq<Record>, status: Status,
             lines: seq<string>, ghost windows: seq<Bytes>, ghost texts: seq<string>)
    requires r.Valid() && EmptyOnlyFromEmpty(decode)
    modifies r
    ensures outputPath == Paths.ExtractedPath(path)
    ensures r.Valid() && old(r.pos) <= r.pos && Decodes(decode, windows, texts)
    ensures Concat(windows) <= r.stream[old(r.pos)..r.pos]
    ensures lines == CompleteLines(Concat(texts)).0
    ensures !status.LineFailed? ==>
      && (forall i :: 0 <= i < |lines| ==> !CrashesOn(parse, lines, i))
      && written == Kept(parse, RemapBy(keys), lines)
    ensures status.Completed? ==>
      && r.pos == |r.stream|
      && status.fileLines == |lines|
      && status.badLines == BadLines(parse, lines)
    ensures status.LineFailed? ==>
      && status.line < |lines| && CrashesOn(parse, lines, status.line)
      && written == Kept(parse, RemapBy(keys), lines[..status.line + 1])
                    + CrashWrite(parse, keys, lines[status.line])
    ensures status.ReadFailed? ==> status.error.bytesRead > MaxWindow
  {
    outputPath := Paths.ExtractedPath(path);
    var buffer, err; ghost var failed;
    lines, buffer, err, windows, texts, failed := ReadLines(r, decode);
    written, status := ProcessLines(lines, keys, parse);
    if status.Completed? && err.Some? {
      status := ReadFailed(err.value);
    }
  }
}
