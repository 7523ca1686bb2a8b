/**
 * The POSIX `os.path` operations the stages use to derive their output file from
 * their input file (`split`, `splitext`, `join`), and each stage's rule.
 */
module Paths {
  import Text

  /** `s.rfind(c)`: the index of the last `c`, or -1. */
  function LastIndex(s: string, c: char): (i: int)
    ensures -1 <= i < |s|
    ensures i >= 0 ==> s[i] == c
    ensures forall j :: i < j < |s| ==> s[j] != c
  {
    if s == [] then -1
    else if s[|s| - 1] == c then |s| - 1
    else LastIndex(s[..|s| - 1], c)
  }

  /** `s.rstrip("/")` */
  function RStripSlashes(s: string): (r: string)
    ensures |r| <= |s| && r == s[..|r|]
    ensures AllSlashes(s[|r|..])
    ensures r != [] ==> r[|r| - 1] != '/'
    decreases |s|
  {
    if s != [] && s[|s| - 1] == '/' then RStripSlashes(s[..|s| - 1]) else s
  }

  predicate AllSlashes(s: string) {
    forall i :: 0 <= i < |s| ==> s[i] == '/'
  }

  /** `os.path.split(p)`: the directory part (trailing slashes removed unless it
      is all slashes) and the final component. */
  function Split(p: string): (r: (string, string))
    ensures '/' !in r.1
    ensures |r.1| <= |p| && p[|p| - |r.1|..] == r.1
    ensures |r.1| < |p| ==> p[|p| - |r.1| - 1] == '/'
    ensures var head := p[..|p| - |r.1|];
      AllSlashes(head) ==> r.0 == head
    ensures var head := p[..|p| - |r.1|];
      !AllSlashes(head) ==>
        && r.0 != [] && r.0[|r.0| - 1] != '/'
        && |r.0| <= |head| && r.0 == head[..|r.0|] && AllSlashes(head[|r.0|..])
  {
    var i := LastIndex(p, '/') + 1;
    var head := p[..i];
    var tail := p[i..];
    assert forall j :: 0 <= j < |tail| ==> tail[j] == p[i + j];
    var head' := if head != [] && !AllSlashes(head) then RStripSlashes(head) else head;
    (head', tail)
  }

  /** Index where `os.path.splitext(p)` cuts, or |p| when there is no extension:
      the last dot after the last slash, provided some character before it in
      the final component is not a dot. */
  function ExtIndex(p: string): (k: nat)
    ensures k <= |p|
  {
    var sepIndex := LastIndex(p, '/');
    var dotIndex := LastIndex(p, '.');
    if dotIndex > sepIndex && exists j :: sepIndex + 1 <= j < dotIndex && p[j] != '.'
    then dotIndex else |p|
  }

  /** `os.path.splitext(p)` */
  function SplitExt(p: string): (r: (string, string))
    ensures r.0 + r.1 == p
    ensures r.1 == [] || (r.1[0] == '.' && '/' !in r.1 && '.' !in r.1[1..])
  {
    var k := ExtIndex(p);
    assert p[..k] + p[k..] == p;
    (p[..k], p[k..])
  }

  /** `os.path.join(a, b)` for two components. */
  function Join(a: string, b: string): (r: string)
    ensures |r| >= |b|
    ensures |b| > 0 && b[0] == '/' ==> r == b
    ensures !(|b| > 0 && b[0] == '/') ==>
      var d := r[..|r| - |b|];
      && r[|r| - |b|..] == b
      && (d == a || d == a + "/")
      && (d == [] || d[|d| - 1] == '/')
      && (d == a <==> a == [] || a[|a| - 1] == '/')
  {
    if |b| > 0 && b[0] == '/' then b
    else if a == [] || a[|a| - 1] == '/' then a + b
    else a + "/" + b
  }

  /** Output file of the raw-archive extraction: `raw_data` becomes
      `extracted_data` in the directory and the extension becomes `.jsonl`. */
  function ExtractedPath(p: string): string {
    var (dir, name) := Split(p);
    Join(Text.ReplaceAll(dir, "raw_data", "extracted_data"), SplitExt(name).0 + ".jsonl")
  }

  /** Output file of the submissions extraction script: the extension becomes `.json`. */
  function SubmissionsJsonPath(p: string): string {
    SplitExt(p).0 + ".json"
  }

  /** Output file of the cleaning stage: `extracted_data` becomes `prepped_data`
      in the directory and the extension becomes `_prepped.jsonl`. */
  function PreppedPath(p: string): string {
    var (dir, name) := Split(p);
    Join(Text.ReplaceAll(dir, "extracted_data", "prepped_data"), SplitExt(name).0 + "_prepped.jsonl")
  }

  /** Output file of the triple-extraction stage. */
  function RawEntitiesPath(p: string): string {
    var (dir, name) := Split(p);
    Join(Text.ReplaceAll(dir, "prepped_data", "raw_entities"), Text.ReplaceAll(name, "_prepped", "_raw_entities"))
  }

  /** Output file of the entity-linking stage. */
  function FilteredEntitiesPath(p: string): string {
    var (dir, name) := Split(p);
    Join(Text.ReplaceAll(dir, "raw_entities", "filtered_entities"),
         Text.ReplaceAll(name, "_raw_entities", "_filtered_entities"))
  }

  /** The final component never starts with a slash, so the stem of its
      extension split does not either. */
  lemma {:induction false} StemOfName(name: string)
    requires '/' !in name
    ensures '/' !in SplitExt(name).0
  {
    var r := SplitExt(name);
    assert forall j :: 0 <= j < |r.0| ==> r.0[j] == name[j];
  }

  /** Joining a slash-free final component to a directory and splitting the
      result gives that component back, behind the directory or the directory
      and one slash. */
  lemma {:induction false} JoinedName(d: string, b: string)
    requires b != [] && '/' !in b
    ensures var out := Join(d, b);
      && |out| >= |b| && Split(out).1 == b
      && (out[..|out| - |b|] == d || out[..|out| - |b|] == d + "/")
  {
    assert b[0] != '/' by { assert b[0] in b; }
    var out := Join(d, b);
    var x := out[..|out| - |b|];
    assert out == x + b;
    var i := LastIndex(out, '/');
    assert i == |x| - 1;
    assert out[|x|..] == b;
  }

  /** A slash-free stem followed by a slash-free suffix, joined to a
      directory, is the final component of the result. */
  lemma {:induction false} DerivedShape(d: string, stem: string, suffix: string)
    requires '/' !in stem && '/' !in suffix && suffix != []
    ensures var b := stem + suffix; var out := Join(d, b);
      && |out| >= |b| && Split(out).1 == b
      && (out[..|out| - |b|] == d || out[..|out| - |b|] == d + "/")
  {
    var b := stem + suffix;
    assert '/' !in b by {
      forall j | 0 <= j < |b| ensures b[j] != '/' {
        if j < |stem| {
          assert b[j] == stem[j];
        } else {
          assert b[j] == suffix[j - |stem|];
        }
      }
    }
    JoinedName(d, b);
  }

  /** The cleaning stage writes `<stem>_prepped.jsonl`, where `<stem>` is the
      input's final component without its extension, into the input's
      directory with `extracted_data` rewritten to `prepped_data`. */
  lemma {:induction false} PreppedPathShape(p: string)
    ensures var out := PreppedPath(p);
      var b := SplitExt(Split(p).1).0 + "_prepped.jsonl";
      var d := Text.ReplaceAll(Split(p).0, "extracted_data", "prepped_data");
      && |out| >= |b| && Split(out).1 == b
      && (out[..|out| - |b|] == d || out[..|out| - |b|] == d + "/")
  {
    var name := Split(p).1;
    StemOfName(name);
    var suffix := "_prepped.jsonl";
    assert '/' !in suffix;
    DerivedShape(Text.ReplaceAll(Split(p).0, "extracted_data", "prepped_data"), SplitExt(name).0, suffix);
  }

  /** The extraction stage writes `<stem>.jsonl`, where `<stem>` is the
      archive's final component without its extension, into the archive's
      directory with `raw_data` rewritten to `extracted_data`. */
  lemma {:induction false} ExtractedPathShape(p: string)
    ensures var out := ExtractedPath(p);
      var b := SplitExt(Split(p).1).0 + ".jsonl";
      var d := Text.ReplaceAll(Split(p).0, "raw_data", "extracted_data");
      && |out| >= |b| && Split(out).1 == b
      && (out[..|out| - |b|] == d || out[..|out| - |b|] == d + "/")
  {
    var name := Split(p).1;
    StemOfName(name);
    var suffix := ".jsonl";
    assert '/' !in suffix;
    DerivedShape(Text.ReplaceAll(Split(p).0, "raw_data", "extracted_data"), SplitExt(name).0, suffix);
  }

  /** The submissions script replaces only the extension: the result is the
      input without its extension, then `.json`. */
  lemma {:induction false} SubmissionsJsonPathShape(p: string)
    ensures var out := SubmissionsJsonPath(p);
      out[..|out| - 5] + SplitExt(p).1 == p && out[|out| - 5..] == ".json"
  {
  }
}
