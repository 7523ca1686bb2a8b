/**
 * The progress documents of the two resumable drivers, and the
 * `update_progress_config` function each driver defines
 * (scripts/extract_entities/extract_entities.py and
 * scripts/filter_entities/filter_entities.py). A progress document maps a data
 * source to `{"line": ..., "status": ...}`; the update walks a key path through
 * the loaded document and assigns the value at its end.
 *
 * Both versions walk the same way and differ only in what happens when Python
 * raises during the walk: the extract_entities version catches every exception
 * and leaves the file as it was, the filter_entities version lets it propagate.
 */
module Progress {
  import opened Json
  import opened Text

  /** A document as `json.load` returns it: a scalar, a list or an object. */
  datatype Doc = Leaf(value: Json) | Items(items: seq<Doc>) | Node(fields: map<string, Doc>)

  /** What `key in level` followed by `level[key]` gives: the child, a key that
      is not there, or a Python exception. On a string `in` is a substring test
      and on a list an element test, and when either succeeds the indexing by a
      string raises; on any other scalar `in` itself raises. */
  datatype Reach = Found(doc: Doc) | Absent | Fault

  function Descend(d: Doc, key: string): Reach {
    match d
    case Node(fields) => if key in fields then Found(fields[key]) else Absent
    case Items(xs) => if Leaf(JStr(key)) in xs then Fault else Absent
    case Leaf(v) =>
      if v.JStr? then (if HasSubstring(v.s, key) then Fault else Absent)
      else Fault
  }

  /** The walk over a whole key path. */
  function Follow(d: Doc, path: seq<string>): (r: Reach)
    ensures path == [] ==> r == Found(d)
    ensures r.Found? && path != [] ==> d.Node? && path[0] in d.fields
    decreases |path|
  {
    if path == [] then Found(d)
    else match Descend(d, path[0])
      case Found(child) => Follow(child, path[1..])
      case other => other
  }

  /** The document with the value at `path` replaced by `v`. */
  function Replace(d: Doc, path: seq<string>, v: Doc): Doc
    requires Follow(d, path).Found?
    decreases |path|
  {
    if path == [] then v
    else Node(d.fields[path[0] := Replace(d.fields[path[0]], path[1..], v)])
  }

  /** How one call of `update_progress_config` ends: with the updated document,
      with a key not found (nothing is written), or with an exception (an empty
      path raises at `key_path[-1]`). */
  datatype Outcome = Updated(doc: Doc) | Missing | Raised

  function Update(d: Doc, path: seq<string>, value: Json): Outcome {
    if path == [] then Raised
    else match Follow(d, path)
      case Found(_) => Updated(Replace(d, path, Leaf(value)))
      case Absent => Missing
      case Fault => Raised
  }

  /** The two paths part at some key: neither is a prefix of the other. */
  predicate Diverge(p: seq<string>, q: seq<string>) {
    exists i :: 0 <= i < |p| && i < |q| && p[i] != q[i]
  }

  lemma {:induction false} DivergeAt(p: seq<string>, q: seq<string>, i: nat)
    requires i < |p| && i < |q| && p[i] != q[i]
    ensures Diverge(p, q)
  {
  }

  lemma {:induction false} FollowSplit(d: Doc, a: seq<string>, b: seq<string>)
    ensures Follow(d, a + b) == match Follow(d, a) case Found(c) => Follow(c, b) case r => r
    decreases |a|
  {
    if a == [] {
      assert a + b == b;
    } else {
      assert (a + b)[0] == a[0] && (a + b)[1..] == a[1..] + b;
      match Descend(d, a[0])
      case Found(child) => FollowSplit(child, a[1..], b);
      case _ =>
    }
  }

  lemma {:induction false} ReplaceAt(d: Doc, path: seq<string>, v: Doc)
    requires Follow(d, path).Found?
    ensures Follow(Replace(d, path, v), path) == Found(v)
    decreases |path|
  {
    if path != [] {
      ReplaceAt(d.fields[path[0]], path[1..], v);
    }
  }

  lemma {:induction false} ReplaceOther(d: Doc, path: seq<string>, v: Doc, q: seq<string>)
    requires Follow(d, path).Found? && Diverge(path, q)
    ensures Follow(Replace(d, path, v), q) == Follow(d, q)
    decreases |path|
  {
    var i :| 0 <= i < |path| && i < |q| && path[i] != q[i];
    if path[0] != q[0] {
    } else {
      assert path[1..][i - 1] == path[i] && q[1..][i - 1] == q[i];
      ReplaceOther(d.fields[path[0]], path[1..], v, q[1..]);
    }
  }

  /** Every object on the way to the path is still an object with the same
      keys. */
  lemma {:induction false} ReplaceAlong(d: Doc, path: seq<string>, v: Doc, q: seq<string>)
    requires Follow(d, path).Found? && q < path
    ensures Follow(d, q).Found? && Follow(d, q).doc.Node?
    ensures var r := Follow(Replace(d, path, v), q);
      r.Found? && r.doc.Node? && r.doc.fields.Keys == Follow(d, q).doc.fields.Keys
    decreases |path|
  {
    if q != [] {
      assert q[1..] < path[1..];
      ReplaceAlong(d.fields[path[0]], path[1..], v, q[1..]);
    }
  }

  lemma {:induction false} ReplaceTwice(d: Doc, path: seq<string>, v: Doc, w: Doc)
    requires Follow(d, path).Found?
    ensures Follow(Replace(d, path, v), path).Found?
    ensures Replace(Replace(d, path, v), path, w) == Replace(d, path, w)
    decreases |path|
  {
    ReplaceAt(d, path, v);
    if path != [] {
      ReplaceTwice(d.fields[path[0]], path[1..], v, w);
    }
  }

  /** An update succeeds exactly when every key of a non-empty path is found
      in an object; it then sets the value at the path and leaves every value
      on a diverging path as it was. */
  lemma {:induction false} UpdateSets(d: Doc, path: seq<string>, value: Json)
    ensures Update(d, path, value).Updated? <==> path != [] && Follow(d, path).Found?
    ensures Update(d, path, value).Updated? ==>
      && Follow(Update(d, path, value).doc, path) == Found(Leaf(value))
      && forall q :: Diverge(path, q) ==> Follow(Update(d, path, value).doc, q) == Follow(d, q)
  {
    if path != [] && Follow(d, path).Found? {
      ReplaceAt(d, path, Leaf(value));
      forall q | Diverge(path, q)
        ensures Follow(Replace(d, path, Leaf(value)), q) == Follow(d, q)
      {
        ReplaceOther(d, path, Leaf(value), q);
      }
    }
  }

  /** A second update of the same path overwrites the first. */
  lemma {:induction false} UpdateOverwrites(d: Doc, path: seq<string>, v: Json, w: Json)
    requires Update(d, path, v).Updated?
    ensures Update(Update(d, path, v).doc, path, w) == Update(d, path, w)
  {
    ReplaceTwice(d, path, Leaf(v), Leaf(w));
  }

  /** A key missing from an object on the way leaves the document alone. */
  lemma {:induction false} MissingKey(d: Doc, path: seq<string>, value: Json, i: nat)
    requires i < |path| && Follow(d, path[..i]).Found?
    requires Follow(d, path[..i]).doc.Node? && path[i] !in Follow(d, path[..i]).doc.fields
    ensures Update(d, path, value) == Missing
  {
    assert path == path[..i] + path[i..];
    FollowSplit(d, path[..i], path[i..]);
    assert path[i..][0] == path[i];
  }

  /** A progress file: the document it holds, loaded and saved whole by every
      update. */
  class ProgressFile {
    var doc: Doc

    constructor (initial: Doc)
      ensures doc == initial
    {
      doc := initial;
    }

    /** The traversal of `update_progress_config`: `key in level` and
        `level[key]` for each key in turn. */
    method Traverse(path: seq<string>) returns (r: Reach)
      ensures r == Follow(doc, path)
    {
      var level := doc;
      var i := 0;
      while i < |path|
        invariant i <= |path|
        invariant Follow(doc, path) == Follow(level, path[i..])
      {
        assert path[i..][0] == path[i] && path[i..][1..] == path[i + 1..];
        var next := Descend(level, path[i]);
        if !next.Found? {
          return next;
        }
        level := next.doc;
        i := i + 1;
      }
      r := Found(level);
    }

    /** The extract_entities version: every exception is caught, so only a
        successful update changes the file. */
    method UpdateQuietly(path: seq<string>, value: Json)
      modifies this
      ensures doc == match Update(old(doc), path, value) case Updated(d) => d case _ => old(doc)
    {
      if path == [] {
        return;
      }
      var r := Traverse(path);
      if r.Found? {
        doc := Replace(doc, path, Leaf(value));
      }
    }

    /** The filter_entities version: an exception propagates to the caller,
        reported here as `raised`. */
    method UpdateOrRaise(path: seq<string>, value: Json) returns (raised: bool)
      modifies this
      ensures raised <==> Update(old(doc), path, value).Raised?
      ensures doc == match Update(old(doc), path, value) case Updated(d) => d case _ => old(doc)
    {
      if path == [] {
        return true;
      }
      var r := Traverse(path);
      raised := r.Fault?;
      if r.Found? {
        doc := Replace(doc, path, Leaf(value));
      }
    }
  }
}
