/**
 * What the two resumable drivers (scripts/extract_entities/extract_entities.py,
 * `process_file`, and scripts/filter_entities/filter_entities.py,
 * `process_and_link_entities`) have in common: lines are numbered from 1,
 * lines numbered below the stored cursor are skipped, each line that is not
 * skipped adds its outputs to a pending batch, and every `every` lines the
 * batch is written and the line number stored in the progress document.
 */
module Resume {
  import opened Base
  import opened Json
  import opened Progress

  /** The outputs of the lines numbered from `start` up to `n` (numbering
      from 1), in order: lines before `start` are skipped. */
  function Gathered<T>(ys: seq<seq<T>>, start: int, n: nat): seq<T>
    requires n <= |ys|
  {
    if n == 0 then []
    else Gathered(ys, start, n - 1) + (if n >= start then ys[n - 1] else [])
  }

  lemma {:induction false} GatheredBelowStart<T>(ys: seq<seq<T>>, start: int, n: nat)
    requires n <= |ys| && n < start
    ensures Gathered(ys, start, n) == []
  {
    if n > 0 {
      GatheredBelowStart(ys, start, n - 1);
    }
  }

  lemma {:induction false} GatheredPrefix<T>(ys: seq<seq<T>>, start: int, m: nat, n: nat)
    requires m <= n <= |ys|
    ensures Gathered(ys, start, m) <= Gathered(ys, start, n)
    decreases n - m
  {
    if m < n {
      GatheredPrefix(ys, start, m, n - 1);
    }
  }

  /** A run from `s` up to `n` gives the outputs of lines `s` to `c - 1`
      followed by those of a run from `c`. */
  lemma {:induction false} GatheredSplit<T>(ys: seq<seq<T>>, s: int, c: int, n: nat)
    requires s <= c && 1 <= c <= n + 1 && n <= |ys|
    ensures Gathered(ys, s, n) == Gathered(ys, s, c - 1) + Gathered(ys, c, n)
    decreases n
  {
    if n == c - 1 {
      GatheredBelowStart(ys, c, n);
    } else {
      var head, tail := Gathered(ys, s, c - 1), Gathered(ys, c, n - 1);
      assert Gathered(ys, s, n - 1) == head + tail by {
        GatheredSplit(ys, s, c, n - 1);
      }
      assert Gathered(ys, c, n) == tail + ys[n - 1];
      assert Gathered(ys, s, n) == head + tail + ys[n - 1];
      AppendAssoc(head, tail, ys[n - 1]);
    }
  }

  lemma {:induction false} AppendAssoc<T>(a: seq<T>, b: seq<T>, c: seq<T>)
    ensures a + b + c == a + (b + c)
  {
  }

  /** A run resumed at line `c` drops the outputs of the lines before `c` and
      starts with those of line `c`. */
  lemma {:induction false} GatheredRestart<T>(ys: seq<seq<T>>, c: nat, n: nat)
    requires 1 <= c <= n <= |ys|
    ensures Gathered(ys, 1, n) == Gathered(ys, 1, c - 1) + Gathered(ys, c, n)
    ensures ys[c - 1] <= Gathered(ys, c, n)
  {
    GatheredSplit(ys, 1, c, n);
    GatheredBelowStart(ys, c, c - 1);
    assert Gathered(ys, c, c) == ys[c - 1];
    GatheredPrefix(ys, c, c, n);
  }

  /** A run from the first line that stopped after line `m`, followed by a
      run resumed at `m`: the output of one run from the first line to `n`,
      with line `m`'s outputs a second time right after the first. */
  lemma {:induction false} GatheredResume<T>(ys: seq<seq<T>>, m: nat, n: nat)
    requires 1 <= m <= n <= |ys|
    ensures var once := Gathered(ys, 1, n);
      var before := Gathered(ys, 1, m);
      && before <= once
      && before + Gathered(ys, m, n) == before + ys[m - 1] + once[|before|..]
  {
    GatheredSplit(ys, 1, m + 1, n);
    assert Gathered(ys, m, n) == ys[m - 1] + Gathered(ys, m + 1, n) by {
      GatheredSplit(ys, m, m + 1, n);
      GatheredBelowStart(ys, m, m - 1);
      assert Gathered(ys, m, m) == ys[m - 1];
    }
  }

  /** The batch sizes the two drivers use: 25 lines in extract_entities,
      100 in filter_entities. */
  predicate BatchSize(every: nat) {
    every == 25 || every == 100
  }

  /** The last line number, at or below `n`, that completes a batch. */
  function Flushed(n: nat, every: nat): nat
    requires every > 0
  {
    n - n % every
  }

  lemma {:induction false} FlushedBounds(n: nat, every: nat)
    requires BatchSize(every)
    ensures Flushed(n, every) <= n < Flushed(n, every) + every && Flushed(n, every) % every == 0
  {
  }

  /** One more line moves the last batch boundary only when it completes a
      batch. */
  lemma {:induction false} FlushedStep(i: nat, every: nat)
    requires BatchSize(every)
    ensures Flushed(i + 1, every) == if (i + 1) % every == 0 then i + 1 else Flushed(i, every)
  {
    if every == 25 {
      assert (i + 1) % 25 == 0 || (i + 1) % 25 == i % 25 + 1;
    } else {
      assert (i + 1) % 100 == 0 || (i + 1) % 100 == i % 100 + 1;
    }
  }

  /** The line number stored after `n` lines: the last batch boundary that was
      not skipped. */
  function LastFlush(start: int, n: nat, every: nat): Option<nat>
    requires every > 0
  {
    if Flushed(n, every) >= start && Flushed(n, every) > 0 then Some(Flushed(n, every)) else None
  }

  /** The line loop's state after `i` lines: what was written is the output of
      the lines up to the last batch boundary, the pending batch the rest, and
      the stored mark is the last boundary that was not skipped. */
  ghost predicate Progressed<T>(ys: seq<seq<T>>, start: int, every: nat, i: nat, written: seq<T>, batch: seq<T>, mark: Option<nat>)
    requires every > 0
  {
    && i <= |ys|
    && written + batch == Gathered(ys, start, i)
    && written == Gathered(ys, start, Flushed(i, every))
    && mark == LastFlush(start, i, every)
  }

  /** A skipped line changes nothing. */
  lemma {:induction false} SkipLine<T>(ys: seq<seq<T>>, start: int, every: nat, i: nat, written: seq<T>, batch: seq<T>, mark: Option<nat>)
    requires BatchSize(every) && Progressed(ys, start, every, i, written, batch, mark) && i < |ys| && i + 1 < start
    ensures Progressed(ys, start, every, i + 1, written, batch, mark)
  {
    FlushedStep(i, every);
    if Flushed(i + 1, every) != Flushed(i, every) {
      GatheredBelowStart(ys, start, i + 1);
      GatheredBelowStart(ys, start, Flushed(i, every));
    }
  }

  /** A processed line adds its outputs to the batch, and the batch is
      written and the line stored when the line completes a batch. */
  lemma {:induction false} TakeLine<T>(ys: seq<seq<T>>, start: int, every: nat, i: nat, written: seq<T>, batch: seq<T>, mark: Option<nat>)
    requires BatchSize(every) && Progressed(ys, start, every, i, written, batch, mark) && i < |ys| && i + 1 >= start
    ensures (i + 1) % every == 0 ==> Progressed(ys, start, every, i + 1, written + batch + ys[i], [], Some(i + 1))
    ensures (i + 1) % every != 0 ==> Progressed(ys, start, every, i + 1, written, batch + ys[i], mark)
  {
    FlushedStep(i, every);
    assert Gathered(ys, start, i + 1) == Gathered(ys, start, i) + ys[i];
  }

  /** The progress document after storing the line number `mark` (if any) at
      `path`. */
  function Marked(d: Doc, path: seq<string>, mark: Option<nat>): Doc
    requires Follow(d, path).Found?
  {
    if mark.None? then d else Replace(d, path, Leaf(JInt(mark.value)))
  }

  /** Storing a line number again replaces the one stored before. */
  lemma {:induction false} MarkAgain(d: Doc, path: seq<string>, mark: Option<nat>, k: nat)
    requires Follow(d, path).Found? && path != []
    ensures Follow(Marked(d, path, mark), path).Found?
    ensures Update(Marked(d, path, mark), path, JInt(k)) == Updated(Marked(d, path, Some(k)))
  {
    if mark.Some? {
      ReplaceTwice(d, path, Leaf(JInt(mark.value)), Leaf(JInt(k)));
    }
  }

  /** What a path reads after storing `mark` there: the number, or what it
      read before when nothing was stored. */
  function Stored(prior: Reach, mark: Option<nat>): Reach {
    if mark.Some? then Found(Leaf(JInt(mark.value))) else prior
  }

  /** Storing a line number is what the path then reads. */
  lemma {:induction false} MarkedAt(d: Doc, path: seq<string>, mark: Option<nat>)
    requires Follow(d, path).Found?
    ensures Follow(Marked(d, path, mark), path) == Stored(Follow(d, path), mark)
  {
    if mark.Some? {
      ReplaceAt(d, path, Leaf(JInt(mark.value)));
    }
  }

  /** Storing a line number leaves every diverging path alone. */
  lemma {:induction false} MarkedOther(d: Doc, path: seq<string>, mark: Option<nat>, q: seq<string>)
    requires Follow(d, path).Found? && Diverge(path, q)
    ensures Follow(Marked(d, path, mark), q) == Follow(d, q)
  {
    if mark.Some? {
      ReplaceOther(d, path, Leaf(JInt(mark.value)), q);
    }
  }
}
