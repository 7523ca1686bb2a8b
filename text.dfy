/**
 * The handful of Python string operations the pipeline relies on, written out
 * with Python's semantics: `str.isspace`, `str.split()` (runs of whitespace),
 * `str.split(sep)` for a one-character separator, `str.strip()` and
 * `str.replace(old, new)` for a non-empty `old`.
 */
module Text {

  /** Python's `str.isspace()` on one character: exactly these code points. */
  predicate IsSpace(c: char) {
    || c == ' ' || c == '\t' || c == '\n' || c == '\r'
    || c == '\U{0B}' || c == '\U{0C}'
    || c == '\U{1C}' || c == '\U{1D}' || c == '\U{1E}' || c == '\U{1F}'
    || c == '\U{85}' || c == '\U{A0}' || c == '\U{1680}'
    || ('\U{2000}' <= c <= '\U{200A}')
    || c == '\U{2028}' || c == '\U{2029}' || c == '\U{202F}' || c == '\U{205F}'
    || c == '\U{3000}'
  }

  /** A word of `str.split()`: non-empty and free of whitespace. */
  predicate IsWord(w: string) {
    |w| > 0 && forall i :: 0 <= i < |w| ==> !IsSpace(w[i])
  }

  /** Length of the leading run of non-whitespace characters. */
  function WordLength(s: string): (n: nat)
    ensures n <= |s|
    ensures forall i :: 0 <= i < n ==> !IsSpace(s[i])
    ensures n < |s| ==> IsSpace(s[n])
  {
    if s == [] || IsSpace(s[0]) then 0 else 1 + WordLength(s[1..])
  }

  /** Python's `s.split()`: the maximal runs of non-whitespace characters, in order. */
  function Words(s: string): (ws: seq<string>)
    ensures forall i :: 0 <= i < |ws| ==> IsWord(ws[i])
    decreases |s|
  {
    if s == [] then []
    else if IsSpace(s[0]) then Words(s[1..])
    else
      var n := WordLength(s);
      [s[..n]] + Words(s[n..])
  }

  /** `gaps[0] + words[0] + gaps[1] + ... + words[n-1] + gaps[n]`. */
  function Spaced(gaps: seq<string>, words: seq<string>): string
    requires |gaps| == |words| + 1
    decreases |words|
  {
    if words == [] then gaps[0] else gaps[0] + words[0] + Spaced(gaps[1..], words[1..])
  }

  /** Whitespace gaps around `n` words: every gap is whitespace, and the gaps
      between two words are not empty. */
  predicate Gaps(gaps: seq<string>, n: nat) {
    && |gaps| == n + 1
    && (forall i :: 0 <= i < |gaps| ==> AllSpace(gaps[i]))
    && (forall i :: 0 < i < n ==> gaps[i] != [])
  }

  /** Leading whitespace does not change the words. */
  lemma {:induction false} WordsAfterSpace(g: string, t: string)
    requires AllSpace(g)
    ensures Words(g + t) == Words(t)
    decreases |g|
  {
    if g != [] {
      assert (g + t)[0] == g[0] && (g + t)[1..] == g[1..] + t;
      WordsAfterSpace(g[1..], t);
    } else {
      assert g + t == t;
    }
  }

  /** A word followed by nothing or by whitespace is split off whole. */
  lemma {:induction false} WordsAfterWord(w: string, t: string)
    requires IsWord(w) && (t == [] || IsSpace(t[0]))
    ensures Words(w + t) == [w] + Words(t)
  {
    var s := w + t;
    var n := WordLength(s);
    assert forall i :: 0 <= i < |w| ==> s[i] == w[i];
    assert t != [] ==> s[|w|] == t[0];
    assert n == |w|;
    assert s[..n] == w && s[n..] == t;
  }

  /** Words separated by whitespace split back into exactly those words: the
      pieces of `str.split()` are the maximal non-whitespace runs. */
  lemma {:induction false} WordsOfSpaced(gaps: seq<string>, words: seq<string>)
    requires Gaps(gaps, |words|)
    requires forall i :: 0 <= i < |words| ==> IsWord(words[i])
    ensures Words(Spaced(gaps, words)) == words
    decreases |words|
  {
    if words == [] {
      WordsAfterSpace(gaps[0], []);
      assert gaps[0] + [] == gaps[0];
    } else {
      var rest := Spaced(gaps[1..], words[1..]);
      assert Gaps(gaps[1..], |words| - 1) by {
        forall i | 0 < i < |words| - 1 ensures gaps[1..][i] != [] {
          assert gaps[1..][i] == gaps[i + 1];
        }
      }
      WordsOfSpaced(gaps[1..], words[1..]);
      assert rest == [] || IsSpace(rest[0]) by {
        if |words| > 1 {
          assert gaps[1] != [] && AllSpace(gaps[1]) && rest[0] == gaps[1][0];
        } else {
          assert rest == gaps[1] && AllSpace(gaps[1]);
          if rest != [] { assert IsSpace(gaps[1][0]); }
        }
      }
      WordsAfterWord(words[0], rest);
      assert Spaced(gaps, words) == gaps[0] + (words[0] + rest);
      WordsAfterSpace(gaps[0], words[0] + rest);
    }
  }

  /** Every string is its words separated by whitespace gaps. */
  lemma {:induction false} SpacedWords(s: string) returns (gaps: seq<string>)
    ensures Gaps(gaps, |Words(s)|) && Spaced(gaps, Words(s)) == s
    ensures s != [] && IsSpace(s[0]) ==> gaps[0] != []
    decreases |s|
  {
    if s == [] {
      gaps := [[]];
    } else if IsSpace(s[0]) {
      var g := SpacedWords(s[1..]);
      gaps := SpacedAfterSpace([s[0]], g, Words(s[1..]));
      assert s == [s[0]] + s[1..];
    } else {
      var n := WordLength(s);
      var g := SpacedWords(s[n..]);
      assert Words(s[n..]) != [] ==> g[0] != [] by {
        if Words(s[n..]) != [] {
          assert s[n..] != [] && IsSpace(s[n..][0]);
        }
      }
      gaps := SpacedAfterWord(s[..n], g, Words(s[n..]));
      assert s == s[..n] + s[n..];
    }
  }

  /** Whitespace in front widens the first gap. */
  lemma {:induction false} SpacedAfterSpace(sp: string, gaps: seq<string>, words: seq<string>) returns (gaps': seq<string>)
    requires AllSpace(sp) && sp != [] && Gaps(gaps, |words|)
    ensures Gaps(gaps', |words|) && Spaced(gaps', words) == sp + Spaced(gaps, words) && gaps'[0] != []
  {
    gaps' := [sp + gaps[0]] + gaps[1..];
    assert forall i :: 0 < i < |gaps'| ==> gaps'[i] == gaps[i];
    assert AllSpace(gaps'[0]) by {
      forall i | 0 <= i < |gaps'[0]| ensures IsSpace(gaps'[0][i]) {
        if i < |sp| { assert gaps'[0][i] == sp[i]; } else { assert gaps'[0][i] == gaps[0][i - |sp|]; }
      }
    }
    if words != [] {
      assert gaps'[1..] == gaps[1..];
    }
  }

  /** A word in front of a string that starts with a gap becomes the first word. */
  lemma {:induction false} SpacedAfterWord(w: string, gaps: seq<string>, words: seq<string>) returns (gaps': seq<string>)
    requires IsWord(w) && Gaps(gaps, |words|) && (words != [] ==> gaps[0] != [])
    ensures Gaps(gaps', |words| + 1) && Spaced(gaps', [w] + words) == w + Spaced(gaps, words)
  {
    gaps' := [[]] + gaps;
    assert gaps'[1..] == gaps && ([w] + words)[1..] == words;
    assert forall i :: 0 < i < |gaps'| ==> gaps'[i] == gaps[i - 1];
    assert AllSpace(gaps'[0]);
  }

  /** `len(s.split())`, the word count the cleaning filters use. */
  function WordCount(s: string): nat {
    |Words(s)|
  }

  /** Every character of a word of `s` is a character of `s`, and a string
      without whitespace has itself as its only word. */
  lemma {:induction false} WordsOfWord(w: string)
    requires IsWord(w)
    ensures Words(w) == [w]
  {
    var n := WordLength(w);
    assert n == |w| by {
      if n < |w| {
        assert false;
      }
    }
    assert w[..n] == w && w[n..] == [];
  }

  /** Python's `s.split(sep)` for a one-character separator: the pieces between
      separators; never empty, and "" splits to [""]. */
  function SplitOn(s: string, sep: char): (parts: seq<string>)
    ensures |parts| >= 1
    ensures forall i :: 0 <= i < |parts| ==> sep !in parts[i]
    decreases |s|
  {
    if s == [] then [[]]
    else if s[0] == sep then [[]] + SplitOn(s[1..], sep)
    else
      var rest := SplitOn(s[1..], sep);
      [[s[0]] + rest[0]] + rest[1..]
  }

  /** Concatenation of a sequence of strings (`"".join(parts)`), or of byte chunks. */
  function Concat<T>(parts: seq<seq<T>>): seq<T> {
    if parts == [] then [] else parts[0] + Concat(parts[1..])
  }

  /** Each line followed by a newline, concatenated: what a writer produces when it
      writes `line + "\n"` for every line, and what `"\n".join(lines) + "\n"` is
      for a non-empty list. */
  function Terminated(lines: seq<string>): string {
    if lines == [] then [] else lines[0] + "\n" + Terminated(lines[1..])
  }

  /** `"\n".join(parts)` */
  function JoinLines(parts: seq<string>): string
    requires |parts| >= 1
  {
    if |parts| == 1 then parts[0] else parts[0] + "\n" + JoinLines(parts[1..])
  }

  predicate NoNewline(s: string) { '\n' !in s }

  predicate AllNoNewline(lines: seq<string>) {
    forall i :: 0 <= i < |lines| ==> NoNewline(lines[i])
  }

  lemma {:induction false} ConcatAppend<T>(a: seq<seq<T>>, b: seq<seq<T>>)
    ensures Concat(a + b) == Concat(a) + Concat(b)
  {
    if a == [] {
      assert a + b == b;
    } else {
      assert (a + b)[0] == a[0] && (a + b)[1..] == a[1..] + b;
      ConcatAppend(a[1..], b);
      assert Concat(a + b) == a[0] + Concat(a[1..] + b);
    }
  }

  lemma {:induction false} ConcatSnoc<T>(parts: seq<seq<T>>, last: seq<T>)
    ensures Concat(parts + [last]) == Concat(parts) + last
  {
    ConcatAppend(parts, [last]);
    assert Concat([last]) == last + Concat([last][1..]);
  }

  lemma {:induction false} TerminatedAppend(a: seq<string>, b: seq<string>)
    ensures Terminated(a + b) == Terminated(a) + Terminated(b)
  {
    if a == [] {
      assert a + b == b;
    } else {
      assert (a + b)[0] == a[0] && (a + b)[1..] == a[1..] + b;
      TerminatedAppend(a[1..], b);
      assert Terminated(a + b) == a[0] + "\n" + Terminated(a[1..] + b);
    }
  }

  /** The batched write `"\n".join(batch) + "\n"` writes the same text as
      writing each line followed by a newline. */
  lemma {:induction false} JoinLinesTerminated(parts: seq<string>)
    requires |parts| >= 1
    ensures JoinLines(parts) + "\n" == Terminated(parts)
  {
    if |parts| > 1 {
      JoinLinesTerminated(parts[1..]);
    }
  }

  /** Splitting on the separator and putting it back gives the string again. */
  lemma {:induction false} SplitOnJoin(s: string, sep: char)
    ensures JoinWith(SplitOn(s, sep), sep) == s
    decreases |s|
  {
    if s == [] {
    } else if s[0] == sep {
      SplitOnJoin(s[1..], sep);
    } else {
      var rest := SplitOn(s[1..], sep);
      assert SplitOn(s, sep) == [[s[0]] + rest[0]] + rest[1..];
      SplitOnJoin(s[1..], sep);
      JoinWithConsFirst(s[0], rest, sep);
      assert [s[0]] + s[1..] == s;
    }
  }

  /** `sep.join(parts)` for a one-character separator. */
  function JoinWith(parts: seq<string>, sep: char): string
    requires |parts| >= 1
  {
    if |parts| == 1 then parts[0] else parts[0] + [sep] + JoinWith(parts[1..], sep)
  }

  lemma {:induction false} JoinWithConsFirst(c: char, parts: seq<string>, sep: char)
    requires |parts| >= 1
    ensures JoinWith([[c] + parts[0]] + parts[1..], sep) == [c] + JoinWith(parts, sep)
  {
    var q := [[c] + parts[0]] + parts[1..];
    if |parts| > 1 {
      assert q[1..] == parts[1..];
    }
  }

  /** The lines of `s.split("\n")` except the last, each followed by a newline,
      then the last piece: that is `s` again. */
  lemma {:induction false} SplitLinesReassemble(s: string)
    ensures var parts := SplitOn(s, '\n');
      Terminated(parts[..|parts| - 1]) + parts[|parts| - 1] == s
  {
    var parts := SplitOn(s, '\n');
    SplitOnJoin(s, '\n');
    TerminatedJoinWith(parts);
  }

  lemma {:induction false} TerminatedJoinWith(parts: seq<string>)
    requires |parts| >= 1
    ensures Terminated(parts[..|parts| - 1]) + parts[|parts| - 1] == JoinWith(parts, '\n')
  {
    if |parts| > 1 {
      TerminatedJoinWith(parts[1..]);
      assert parts[1..][..|parts[1..]| - 1] == parts[..|parts| - 1][1..];
    }
  }

  /** The decomposition "lines, each followed by a newline, then a remainder
      without newline" is unique. */
  lemma {:induction false} TerminatedUnique(a: seq<string>, x: string, b: seq<string>, y: string)
    requires AllNoNewline(a) && AllNoNewline(b) && NoNewline(x) && NoNewline(y)
    requires Terminated(a) + x == Terminated(b) + y
    ensures a == b && x == y
  {
    if a == [] && b == [] {
      assert Terminated(a) == [] == Terminated(b);
      assert Terminated(a) + x == x;
      assert Terminated(b) + y == y;
    } else if a == [] {
      NewlineInTerminated(b, y);
      assert false;
    } else if b == [] {
      NewlineInTerminated(a, x);
      assert false;
    } else {
      var s := Terminated(a) + x;
      assert s == a[0] + "\n" + (Terminated(a[1..]) + x);
      assert s == b[0] + "\n" + (Terminated(b[1..]) + y);
      FirstLineUnique(a[0], Terminated(a[1..]) + x, b[0], Terminated(b[1..]) + y);
      TerminatedUnique(a[1..], x, b[1..], y);
      assert a == [a[0]] + a[1..] && b == [b[0]] + b[1..];
    }
  }

  lemma {:induction false} NewlineInTerminated(lines: seq<string>, rest: string)
    requires lines != []
    ensures (Terminated(lines) + rest)[|lines[0]|] == '\n'
  {
  }

  lemma {:induction false} NewlineAt(l: string, rest: string)
    ensures (l + "\n" + rest)[|l|] == '\n'
  {
  }

  lemma {:induction false} FirstLineUnique(l1: string, r1: string, l2: string, r2: string)
    requires NoNewline(l1) && NoNewline(l2)
    requires l1 + "\n" + r1 == l2 + "\n" + r2
    ensures l1 == l2 && r1 == r2
  {
    var s := l1 + "\n" + r1;
    if |l1| < |l2| {
      NewlineAt(l1, r1);
      assert false;
    } else if |l2| < |l1| {
      NewlineAt(l2, r2);
      assert false;
    } else {
      assert l1 == s[..|l1|] == l2;
      assert r1 == s[|l1| + 1..] == r2;
    }
  }

  /** Python's `s.strip()`: the slice of `s` left after its leading and
      trailing whitespace, which starts and ends with a non-whitespace
      character unless it is empty. */
  function Strip(s: string): (r: string)
    ensures |r| <= |s|
    ensures r == [] || (!IsSpace(r[0]) && !IsSpace(r[|r| - 1]))
  {
    StripRight(StripLeft(s))
  }

  /** `s.strip()` is the slice of `s` between its leading and its trailing
      whitespace, and that slice neither starts nor ends with whitespace. */
  lemma {:induction false} StripMeans(s: string)
    ensures var r := Strip(s); var a := |s| - |StripLeft(s)|;
      && a + |r| <= |s| && r == s[a..a + |r|]
      && AllSpace(s[..a]) && AllSpace(s[a + |r|..])
      && (r == [] || (!IsSpace(r[0]) && !IsSpace(r[|r| - 1])))
  {
    var t := StripLeft(s);
    var r := StripRight(t);
    var a := |s| - |t|;
    StripLeftSlice(s);
    StripRightSlice(t);
    assert t == s[a..];
    assert s[a + |r|..] == t[|r|..];
    assert r == t[..|r|];
    assert s[a..a + |r|] == t[..|r|] by {
      assert forall k :: 0 <= k < |r| ==> s[a..a + |r|][k] == s[a + k] == t[k];
    }
  }

  lemma {:induction false} StripLeftSlice(s: string)
    ensures var r := StripLeft(s); r == s[|s| - |r|..] && AllSpace(s[..|s| - |r|])
    decreases |s|
  {
    if s != [] && IsSpace(s[0]) {
      StripLeftSlice(s[1..]);
      var r := StripLeft(s);
      assert s[..|s| - |r|] == [s[0]] + s[1..][..|s| - 1 - |r|];
    }
  }

  lemma {:induction false} StripRightSlice(s: string)
    ensures var r := StripRight(s); AllSpace(s[|r|..])
    decreases |s|
  {
    if s != [] && IsSpace(s[|s| - 1]) {
      StripRightSlice(s[..|s| - 1]);
      var r := StripRight(s);
      assert s[|r|..] == s[..|s| - 1][|r|..] + [s[|s| - 1]];
    }
  }

  /** Every character is whitespace. */
  predicate AllSpace(s: string) {
    forall i :: 0 <= i < |s| ==> IsSpace(s[i])
  }

  function StripLeft(s: string): (r: string)
    ensures |r| <= |s|
    ensures r == [] || !IsSpace(r[0])
  {
    if s != [] && IsSpace(s[0]) then StripLeft(s[1..]) else s
  }

  function StripRight(s: string): (r: string)
    ensures |r| <= |s|
    ensures r == [] || !IsSpace(r[|r| - 1])
    ensures r == s[..|r|]
  {
    if s != [] && IsSpace(s[|s| - 1]) then StripRight(s[..|s| - 1]) else s
  }

  /** A string with a non-whitespace character does not strip to "". */
  lemma {:induction false} StripNonEmpty(s: string, k: nat)
    requires k < |s| && !IsSpace(s[k])
    ensures Strip(s) != []
  {
    StripLeftKeeps(s, k);
    var t := StripLeft(s);
    var j :| 0 <= j < |t| && t[j] == s[k];
    StripRightKeeps(t, j);
  }

  lemma {:induction false} StripLeftKeeps(s: string, k: nat)
    requires k < |s| && !IsSpace(s[k])
    ensures exists j :: 0 <= j < |StripLeft(s)| && StripLeft(s)[j] == s[k]
  {
    if IsSpace(s[0]) {
      assert StripLeft(s) == StripLeft(s[1..]) && s[1..][k - 1] == s[k];
      StripLeftKeeps(s[1..], k - 1);
    } else {
      assert StripLeft(s)[k] == s[k];
    }
  }

  lemma {:induction false} StripRightKeeps(s: string, k: nat)
    requires k < |s| && !IsSpace(s[k])
    ensures StripRight(s) != []
    decreases |s|
  {
    if IsSpace(s[|s| - 1]) {
      assert k < |s| - 1;
      StripRightKeeps(s[..|s| - 1], k);
    }
  }

  /** Python's `s.replace(pat, rep)` for a non-empty `pat`: occurrences are
      found left to right and do not overlap. */
  function ReplaceAll(s: string, pat: string, rep: string): (r: string)
    requires |pat| > 0
    decreases |s|
  {
    if |s| < |pat| then s
    else if s[..|pat|] == pat then rep + ReplaceAll(s[|pat|..], pat, rep)
    else [s[0]] + ReplaceAll(s[1..], pat, rep)
  }

  /** `pat` occurs in `s` at index `i`. */
  predicate OccursAt(s: string, pat: string, i: int) {
    0 <= i <= |s| - |pat| && s[i..i + |pat|] == pat
  }

  /** `pat in s` */
  ghost predicate Contains(s: string, pat: string) {
    exists i :: OccursAt(s, pat, i)
  }

  /** `pat in s`, computed by trying each start position in turn. */
  predicate HasSubstring(s: string, pat: string)
    decreases |s|
  {
    if |pat| > |s| then false
    else s[..|pat|] == pat || HasSubstring(s[1..], pat)
  }

  lemma {:induction false} HasSubstringMeans(s: string, pat: string)
    ensures HasSubstring(s, pat) <==> Contains(s, pat)
    decreases |s|
  {
    if |pat| > |s| {
    } else if s[..|pat|] == pat {
      assert s[0..|pat|] == s[..|pat|];
      assert OccursAt(s, pat, 0);
    } else {
      HasSubstringMeans(s[1..], pat);
      if Contains(s[1..], pat) {
        var i :| OccursAt(s[1..], pat, i);
        assert s[1..][i..i + |pat|] == s[i + 1..i + 1 + |pat|];
        assert OccursAt(s, pat, i + 1);
      }
      if Contains(s, pat) {
        var i :| OccursAt(s, pat, i);
        assert s[0..|pat|] == s[..|pat|];
        assert i > 0;
        assert s[1..][i - 1..i - 1 + |pat|] == s[i..i + |pat|];
        assert OccursAt(s[1..], pat, i - 1);
      }
    }
  }

  /** Replacing a pattern that does not occur changes nothing. */
  lemma {:induction false} ReplaceAbsent(s: string, pat: string, rep: string)
    requires |pat| > 0 && !Contains(s, pat)
    ensures ReplaceAll(s, pat, rep) == s
    decreases |s|
  {
    if |s| >= |pat| {
      assert !OccursAt(s, pat, 0);
      assert s[0..|pat|] == s[..|pat|];
      assert !Contains(s[1..], pat) by {
        forall i | OccursAt(s[1..], pat, i)
          ensures OccursAt(s, pat, i + 1)
        {
          assert s[1..][i..i + |pat|] == s[i + 1..i + 1 + |pat|];
        }
      }
      ReplaceAbsent(s[1..], pat, rep);
    }
  }
}
