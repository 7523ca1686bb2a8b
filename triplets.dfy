/**
 * The REBEL output parser (`extract_triplets` in
 * scripts/extract_entities/extract_entities.py): a decoded model prediction is a
 * flat string of words and the markers `<triplet>`, `<subj>` and `<obj>`; the
 * parser walks its tokens with three accumulators and a pointer to the one that
 * receives words.
 *
 * The role bindings are the source's own: words after `<triplet>` accumulate
 * into `subject` and are emitted as the head, words after `<subj>` into
 * `object_` (the tail), and words after `<obj>` into `relation` (the type).
 */
module Triplets {
  import opened Text

  datatype Triplet = Triplet(head: string, typ: string, tail: string)

  const TripletMarker: string := "<triplet>"
  const SubjMarker: string := "<subj>"
  const ObjMarker: string := "<obj>"

  predicate IsMarker(token: string) {
    token == TripletMarker || token == SubjMarker || token == ObjMarker
  }

  /** The tokens the loop walks: the special tokens `<s>`, `<pad>` and `</s>`
      are deleted (in that order, each in one pass) and the rest split on
      whitespace. */
  function Tokens(text: string): (ts: seq<string>)
    ensures forall i :: 0 <= i < |ts| ==> IsWord(ts[i])
  {
    Words(ReplaceAll(ReplaceAll(ReplaceAll(text, "<s>", ""), "<pad>", ""), "</s>", ""))
  }

  /** The loop's variables: the triples so far, the three accumulators and
      `current`, which is 'x' until the first marker. */
  datatype State = State(triplets: seq<Triplet>, relation: string, subject: string, obj: string, current: char)

  const Start: State := State([], "", "", "", 'x')

  /** `{"head": subject.strip(), "type": relation.strip(), "tail": object_.strip()}` */
  function Emitted(st: State): Triplet {
    Triplet(Strip(st.subject), Strip(st.relation), Strip(st.obj))
  }

  /** One iteration of the token loop. */
  function Step(st: State, token: string): State {
    if token == TripletMarker then
      if st.relation != "" then State(st.triplets + [Emitted(st)], "", "", "", 't')
      else st.(current := 't')
    else if token == SubjMarker then
      if st.relation != "" then st.(triplets := st.triplets + [Emitted(st)], subject := "", obj := "", current := 's')
      else st.(current := 's')
    else if token == ObjMarker then
      st.(relation := "", current := 'o')
    else if st.current == 't' then st.(subject := st.subject + " " + token)
    else if st.current == 's' then st.(obj := st.obj + " " + token)
    else if st.current == 'o' then st.(relation := st.relation + " " + token)
    else st
  }

  function Walk(st: State, tokens: seq<string>): State
    decreases |tokens|
  {
    if tokens == [] then st else Walk(Step(st, tokens[0]), tokens[1..])
  }

  /** After the loop: a last triple when all three accumulators are non-empty. */
  function Finish(st: State): seq<Triplet> {
    if st.subject != "" && st.relation != "" && st.obj != "" then st.triplets + [Emitted(st)]
    else st.triplets
  }

  /** The triples `extract_triplets` returns for a token sequence. */
  function Parse(tokens: seq<string>): seq<Triplet> {
    Finish(Walk(Start, tokens))
  }

  /** `extract_triplets(text)`. */
  method ExtractTriplets(text: string) returns (triplets: seq<Triplet>)
    ensures triplets == Parse(Tokens(text))
  {
    var tokens := Tokens(text);
    triplets := [];
    var relation, subject, obj := "", "", "";
    var current := 'x';
    for i := 0 to |tokens|
      invariant Walk(Start, tokens) == Walk(State(triplets, relation, subject, obj, current), tokens[i..])
    {
      var token := tokens[i];
      assert tokens[i..][1..] == tokens[i + 1..];
      if token == TripletMarker {
        current := 't';
        if relation != "" {
          triplets := triplets + [Triplet(Strip(subject), Strip(relation), Strip(obj))];
          relation, subject, obj := "", "", "";
        }
      } else if token == SubjMarker {
        current := 's';
        if relation != "" {
          triplets := triplets + [Triplet(Strip(subject), Strip(relation), Strip(obj))];
          subject, obj := "", "";
        }
      } else if token == ObjMarker {
        current := 'o';
        relation := "";
      } else if current == 't' {
        subject := subject + " " + token;
      } else if current == 's' {
        obj := obj + " " + token;
      } else if current == 'o' {
        relation := relation + " " + token;
      }
    }
    if subject != "" && relation != "" && obj != "" {
      triplets := triplets + [Triplet(Strip(subject), Strip(relation), Strip(obj))];
    }
  }

  /** An accumulator is empty or holds a non-whitespace character. */
  predicate Filled(s: string) {
    s == [] || exists k :: 0 <= k < |s| && !IsSpace(s[k])
  }

  predicate TypesNonEmpty(ts: seq<Triplet>) {
    forall i :: 0 <= i < |ts| ==> ts[i].typ != ""
  }

  lemma {:induction false} FilledAppend(s: string, token: string)
    requires IsWord(token)
    ensures Filled(s + " " + token)
  {
    var t := s + " " + token;
    assert t[|s| + 1] == token[0];
  }

  lemma {:induction false} FilledStrip(s: string)
    requires Filled(s) && s != []
    ensures Strip(s) != []
  {
    var k :| 0 <= k < |s| && !IsSpace(s[k]);
    StripNonEmpty(s, k);
  }

  /** Over words, a triple is emitted only while `relation` holds a word, so
      every emitted type is non-empty. */
  lemma {:induction false} WalkKeepsTypes(st: State, tokens: seq<string>)
    requires forall i :: 0 <= i < |tokens| ==> IsWord(tokens[i])
    requires Filled(st.relation) && TypesNonEmpty(st.triplets)
    ensures Filled(Walk(st, tokens).relation) && TypesNonEmpty(Walk(st, tokens).triplets)
    decreases |tokens|
  {
    if tokens != [] {
      var token := tokens[0];
      var next := Step(st, token);
      if st.relation != "" {
        FilledStrip(st.relation);
      }
      if st.current == 'o' && !IsMarker(token) {
        FilledAppend(st.relation, token);
      }
      assert Filled(next.relation) && TypesNonEmpty(next.triplets);
      WalkKeepsTypes(next, tokens[1..]);
    }
  }

  /** Every triple `extract_triplets` returns has a non-empty type. */
  lemma {:induction false} TypesAreNonEmpty(text: string)
    ensures TypesNonEmpty(Parse(Tokens(text)))
  {
    var tokens := Tokens(text);
    WalkKeepsTypes(Start, tokens);
    var st := Walk(Start, tokens);
    if st.relation != "" {
      FilledStrip(st.relation);
    }
  }

  /** Words before the first marker go nowhere. */
  lemma {:induction false} LeadingWordsIgnored(lead: seq<string>, rest: seq<string>)
    requires forall i :: 0 <= i < |lead| ==> !IsMarker(lead[i])
    ensures Parse(lead + rest) == Parse(rest)
  {
    WalkFromStart(lead, rest);
  }

  lemma {:induction false} WalkFromStart(lead: seq<string>, rest: seq<string>)
    requires forall i :: 0 <= i < |lead| ==> !IsMarker(lead[i])
    ensures Walk(Start, lead + rest) == Walk(Start, rest)
    decreases |lead|
  {
    if lead != [] {
      var all := lead + rest;
      assert all != [] && all[0] == lead[0] && all[1..] == lead[1..] + rest;
      assert Walk(Start, all) == Walk(Step(Start, lead[0]), lead[1..] + rest);
      assert forall i :: 0 <= i < |lead[1..]| ==> lead[1..][i] == lead[i + 1];
      assert Step(Start, lead[0]) == Start;
      WalkFromStart(lead[1..], rest);
    } else {
      assert lead + rest == rest;
    }
  }

  /** A single accumulated word strips back to itself. */
  lemma {:induction false} StripOneWord(w: string)
    requires IsWord(w)
    ensures Strip(" " + w) == w
  {
    assert (" " + w)[1..] == w;
    assert StripLeft(" " + w) == StripLeft(w) == w;
  }

  lemma {:induction false} WalkStep(st: State, tokens: seq<string>, k: nat)
    requires k < |tokens|
    ensures Walk(st, tokens[k..]) == Walk(Step(st, tokens[k]), tokens[k + 1..])
  {
    assert tokens[k..][0] == tokens[k] && tokens[k..][1..] == tokens[k + 1..];
  }

  /** Words in one accumulator, as `extract_triplets` appends them. */
  predicate PlainWord(w: string) {
    IsWord(w) && !IsMarker(w)
  }

  /** The walk over one complete `<triplet> h <subj> t <obj> r` group. */
  lemma {:induction false} GroupWalk(head: string, tail: string, typ: string)
    requires PlainWord(head) && PlainWord(tail) && PlainWord(typ)
    ensures Walk(Start, ["<triplet>", head, "<subj>", tail, "<obj>", typ])
         == State([], " " + typ, " " + head, " " + tail, 'o')
  {
    var t := ["<triplet>", head, "<subj>", tail, "<obj>", typ];
    var s1 := State([], "", "", "", 't');
    var s2 := State([], "", " " + head, "", 't');
    var s3 := State([], "", " " + head, "", 's');
    var s4 := State([], "", " " + head, " " + tail, 's');
    var s5 := State([], "", " " + head, " " + tail, 'o');
    var s6 := State([], " " + typ, " " + head, " " + tail, 'o');
    assert t[0..] == t;
    WalkStep(Start, t, 0);
    assert Step(Start, t[0]) == s1;
    WalkStep(s1, t, 1);
    assert Step(s1, t[1]) == s2;
    WalkStep(s2, t, 2);
    assert Step(s2, t[2]) == s3;
    WalkStep(s3, t, 3);
    assert Step(s3, t[3]) == s4;
    WalkStep(s4, t, 4);
    assert Step(s4, t[4]) == s5;
    WalkStep(s5, t, 5);
    assert Step(s5, t[5]) == s6;
    assert t[6..] == [];
  }

  /** The documented example, for any three words: words after `<triplet>` are
      the head, after `<subj>` the tail, after `<obj>` the type. */
  lemma {:induction false} OrbitsExample(head: string, tail: string, typ: string)
    requires PlainWord(head) && PlainWord(tail) && PlainWord(typ)
    ensures Parse(["<triplet>", head, "<subj>", tail, "<obj>", typ]) == [Triplet(head, typ, tail)]
  {
    GroupWalk(head, tail, typ);
    StripOneWord(head);
    StripOneWord(tail);
    StripOneWord(typ);
  }

  /** A `<subj>` after a type emits the triple and resets subject and tail but
      keeps the type, so a `<triplet>` right after it emits again with an empty
      head and tail. */
  lemma {:induction false} EmptyHeadExample(head: string, tail: string, typ: string)
    requires PlainWord(head) && PlainWord(tail) && PlainWord(typ)
    ensures Parse(["<triplet>", head, "<subj>", tail, "<obj>", typ, "<subj>", "<triplet>"])
         == [Triplet(head, typ, tail), Triplet("", typ, "")]
  {
    var group := ["<triplet>", head, "<subj>", tail, "<obj>", typ];
    var rest := ["<subj>", "<triplet>"];
    GroupWalk(head, tail, typ);
    WalkSplit(Start, group, rest);
    assert group + rest == ["<triplet>", head, "<subj>", tail, "<obj>", typ, "<subj>", "<triplet>"];
    StripOneWord(head);
    StripOneWord(tail);
    StripOneWord(typ);
    var s6 := State([], " " + typ, " " + head, " " + tail, 'o');
    var s7 := State([Triplet(head, typ, tail)], " " + typ, "", "", 's');
    var s8 := State([Triplet(head, typ, tail), Triplet("", typ, "")], "", "", "", 't');
    assert Step(s6, "<subj>") == s7;
    assert Step(s7, "<triplet>") == s8;
    assert rest[1..][1..] == [];
  }

  lemma {:induction false} WalkSplit(st: State, a: seq<string>, b: seq<string>)
    ensures Walk(st, a + b) == Walk(Walk(st, a), b)
    decreases |a|
  {
    if a != [] {
      assert (a + b)[0] == a[0] && (a + b)[1..] == a[1..] + b;
      WalkSplit(Step(st, a[0]), a[1..], b);
    } else {
      assert a + b == b;
    }
  }
}
