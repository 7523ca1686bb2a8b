/**
 * Entity resolution against Wikidata search results
 * (scripts/filter_entities/filter_entities.py): the best similarity of one
 * result over its label and aliases, the choice of a result for a term, and
 * how the HTTP status of a search is dispatched.
 *
 * `fuzz.ratio` is a parameter (`Ratio`): any function into 0..100. The HTTP
 * call is a parameter as well; only its status code and `search` list matter.
 */
module Resolver {
  import opened Base
  import opened Json

  /** `Constants.SIMILARITY_THRESHOLD`. */
  const SimilarityThreshold: int := 70

  type Score = n: int | 0 <= n <= 100

  /** `fuzz.ratio(candidate, original_term)`. */
  type Ratio = (string, Json) -> Score

  /** One Wikidata search result: its `label` (the lookup `record["label"]`
      raises when it is missing) and its optional `aliases`. */
  datatype Entry = Entry(name: Option<string>, aliases: Option<seq<string>>)

  /** `[record["label"]] + record.get("aliases", [])`. */
  function Candidates(e: Entry): (cs: seq<string>)
    requires e.name.Some?
    ensures |cs| >= 1 && cs[0] == e.name.value
  {
    [e.name.value] + (if e.aliases.Some? then e.aliases.value else [])
  }

  function Ratios(ratio: Ratio, term: Json, cs: seq<string>): (rs: seq<Score>)
    ensures |rs| == |cs|
    ensures forall i :: 0 <= i < |cs| ==> rs[i] == ratio(cs[i], term)
  {
    seq(|cs|, i requires 0 <= i < |cs| => ratio(cs[i], term))
  }

  /** Python's `max` over a non-empty sequence of scores. */
  function MaxOf(xs: seq<Score>): (m: Score)
    requires xs != []
    ensures m in xs
    ensures forall x :: x in xs ==> x <= m
  {
    if |xs| == 1 then xs[0]
    else
      var rest := MaxOf(xs[1..]);
      assert xs == [xs[0]] + xs[1..];
      if xs[0] >= rest then xs[0] else rest
  }

  /** `best_single_record_similarity`; `None` when the record has no label
      (a `KeyError`). */
  function BestSimilarity(ratio: Ratio, term: Json, e: Entry): (r: Option<Score>)
    ensures r.None? <==> e.name.None?
  {
    if e.name.None? then None else Some(MaxOf(Ratios(ratio, term, Candidates(e))))
  }

  /** The best similarity is the ratio of one of the label and aliases, and
      no lower than the ratio of any of them. */
  lemma {:induction false} BestSimilarityIsMax(ratio: Ratio, term: Json, e: Entry)
    requires e.name.Some?
    ensures var s := BestSimilarity(ratio, term, e).value;
      && (exists c :: c in Candidates(e) && ratio(c, term) == s)
      && (forall c :: c in Candidates(e) ==> ratio(c, term) <= s)
  {
    var cs := Candidates(e);
    var rs := Ratios(ratio, term, cs);
    var m := MaxOf(rs);
    forall c | c in cs
      ensures ratio(c, term) <= m
    {
      var i :| 0 <= i < |cs| && cs[i] == c;
      assert rs[i] in rs;
    }
    var i :| 0 <= i < |rs| && rs[i] == m;
    assert cs[i] in cs;
  }

  /** How `filter_wikidata_results` ends: with a label or `None`, or with the
      `KeyError` of a result that has no label. */
  datatype Selection = Selected(name: Option<string>) | LabelMissing

  /** The scan ends at this result: its lookup raises, or it scores 100. */
  predicate Stops(ratio: Ratio, term: Json, e: Entry) {
    match BestSimilarity(ratio, term, e)
    case None => true
    case Some(s) => s == 100
  }

  /** The index of the first result the scan ends at, or the length. */
  function FirstStop(ratio: Ratio, term: Json, es: seq<Entry>): (k: nat)
    ensures k <= |es|
    ensures forall j :: 0 <= j < k ==> !Stops(ratio, term, es[j])
    ensures k < |es| ==> Stops(ratio, term, es[k])
  {
    if es == [] then 0
    else if Stops(ratio, term, es[0]) then 0
    else 1 + FirstStop(ratio, term, es[1..])
  }

  /** The similarities of results that all have a label. */
  function Scores(ratio: Ratio, term: Json, es: seq<Entry>): (ss: seq<Score>)
    requires forall j :: 0 <= j < |es| ==> es[j].name.Some?
    ensures |ss| == |es|
    ensures forall j :: 0 <= j < |es| ==> BestSimilarity(ratio, term, es[j]) == Some(ss[j])
  {
    seq(|es|, j requires 0 <= j < |es| => BestSimilarity(ratio, term, es[j]).value)
  }

  /** A score can be chosen: it meets the threshold and beats the initial
      `highest_similarity` of 0. */
  predicate Qualifies(s: Score, threshold: int) {
    s >= threshold && s > 0
  }

  /** The highest qualifying score, or 0 when none qualifies. */
  function TopScore(ss: seq<Score>, threshold: int): (m: nat)
    ensures m == 0 || exists j :: 0 <= j < |ss| && ss[j] == m && Qualifies(ss[j], threshold)
    ensures forall j :: 0 <= j < |ss| && Qualifies(ss[j], threshold) ==> ss[j] <= m
  {
    if ss == [] then 0
    else
      var m := TopScore(ss[..|ss| - 1], threshold);
      var x := ss[|ss| - 1];
      if Qualifies(x, threshold) && x > m then x else m
  }

  /** The index of the first occurrence of `m`, or the length. */
  function FirstAt(ss: seq<Score>, m: int): (k: nat)
    ensures k <= |ss|
    ensures forall j :: 0 <= j < k ==> ss[j] != m
    ensures k < |ss| ==> ss[k] == m
  {
    if ss == [] then 0
    else if ss[0] == m then 0
    else 1 + FirstAt(ss[1..], m)
  }

  /** What `filter_wikidata_results` returns, stated without its scan: the
      first result that raises or scores 100 decides; otherwise the label of
      the first result with the highest qualifying score, or `None`. */
  function Select(ratio: Ratio, term: Json, es: seq<Entry>, threshold: int): (r: Selection)
    ensures r.Selected? && r.name.Some? ==> exists j :: 0 <= j < |es| && es[j].name == r.name
    ensures r.LabelMissing? ==> exists j :: 0 <= j < |es| && es[j].name.None?
  {
    var k := FirstStop(ratio, term, es);
    if k < |es| then
      (if es[k].name.None? then LabelMissing else Selected(es[k].name))
    else
      var ss := Scores(ratio, term, es);
      var m := TopScore(ss, threshold);
      if m == 0 then Selected(None) else Selected(es[FirstAt(ss, m)].name)
  }

  /** `filter_wikidata_results`: the scan with `best_match` and
      `highest_similarity`. */
  method FilterResults(ratio: Ratio, term: Json, es: seq<Entry>, threshold: int) returns (r: Selection)
    ensures r == Select(ratio, term, es, threshold)
  {
    var bestMatch: Option<string> := None;
    var highest: nat := 0;
    ghost var w: nat := 0;
    for i := 0 to |es|
      invariant i <= FirstStop(ratio, term, es)
      invariant ScanState(ratio, term, es[..i], threshold, bestMatch, highest, w)
    {
      var done;
      done, r, bestMatch, highest, w := ScanResult(ratio, term, es, i, threshold, bestMatch, highest, w);
      if done {
        return;
      }
    }
    assert es[..|es|] == es;
    SelectScanned(ratio, term, es, threshold, bestMatch, highest, w);
    r := Selected(bestMatch);
  }

  /** One pass of the scan: the result at index `i` either ends it, with the
      answer, or updates the best match when it scores higher than the best so
      far and meets the threshold. */
  method ScanResult(ratio: Ratio, term: Json, es: seq<Entry>, i: nat, threshold: int,
                    bestMatch: Option<string>, highest: nat, ghost w: nat)
    returns (done: bool, r: Selection, bestMatch': Option<string>, highest': nat, ghost w': nat)
    requires i < |es| && i <= FirstStop(ratio, term, es)
    requires ScanState(ratio, term, es[..i], threshold, bestMatch, highest, w)
    ensures done ==> r == Select(ratio, term, es, threshold)
    ensures !done ==>
      && i + 1 <= FirstStop(ratio, term, es)
      && ScanState(ratio, term, es[..i + 1], threshold, bestMatch', highest', w')
  {
    bestMatch', highest', w' := bestMatch, highest, w;
    r := LabelMissing;
    var s := BestSimilarity(ratio, term, es[i]);
    if s.None? {
      SelectStopped(ratio, term, es, threshold, i);
      return true, LabelMissing, bestMatch', highest', w';
    }
    if s.value == 100 {
      SelectStopped(ratio, term, es, threshold, i);
      return true, Selected(es[i].name), bestMatch', highest', w';
    }
    done := false;
    ScanStep(ratio, term, es, i, threshold, bestMatch, highest, w);
    if s.value > highest && s.value >= threshold {
      bestMatch' := es[i].name;
      highest' := s.value;
      w' := i;
    }
  }

  lemma {:induction false} SelectScanned(ratio: Ratio, term: Json, es: seq<Entry>, threshold: int,
                      bestMatch: Option<string>, highest: nat, w: nat)
    requires FirstStop(ratio, term, es) == |es|
    requires ScanState(ratio, term, es, threshold, bestMatch, highest, w)
    ensures Select(ratio, term, es, threshold) == Selected(bestMatch)
  {
  }

  /** The scan's state after a prefix: `highest` is the top qualifying score
      and `best_match` the label of its first occurrence, at index `w`. */
  ghost predicate ScanState(ratio: Ratio, term: Json, prefix: seq<Entry>, threshold: int,
                            bestMatch: Option<string>, highest: nat, w: nat)
  {
    && (forall j :: 0 <= j < |prefix| ==> prefix[j].name.Some?)
    && highest == TopScore(Scores(ratio, term, prefix), threshold)
    && (highest == 0 ==> bestMatch == None)
    && (highest > 0 ==> w < |prefix| && w == FirstAt(Scores(ratio, term, prefix), highest) && bestMatch == prefix[w].name)
  }

  lemma {:induction false} ScanStep(ratio: Ratio, term: Json, es: seq<Entry>, i: nat, threshold: int,
                 bestMatch: Option<string>, highest: nat, w: nat)
    requires i < |es| && !Stops(ratio, term, es[i])
    requires ScanState(ratio, term, es[..i], threshold, bestMatch, highest, w)
    ensures var s := BestSimilarity(ratio, term, es[i]).value;
      if s > highest && s >= threshold then ScanState(ratio, term, es[..i + 1], threshold, es[i].name, s, i)
      else ScanState(ratio, term, es[..i + 1], threshold, bestMatch, highest, w)
  {
    var s := BestSimilarity(ratio, term, es[i]).value;
    assert es[..i + 1] == es[..i] + [es[i]];
    ScoresSnoc(ratio, term, es[..i], es[i]);
    TopStep(Scores(ratio, term, es[..i]), s, threshold, highest, w);
  }

  lemma {:induction false} ScoresSnoc(ratio: Ratio, term: Json, es: seq<Entry>, e: Entry)
    requires forall j :: 0 <= j < |es| ==> es[j].name.Some?
    requires e.name.Some?
    ensures Scores(ratio, term, es + [e]) == Scores(ratio, term, es) + [BestSimilarity(ratio, term, e).value]
  {
    var xs := Scores(ratio, term, es + [e]);
    var ys := Scores(ratio, term, es) + [BestSimilarity(ratio, term, e).value];
    assert |xs| == |ys|;
    forall j | 0 <= j < |xs|
      ensures xs[j] == ys[j]
    {
      if j < |es| {
        assert (es + [e])[j] == es[j];
      }
    }
  }

  /** One step of the scan over the scores alone. */
  lemma {:induction false} TopStep(ss: seq<Score>, x: Score, threshold: int, highest: nat, w: nat)
    requires highest == TopScore(ss, threshold)
    requires highest > 0 ==> w < |ss| && w == FirstAt(ss, highest)
    ensures x > highest && x >= threshold ==>
      TopScore(ss + [x], threshold) == x && FirstAt(ss + [x], x) == |ss|
    ensures !(x > highest && x >= threshold) ==>
      TopScore(ss + [x], threshold) == highest && (highest > 0 ==> FirstAt(ss + [x], highest) == w)
  {
    assert (ss + [x])[..|ss|] == ss;
    if x > highest && x >= threshold {
      forall j | 0 <= j < |ss|
        ensures ss[j] != x
      {
        if Qualifies(ss[j], threshold) {
          assert ss[j] <= highest;
        }
      }
      FirstAtAbsent(ss, x);
    } else if highest > 0 {
      FirstAtPrefix(ss, [x], highest);
    }
  }

  lemma {:induction false} FirstAtAbsent(ss: seq<Score>, x: Score)
    requires forall j :: 0 <= j < |ss| ==> ss[j] != x
    ensures FirstAt(ss + [x], x) == |ss|
  {
    if ss != [] {
      assert (ss + [x])[1..] == ss[1..] + [x];
      FirstAtAbsent(ss[1..], x);
    }
  }

  lemma {:induction false} FirstAtPrefix(ss: seq<Score>, more: seq<Score>, m: int)
    requires FirstAt(ss, m) < |ss|
    ensures FirstAt(ss + more, m) == FirstAt(ss, m)
  {
    if ss[0] != m {
      assert (ss + more)[1..] == ss[1..] + more;
      FirstAtPrefix(ss[1..], more, m);
    }
  }

  /** The first result that has no label or scores 100 decides, whatever
      follows it: a `KeyError`, or its label. */
  lemma {:induction false} SelectStopped(ratio: Ratio, term: Json, es: seq<Entry>, threshold: int, k: nat)
    requires k < |es| && Stops(ratio, term, es[k])
    requires k <= FirstStop(ratio, term, es)
    ensures Select(ratio, term, es, threshold) == if es[k].name.None? then LabelMissing else Selected(es[k].name)
  {
    assert FirstStop(ratio, term, es) == k;
  }

  /** With every label present and no score of 100, a label is chosen exactly
      when some score qualifies, and it is the label of a result whose score
      is the highest qualifying one and strictly higher than every earlier
      result's score. */
  lemma {:induction false} SelectBest(ratio: Ratio, term: Json, es: seq<Entry>, threshold: int)
    requires forall j :: 0 <= j < |es| ==> !Stops(ratio, term, es[j])
    ensures forall j :: 0 <= j < |es| ==> es[j].name.Some?
    ensures Select(ratio, term, es, threshold).Selected?
    ensures var ss, name := Scores(ratio, term, es), Select(ratio, term, es, threshold).name;
      && (name.Some? <==> exists j :: 0 <= j < |es| && Qualifies(ss[j], threshold))
      && (name.Some? ==> exists w :: 0 <= w < |es| && name == es[w].name && BestAt(ss, w, threshold))
  {
    assert forall j :: 0 <= j < |es| ==> es[j].name.Some? by {
      forall j | 0 <= j < |es|
        ensures es[j].name.Some?
      {
        assert !Stops(ratio, term, es[j]);
      }
    }
    var ss := Scores(ratio, term, es);
    var m := TopScore(ss, threshold);
    var r := Select(ratio, term, es, threshold);
    assert FirstStop(ratio, term, es) == |es|;
    if m == 0 {
      assert r == Selected(None);
      assert forall j :: 0 <= j < |es| ==> !Qualifies(ss[j], threshold);
    } else {
      var w := FirstAt(ss, m);
      assert r == Selected(es[w].name);
      assert Qualifies(ss[w], threshold);
      forall j | 0 <= j < w
        ensures ss[j] < ss[w]
      {
        if Qualifies(ss[j], threshold) {
          assert ss[j] <= m && ss[j] != m;
        }
      }
      assert BestAt(ss, w, threshold);
    }
  }

  /** The score at `w` qualifies, is the highest qualifying score, and is
      strictly higher than every earlier score. */
  ghost predicate BestAt(ss: seq<Score>, w: nat, threshold: int)
    requires w < |ss|
  {
    && Qualifies(ss[w], threshold)
    && (forall j :: 0 <= j < |ss| && Qualifies(ss[j], threshold) ==> ss[j] <= ss[w])
    && (forall j :: 0 <= j < w ==> ss[j] < ss[w])
  }

  /** Raising the threshold either keeps the choice or drops it. */
  lemma {:induction false} SelectThreshold(ratio: Ratio, term: Json, es: seq<Entry>, low: int, high: int)
    requires low <= high
    ensures Select(ratio, term, es, high) == Select(ratio, term, es, low)
         || Select(ratio, term, es, high) == Selected(None)
  {
    if FirstStop(ratio, term, es) == |es| {
      TopScoreThreshold(Scores(ratio, term, es), low, high);
    }
  }

  lemma {:induction false} TopScoreThreshold(ss: seq<Score>, low: int, high: int)
    requires low <= high
    ensures TopScore(ss, high) == (if TopScore(ss, low) >= high then TopScore(ss, low) else 0)
  {
    if ss != [] {
      TopScoreThreshold(ss[..|ss| - 1], low, high);
    }
  }

  /** The body of a search response: its status and its `search` list. */
  datatype Response = Response(status: int, search: Option<seq<Entry>>)

  /** What `search_wikidata` gives back: the results, or the process exits. */
  datatype Search = Results(entries: seq<Entry>) | Exit

  /** `search_wikidata`: 200 gives the `search` list (empty when absent), 403
      exits the process, any other status gives no results. */
  function SearchOutcome(resp: Response): (r: Search)
    ensures r.Exit? <==> resp.status == 403
    ensures r.Results? && r.entries != [] ==> resp.status == 200 && resp.search == Some(r.entries)
    ensures resp.status == 200 && resp.search.None? ==> r == Results([])
    ensures resp.status == 200 && resp.search.Some? ==> r == Results(resp.search.value)
    ensures resp.status != 200 && resp.status != 403 ==> r == Results([])
  {
    if resp.status == 200 then Results(if resp.search.Some? then resp.search.value else [])
    else if resp.status == 403 then Exit
    else Results([])
  }
}
