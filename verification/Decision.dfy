/** Multi-criteria scoring and selection (`decision-engine.ts`), over the reals. */
module Decision {
  import opened Prelude
  import opened Sorting

  datatype DecisionOption = DecisionOption(id: string, attributes: map<string, real>)

  datatype Criterion = Criterion(id: string, attribute: string, weight: real, maximize: bool, threshold: Option<real>)

  function Times(x: real, y: real): real {
    x * y
  }

  function Ratio(x: real, y: real): real
    requires y != 0.0
  {
    x / y
  }

  function Raw(o: DecisionOption, attribute: string): real {
    if attribute in o.attributes then o.attributes[attribute] else 0.0
  }

  function Values(options: seq<DecisionOption>, attribute: string): (values: seq<real>)
    ensures |values| == |options| && forall i :: 0 <= i < |options| ==> values[i] == Raw(options[i], attribute)
  {
    seq(|options|, i requires 0 <= i < |options| => Raw(options[i], attribute))
  }

  function Min(values: seq<real>): (m: real)
    requires values != []
    ensures (forall x :: x in values ==> m <= x) && m in values
  {
    if |values| == 1 then values[0]
    else
      var rest := Min(values[1..]);
      assert values == [values[0]] + values[1..];
      if values[0] < rest then values[0] else rest
  }

  function Max(values: seq<real>): (m: real)
    requires values != []
    ensures (forall x :: x in values ==> x <= m) && m in values
  {
    if |values| == 1 then values[0]
    else
      var rest := Max(values[1..]);
      assert values == [values[0]] + values[1..];
      if values[0] > rest then values[0] else rest
  }

  /** Min-max normalisation; a flat range counts as 1. */
  function Scaled(raw: real, low: real, high: real): real {
    if high == low then 1.0 else Ratio(raw - low, high - low)
  }

  function Oriented(raw: real, low: real, high: real, maximize: bool): real {
    if maximize then Scaled(raw, low, high) else 1.0 - Scaled(raw, low, high)
  }

  function Normalized(options: seq<DecisionOption>, o: DecisionOption, c: Criterion): real
    requires options != []
  {
    var values := Values(options, c.attribute);
    Oriented(Raw(o, c.attribute), Min(values), Max(values), c.maximize)
  }

  function TotalWeight(criteria: seq<Criterion>): real {
    if criteria == [] then 0.0 else TotalWeight(criteria[..|criteria| - 1]) + criteria[|criteria| - 1].weight
  }

  predicate ValidCriteria(criteria: seq<Criterion>) {
    TotalWeight(criteria) > 0.0 && forall c :: c in criteria ==> c.weight >= 0.0
  }

  /** The weighted sum over the criteria, each weight taken as its share of `total`. */
  function Score(options: seq<DecisionOption>, criteria: seq<Criterion>, total: real, o: DecisionOption): real
    requires options != [] && total != 0.0
  {
    if criteria == [] then 0.0
    else
      var c := criteria[|criteria| - 1];
      Score(options, criteria[..|criteria| - 1], total, o) + Times(Normalized(options, o, c), Ratio(c.weight, total))
  }

  /** No criterion's threshold eliminates the option. */
  predicate MeetsThresholds(options: seq<DecisionOption>, criteria: seq<Criterion>, o: DecisionOption)
    requires options != []
  {
    forall c :: c in criteria && c.threshold.Some? ==> Normalized(options, o, c) >= c.threshold.value
  }

  method ScoreOption(options: seq<DecisionOption>, criteria: seq<Criterion>, total: real, o: DecisionOption) returns (score: real, meets: bool)
    requires options != [] && total != 0.0
    ensures score == Score(options, criteria, total, o) && meets == MeetsThresholds(options, criteria, o)
  {
    score, meets := 0.0, true;
    for i := 0 to |criteria|
      invariant score == Score(options, criteria[..i], total, o) && meets == MeetsThresholds(options, criteria[..i], o)
    {
      var c := criteria[i];
      assert criteria[..i + 1] == criteria[..i] + [c];
      var normalized := Normalized(options, o, c);
      if c.threshold.Some? && normalized < c.threshold.value { meets := false; }
      score := score + Times(normalized, Ratio(c.weight, total));
    }
    assert criteria[..|criteria|] == criteria;
  }

  predicate Viable(options: seq<DecisionOption>, criteria: seq<Criterion>, permits: DecisionOption -> bool, o: DecisionOption)
    requires options != []
  {
    o in options && permits(o) && MeetsThresholds(options, criteria, o)
  }

  /** A vetoed option scores 0. */
  datatype OptionScore = OptionScore(option: DecisionOption, score: real, eliminated: bool)

  function Scored(options: seq<DecisionOption>, criteria: seq<Criterion>, permits: DecisionOption -> bool, o: DecisionOption): OptionScore
    requires options != [] && TotalWeight(criteria) != 0.0
  {
    OptionScore(o, if permits(o) then Score(options, criteria, TotalWeight(criteria), o) else 0.0,
                !(permits(o) && MeetsThresholds(options, criteria, o)))
  }

  /** The comparator of the sort: the higher score first, then the order of ids. */
  predicate NotAfter(a: OptionScore, b: OptionScore, before: Collation) {
    a.score > b.score || (a.score == b.score && before(a.option.id, b.option.id))
  }

  function SortScores(scores: seq<OptionScore>, before: Collation): seq<OptionScore> {
    SortBy(scores, (a: OptionScore, b: OptionScore) => NotAfter(a, b, before))
  }

  method ScoreAll(options: seq<DecisionOption>, criteria: seq<Criterion>, permits: DecisionOption -> bool) returns (scores: seq<OptionScore>)
    requires options != [] && TotalWeight(criteria) != 0.0
    ensures |scores| == |options| && forall j :: 0 <= j < |options| ==> scores[j] == Scored(options, criteria, permits, options[j])
  {
    scores := [];
    for i := 0 to |options|
      invariant |scores| == i
      invariant forall j :: 0 <= j < i ==> scores[j] == Scored(options, criteria, permits, options[j])
    {
      var entry := ScoreEntry(options, criteria, permits, options[i]);
      scores := scores + [entry];
    }
  }

  method ScoreEntry(options: seq<DecisionOption>, criteria: seq<Criterion>, permits: DecisionOption -> bool, o: DecisionOption) returns (entry: OptionScore)
    requires options != [] && TotalWeight(criteria) != 0.0
    ensures entry == Scored(options, criteria, permits, o)
  {
    if !permits(o) { return OptionScore(o, 0.0, true); }
    var score, meets := ScoreOption(options, criteria, TotalWeight(criteria), o);
    return OptionScore(o, score, !meets);
  }

  /** The scores of the options that are not eliminated. */
  function Contenders(options: seq<DecisionOption>, criteria: seq<Criterion>, permits: DecisionOption -> bool): seq<OptionScore>
    requires options != [] && TotalWeight(criteria) != 0.0
  {
    var scores := seq(|options|, i requires 0 <= i < |options| => Scored(options, criteria, permits, options[i]));
    Filter(scores, (entry: OptionScore) => !entry.eliminated)
  }

  /** How far the winner is ahead of the best of the others; of nothing when there are no others. */
  ghost predicate IsMargin(contenders: seq<OptionScore>, winner: OptionScore, margin: real) {
    var others := multiset(contenders) - multiset{winner};
    if others == multiset{} then margin == winner.score
    else (exists e :: e in others && margin == winner.score - e.score) && forall e :: e in others ==> margin <= winner.score - e.score
  }

  /** `Math.max(0, Math.min(1, x))` */
  function Clamp(x: real): real {
    if x > 1.0 then 1.0 else if x < 0.0 then 0.0 else x
  }

  /** `Math.min(1, margin / decisive)`; a lead over a decisive margin of 0 is infinite, and 0 / 0 is not a number. */
  function Decisiveness(margin: real, decisive: real): Option<real>
    requires margin >= 0.0
  {
    if decisive == 0.0 then (if margin == 0.0 then None else Some(1.0))
    else Some(if Ratio(margin, decisive) > 1.0 then 1.0 else Ratio(margin, decisive))
  }

  function Confidence(score: real, margin: real, decisive: real): Option<real>
    requires margin >= 0.0
  {
    match Decisiveness(margin, decisive)
    case None => None
    case Some(share) => Some(Clamp(score / 2.0 + share / 2.0))
  }

  /** The confidence is `None` where the source computes NaN. */
  datatype Choice = Choice(selected: Option<DecisionOption>, confidence: Option<real>)

  /** An option that is not eliminated, and that no other such option precedes in the order of the sort. */
  ghost predicate IsBest(options: seq<DecisionOption>, criteria: seq<Criterion>, permits: DecisionOption -> bool, before: Collation, o: DecisionOption)
    requires options != [] && TotalWeight(criteria) != 0.0
  {
    && Viable(options, criteria, permits, o)
    && forall other :: Viable(options, criteria, permits, other) ==>
        NotAfter(Scored(options, criteria, permits, o), Scored(options, criteria, permits, other), before)
  }

  /** A constraint vetoes the option, or it falls below a threshold. */
  predicate RuledOut(options: seq<DecisionOption>, criteria: seq<Criterion>, permits: DecisionOption -> bool, o: DecisionOption)
    requires options != []
  {
    !permits(o) || exists c :: c in criteria && c.threshold.Some? && Normalized(options, o, c) < c.threshold.value
  }

  /** Nothing rules the option out, and every other such option scores less, or as much with a later id. */
  ghost predicate Wins(options: seq<DecisionOption>, criteria: seq<Criterion>, permits: DecisionOption -> bool, before: Collation, o: DecisionOption)
    requires options != [] && TotalWeight(criteria) != 0.0
  {
    && o in options && !RuledOut(options, criteria, permits, o)
    && forall other :: other in options && !RuledOut(options, criteria, permits, other) ==>
        var mine, its := Score(options, criteria, TotalWeight(criteria), o), Score(options, criteria, TotalWeight(criteria), other);
        its < mine || (its == mine && before(o.id, other.id))
  }

  lemma RuledOutIff(options: seq<DecisionOption>, criteria: seq<Criterion>, permits: DecisionOption -> bool, o: DecisionOption)
    requires o in options
    ensures RuledOut(options, criteria, permits, o) <==> !Viable(options, criteria, permits, o)
  {
  }

  lemma AllRuledOut(options: seq<DecisionOption>, criteria: seq<Criterion>, permits: DecisionOption -> bool)
    requires options != [] && forall o :: !Viable(options, criteria, permits, o)
    ensures forall o :: o in options ==> RuledOut(options, criteria, permits, o)
  {
    forall o | o in options
      ensures RuledOut(options, criteria, permits, o)
    {
      RuledOutIff(options, criteria, permits, o);
    }
  }

  lemma {:induction false} BestWins(options: seq<DecisionOption>, criteria: seq<Criterion>, permits: DecisionOption -> bool, before: Collation, o: DecisionOption)
    requires options != [] && TotalWeight(criteria) != 0.0 && IsBest(options, criteria, permits, before, o)
    ensures Wins(options, criteria, permits, before, o)
  {
    RuledOutIff(options, criteria, permits, o);
    forall other | other in options && !RuledOut(options, criteria, permits, other)
      ensures NotAfter(Scored(options, criteria, permits, o), Scored(options, criteria, permits, other), before) && permits(other)
    {
      RuledOutIff(options, criteria, permits, other);
    }
  }

  /** The winner, or nothing exactly when no option is viable. */
  method Decide(options: seq<DecisionOption>, criteria: seq<Criterion>, permits: DecisionOption -> bool, decisive: real, before: Collation)
    returns (r: Result<Choice>, ghost margin: real)
    requires Collates(before)
    ensures r.Err? ==> r.error == InvalidArgument
    ensures r.Err? <==> options == [] || criteria == [] || TotalWeight(criteria) <= 0.0 || exists c :: c in criteria && c.weight < 0.0
    ensures r.Ok? && r.value.selected.None? ==> forall o :: o in options ==> RuledOut(options, criteria, permits, o)
    ensures r.Ok? && r.value.selected.Some? ==> Wins(options, criteria, permits, before, r.value.selected.value)
    ensures r.Ok? && r.value.selected.None? ==> r.value.confidence == Some(0.0) && forall o :: !Viable(options, criteria, permits, o)
    ensures r.Ok? && r.value.selected.Some? ==> IsBest(options, criteria, permits, before, r.value.selected.value)
    ensures r.Ok? && r.value.selected.Some? ==>
      var winner := Scored(options, criteria, permits, r.value.selected.value);
      margin >= 0.0 && IsMargin(Contenders(options, criteria, permits), winner, margin) && r.value.confidence == Confidence(winner.score, margin, decisive)
  {
    margin := 0.0;
    if options == [] || criteria == [] { return Err(InvalidArgument), margin; }
    var total := TotalWeight(criteria);
    if total <= 0.0 || exists c :: c in criteria && c.weight < 0.0 { return Err(InvalidArgument), margin; }
    var viable := RankViable(options, criteria, permits, before);
    if viable == [] {
      NoneViable(options, criteria, permits);
      AllRuledOut(options, criteria, permits);
      return Ok(Choice(None, Some(0.0))), margin;
    }
    var winner := viable[0];
    var lead := if |viable| == 1 then winner.score else winner.score - viable[1].score;
    FirstIsBest(options, criteria, permits, before, viable);
    BestWins(options, criteria, permits, before, winner.option);
    LeadIsMargin(options, criteria, permits, before, viable);
    margin := lead;
    return Ok(Choice(Some(winner.option), Confidence(winner.score, lead, decisive))), margin;
  }

  /** The options that are not eliminated, best first. */
  method RankViable(options: seq<DecisionOption>, criteria: seq<Criterion>, permits: DecisionOption -> bool, before: Collation) returns (viable: seq<OptionScore>)
    requires options != [] && TotalWeight(criteria) != 0.0
    ensures viable == SortScores(Contenders(options, criteria, permits), before)
  {
    var scores := ScoreAll(options, criteria, permits);
    viable := SortScores(Filter(scores, (entry: OptionScore) => !entry.eliminated), before);
    ContendersKept(options, criteria, permits, scores);
  }

  lemma {:induction false} ContendersKept(options: seq<DecisionOption>, criteria: seq<Criterion>, permits: DecisionOption -> bool, scores: seq<OptionScore>)
    requires options != [] && TotalWeight(criteria) != 0.0 && |scores| == |options|
    requires forall j :: 0 <= j < |options| ==> scores[j] == Scored(options, criteria, permits, options[j])
    ensures Filter(scores, (entry: OptionScore) => !entry.eliminated) == Contenders(options, criteria, permits)
  {
    assert scores == seq(|options|, i requires 0 <= i < |options| => Scored(options, criteria, permits, options[i]));
  }

  lemma {:induction false} ContenderOf(options: seq<DecisionOption>, criteria: seq<Criterion>, permits: DecisionOption -> bool, o: DecisionOption)
    requires options != [] && TotalWeight(criteria) != 0.0 && Viable(options, criteria, permits, o)
    ensures Scored(options, criteria, permits, o) in Contenders(options, criteria, permits)
  {
    var scores := seq(|options|, i requires 0 <= i < |options| => Scored(options, criteria, permits, options[i]));
    var j :| 0 <= j < |options| && options[j] == o;
    assert scores[j] in scores;
  }

  lemma {:induction false} ContenderIs(options: seq<DecisionOption>, criteria: seq<Criterion>, permits: DecisionOption -> bool, entry: OptionScore)
    requires options != [] && TotalWeight(criteria) != 0.0 && entry in Contenders(options, criteria, permits)
    ensures entry == Scored(options, criteria, permits, entry.option) && Viable(options, criteria, permits, entry.option)
  {
  }

  lemma {:induction false} NoneViable(options: seq<DecisionOption>, criteria: seq<Criterion>, permits: DecisionOption -> bool)
    requires options != [] && TotalWeight(criteria) != 0.0 && Contenders(options, criteria, permits) == []
    ensures forall o :: !Viable(options, criteria, permits, o)
  {
    forall o | Viable(options, criteria, permits, o)
      ensures false
    {
      ContenderOf(options, criteria, permits, o);
    }
  }

  lemma {:induction false} FirstIsBest(options: seq<DecisionOption>, criteria: seq<Criterion>, permits: DecisionOption -> bool, before: Collation, viable: seq<OptionScore>)
    requires options != [] && TotalWeight(criteria) != 0.0 && Collates(before)
    requires viable == SortScores(Contenders(options, criteria, permits), before) && viable != []
    ensures viable[0] == Scored(options, criteria, permits, viable[0].option) && IsBest(options, criteria, permits, before, viable[0].option)
  {
    ContenderIs(options, criteria, permits, viable[0]);
    forall other | Viable(options, criteria, permits, other)
      ensures NotAfter(viable[0], Scored(options, criteria, permits, other), before)
    {
      ContenderOf(options, criteria, permits, other);
      FirstOfSorted(Contenders(options, criteria, permits), before, Scored(options, criteria, permits, other));
    }
  }

  lemma FirstOfSorted(scores: seq<OptionScore>, before: Collation, e: OptionScore)
    requires Collates(before) && e in scores
    ensures NotAfter(SortScores(scores, before)[0], e, before)
  {
    SortedOrdered(scores, before);
    var sorted := SortScores(scores, before);
    var k :| 0 <= k < |sorted| && sorted[k] == e;
    assert before(e.option.id, e.option.id);
  }

  lemma SortedOrdered(scores: seq<OptionScore>, before: Collation)
    requires Collates(before)
    ensures Ordered(SortScores(scores, before), (a: OptionScore, b: OptionScore) => NotAfter(a, b, before))
    ensures multiset(SortScores(scores, before)) == multiset(scores)
  {
    SortOrders(scores, (a: OptionScore, b: OptionScore) => NotAfter(a, b, before));
    SortPermutes(scores, (a: OptionScore, b: OptionScore) => NotAfter(a, b, before));
  }

  /** In a list sorted by score, the first is ahead of the rest by its lead over the second. */
  lemma LeadOfSorted(contenders: seq<OptionScore>, sorted: seq<OptionScore>)
    requires sorted != [] && multiset(sorted) == multiset(contenders)
    requires forall i, j :: 0 <= i < j < |sorted| ==> sorted[i].score >= sorted[j].score
    ensures IsMargin(contenders, sorted[0], if |sorted| == 1 then sorted[0].score else sorted[0].score - sorted[1].score)
  {
    assert sorted == [sorted[0]] + sorted[1..];
    var others := multiset(contenders) - multiset{sorted[0]};
    assert others == multiset(sorted[1..]);
    if |sorted| > 1 {
      assert sorted[1] in sorted[1..];
      forall e | e in others
        ensures sorted[1].score >= e.score
      {
        var j :| 0 <= j < |sorted[1..]| && sorted[1..][j] == e;
      }
    }
  }

  lemma {:induction false} LeadIsMargin(options: seq<DecisionOption>, criteria: seq<Criterion>, permits: DecisionOption -> bool, before: Collation, viable: seq<OptionScore>)
    requires options != [] && ValidCriteria(criteria) && Collates(before)
    requires viable == SortScores(Contenders(options, criteria, permits), before) && viable != []
    ensures var lead := if |viable| == 1 then viable[0].score else viable[0].score - viable[1].score;
      lead >= 0.0 && IsMargin(Contenders(options, criteria, permits), viable[0], lead)
  {
    var kept := Contenders(options, criteria, permits);
    SortedOrdered(kept, before);
    LeadOfSorted(kept, viable);
    KeptInRange(options, criteria, permits, viable[0]);
  }

  lemma {:induction false} KeptInRange(options: seq<DecisionOption>, criteria: seq<Criterion>, permits: DecisionOption -> bool, entry: OptionScore)
    requires options != [] && ValidCriteria(criteria) && entry in Contenders(options, criteria, permits)
    ensures 0.0 <= entry.score <= 1.0
  {
    ScoreInRange(options, criteria, entry.option);
  }

  lemma RatioAtLeastOne(x: real, y: real)
    requires y > 0.0
    ensures Ratio(x, y) >= 1.0 <==> x >= y
    ensures x >= 0.0 ==> Ratio(x, y) >= 0.0
  {
    RatioScales(x, y);
  }

  lemma RatioScales(x: real, y: real)
    requires y > 0.0
    ensures Times(Ratio(x, y), y) == x
  {
  }

  /** A decision is fully confident exactly if the winner has the highest possible score and a decisive lead. */
  lemma {:induction false} FullyConfidentIff(score: real, margin: real, decisive: real)
    requires 0.0 <= score <= 1.0 && margin >= 0.0 && decisive > 0.0
    ensures Confidence(score, margin, decisive) == Some(1.0) <==> score == 1.0 && margin >= decisive
  {
    RatioAtLeastOne(margin, decisive);
  }

  /** The confidence is the mean of the score and of the lead's share of the decisive margin, at most 1, and no less than 0; 0 of 0 has none. */
  lemma {:induction false} ConfidenceIsMean(score: real, margin: real, decisive: real)
    requires 0.0 <= score <= 1.0 && margin >= 0.0
    ensures Confidence(score, margin, decisive).None? <==> margin == 0.0 == decisive
    ensures margin > 0.0 && margin >= decisive >= 0.0 ==> Confidence(score, margin, decisive) == Some((score + 1.0) / 2.0)
    ensures margin < decisive ==> var c := Confidence(score, margin, decisive);
      c.Some? && Times(c.value + c.value - score, decisive) == margin
    ensures decisive < 0.0 ==> var c := Confidence(score, margin, decisive);
      c.Some? && if margin >= Times(score, -decisive) then c.value == 0.0 else Times(c.value + c.value - score, decisive) == margin
  {
    if decisive > 0.0 {
      RatioAtLeastOne(margin, decisive);
      RatioScales(margin, decisive);
    } else if decisive < 0.0 {
      RatioBelow(margin, decisive, score);
    }
  }

  lemma RatioBelow(x: real, y: real, z: real)
    requires x >= 0.0 > y
    ensures Times(Ratio(x, y), y) == x && Ratio(x, y) <= 0.0
    ensures Ratio(x, y) + z <= 0.0 <==> x >= Times(z, -y)
  {
    var q := Ratio(x, y);
    assert q * y == x;
    if q + z <= 0.0 { assert (q + z) * y >= 0.0; }
    if q + z > 0.0 { assert (q + z) * y < 0.0; }
  }

  datatype Request = Request(options: seq<DecisionOption>, criteria: seq<Criterion>, permits: DecisionOption -> bool)

  /** On this request `decide` selects the option, which leads by the margin. */
  ghost predicate Selects(q: Request, before: Collation, o: DecisionOption, margin: real) {
    && q.options != [] && ValidCriteria(q.criteria) && IsBest(q.options, q.criteria, q.permits, before, o)
    && margin >= 0.0 && IsMargin(Contenders(q.options, q.criteria, q.permits), Scored(q.options, q.criteria, q.permits, o), margin)
  }

  lemma {:induction false} WinnerInRange(q: Request, before: Collation, o: DecisionOption, margin: real)
    requires Selects(q, before, o, margin)
    ensures Scored(q.options, q.criteria, q.permits, o).score == Score(q.options, q.criteria, TotalWeight(q.criteria), o)
    ensures 0.0 <= Score(q.options, q.criteria, TotalWeight(q.criteria), o) <= 1.0
  {
    ScoreInRange(q.options, q.criteria, o);
  }

  lemma EquallySure(first: real, second: real, margin: real, decisive: real)
    requires 0.0 <= first <= 1.0 && 0.0 <= second <= 1.0 && margin >= 0.0 && decisive > 0.0
    ensures Confidence(first, margin, decisive) == Confidence(second, margin, decisive) <==> first == second
  {
    RatioAtLeastOne(margin, decisive);
  }

  /**
   The class comment has the confidence reflect the margin rather than the raw score. Two decisions by the same margin
   are equally confident exactly if their winners score equally.
   */
  lemma {:induction false} ConfidenceReflectsScore(q: Request, p: Request, before: Collation, o: DecisionOption, w: DecisionOption, margin: real, decisive: real)
    requires Selects(q, before, o, margin) && Selects(p, before, w, margin) && decisive > 0.0
    ensures Confidence(Scored(q.options, q.criteria, q.permits, o).score, margin, decisive)
         == Confidence(Scored(p.options, p.criteria, p.permits, w).score, margin, decisive)
      <==> Score(q.options, q.criteria, TotalWeight(q.criteria), o) == Score(p.options, p.criteria, TotalWeight(p.criteria), w)
  {
    WinnerInRange(q, before, o, margin);
    WinnerInRange(p, before, w, margin);
    EquallySure(Score(q.options, q.criteria, TotalWeight(q.criteria), o), Score(p.options, p.criteria, TotalWeight(p.criteria), w), margin, decisive);
  }

  // What a score is made of.

  lemma RatioFlips(raw: real, low: real, high: real)
    requires low < high
    ensures Times(1.0 - Ratio(raw - low, high - low), high - low) == high - raw
  {
    RatioScales(raw - low, high - low);
    var share, span := Ratio(raw - low, high - low), high - low;
    assert Times(1.0 - share, span) == span - Times(share, span);
  }

  lemma OrientedLies(raw: real, low: real, high: real, maximize: bool)
    requires low < high
    ensures Times(Oriented(raw, low, high, maximize), high - low) == if maximize then raw - low else high - raw
  {
    RatioScales(raw - low, high - low);
    RatioFlips(raw, low, high);
  }

  /** The value an option gives for an attribute; one it does not list counts as 0. */
  predicate Rates(o: DecisionOption, attribute: string, value: real) {
    (attribute in o.attributes ==> o.attributes[attribute] == value) && (attribute !in o.attributes ==> value == 0.0)
  }

  /** `low` and `high` are the least and the greatest value of an attribute among the options. */
  ghost predicate IsRange(options: seq<DecisionOption>, attribute: string, low: real, high: real) {
    && (exists x :: x in options && Rates(x, attribute, low)) && (exists x :: x in options && Rates(x, attribute, high))
    && forall x, value :: x in options && Rates(x, attribute, value) ==> low <= value <= high
  }

  lemma RangeOf(options: seq<DecisionOption>, attribute: string, low: real, high: real)
    requires options != [] && IsRange(options, attribute, low, high)
    ensures Min(Values(options, attribute)) == low && Max(Values(options, attribute)) == high
  {
    var values := Values(options, attribute);
    ValueListed(options, attribute, low);
    ValueListed(options, attribute, high);
    forall v | v in values
      ensures low <= v <= high
    {
      var i :| 0 <= i < |values| && values[i] == v;
      assert options[i] in options && Rates(options[i], attribute, v);
    }
  }

  lemma ValueListed(options: seq<DecisionOption>, attribute: string, value: real)
    requires exists x :: x in options && Rates(x, attribute, value)
    ensures value in Values(options, attribute)
  {
    var x :| x in options && Rates(x, attribute, value);
    var i :| 0 <= i < |options| && options[i] == x;
    assert Values(options, attribute)[i] == value;
  }

  /** Where the value of an option lies between the least and the greatest of all, counted from the end that is not wanted. */
  lemma {:induction false} NormalizedLies(options: seq<DecisionOption>, o: DecisionOption, c: Criterion, raw: real, low: real, high: real)
    requires o in options && Rates(o, c.attribute, raw) && low < high && IsRange(options, c.attribute, low, high)
    ensures Times(Normalized(options, o, c), high - low) == if c.maximize then raw - low else high - raw
  {
    RangeOf(options, c.attribute, low, high);
    OrientedLies(raw, low, high, c.maximize);
  }

  /** Each criterion's points: its weight times where the option lies on it. */
  function Points(options: seq<DecisionOption>, criteria: seq<Criterion>, o: DecisionOption): real
    requires options != []
  {
    if criteria == [] then 0.0 else Times(criteria[0].weight, Normalized(options, o, criteria[0])) + Points(options, criteria[1..], o)
  }

  lemma {:induction false} PointsAppend(options: seq<DecisionOption>, criteria: seq<Criterion>, c: Criterion, o: DecisionOption)
    requires options != []
    ensures Points(options, criteria + [c], o) == Points(options, criteria, o) + Times(c.weight, Normalized(options, o, c))
  {
    if criteria == [] {
      assert [] + [c] == [c] && [c][1..] == [];
    } else {
      FrontStays(criteria, c);
      PointsAppend(options, criteria[1..], c, o);
    }
  }

  lemma ShareIs(normalized: real, weight: real, total: real)
    requires total != 0.0
    ensures Times(Times(normalized, Ratio(weight, total)), total) == Times(weight, normalized)
  {
    assert Ratio(weight, total) * total == weight;
  }

  lemma TimesAdds(x: real, y: real, z: real)
    ensures Times(x + y, z) == Times(x, z) + Times(y, z)
  {
  }

  lemma {:induction false} ScoreTimes(options: seq<DecisionOption>, criteria: seq<Criterion>, total: real, o: DecisionOption)
    requires options != [] && total != 0.0
    ensures Times(Score(options, criteria, total, o), total) == Points(options, criteria, o)
  {
    if criteria == [] {
    } else {
      var front, c := criteria[..|criteria| - 1], criteria[|criteria| - 1];
      assert criteria == front + [c];
      ScoreTimes(options, front, total, o);
      PointsAppend(options, front, c, o);
      ShareIs(Normalized(options, o, c), c.weight, total);
      TimesAdds(Score(options, front, total, o), Times(Normalized(options, o, c), Ratio(c.weight, total)), total);
    }
  }

  function Weights(criteria: seq<Criterion>): real {
    if criteria == [] then 0.0 else criteria[0].weight + Weights(criteria[1..])
  }

  lemma {:induction false} WeightsTotal(criteria: seq<Criterion>)
    ensures Weights(criteria) == TotalWeight(criteria)
  {
    if criteria == [] {
    } else {
      var front, c := criteria[..|criteria| - 1], criteria[|criteria| - 1];
      if front == [] {
        assert criteria[1..] == [];
      } else {
        WeightsTotal(criteria[1..]);
        WeightsTotal(front);
        WeightsTotal(front[1..]);
        assert criteria[1..][..|criteria| - 2] == front[1..] && criteria[1..][|criteria| - 2] == c;
      }
    }
  }

  /** A score is the mean of where the option lies on each criterion, weighted by the criteria's weights. */
  lemma {:induction false} ScoreIsMean(options: seq<DecisionOption>, criteria: seq<Criterion>, o: DecisionOption)
    requires options != [] && TotalWeight(criteria) != 0.0
    ensures Times(Score(options, criteria, TotalWeight(criteria), o), Weights(criteria)) == Points(options, criteria, o)
  {
    WeightsTotal(criteria);
    ScoreTimes(options, criteria, TotalWeight(criteria), o);
  }

  // Scores lie in [0, 1].

  lemma RatioInRange(x: real, y: real)
    requires 0.0 <= x <= y && y > 0.0
    ensures 0.0 <= Ratio(x, y) <= 1.0
  {
  }

  lemma {:induction false} NormalizedInRange(options: seq<DecisionOption>, o: DecisionOption, c: Criterion)
    requires o in options
    ensures 0.0 <= Normalized(options, o, c) <= 1.0
  {
    var values := Values(options, c.attribute);
    var i :| 0 <= i < |options| && options[i] == o;
    assert values[i] in values;
    if Max(values) != Min(values) {
      RatioInRange(values[i] - Min(values), Max(values) - Min(values));
    }
  }

  lemma ProductInRange(x: real, y: real)
    requires 0.0 <= x <= 1.0 && y >= 0.0
    ensures 0.0 <= Times(x, y) <= y
  {
    assert y - x * y == (1.0 - x) * y && x * y >= 0.0 && (1.0 - x) * y >= 0.0;
  }

  lemma RatioAdds(x: real, y: real, total: real)
    requires total > 0.0
    ensures Ratio(x, total) + Ratio(y, total) == Ratio(x + y, total) && (x >= 0.0 ==> Ratio(x, total) >= 0.0)
    ensures Ratio(0.0, total) == 0.0 && Ratio(total, total) == 1.0
  {
  }

  lemma {:induction false} ScoreBounded(options: seq<DecisionOption>, criteria: seq<Criterion>, total: real, o: DecisionOption)
    requires o in options && total > 0.0 && forall c :: c in criteria ==> c.weight >= 0.0
    ensures 0.0 <= Score(options, criteria, total, o) <= Ratio(TotalWeight(criteria), total)
  {
    RatioAdds(0.0, 0.0, total);
    if criteria == [] {
    } else {
      var front, c := criteria[..|criteria| - 1], criteria[|criteria| - 1];
      ScoreBounded(options, front, total, o);
      NormalizedInRange(options, o, c);
      RatioAdds(c.weight, TotalWeight(front), total);
      ProductInRange(Normalized(options, o, c), Ratio(c.weight, total));
    }
  }

  /** Every option's score is between 0 and 1. */
  lemma {:induction false} ScoreInRange(options: seq<DecisionOption>, criteria: seq<Criterion>, o: DecisionOption)
    requires o in options && ValidCriteria(criteria)
    ensures 0.0 <= Score(options, criteria, TotalWeight(criteria), o) <= 1.0
  {
    ScoreBounded(options, criteria, TotalWeight(criteria), o);
    RatioAdds(TotalWeight(criteria), 0.0, TotalWeight(criteria));
  }

  // Units do not matter.

  function Mapped(o: DecisionOption, attribute: string, f: real -> real): DecisionOption {
    o.(attributes := o.attributes[attribute := f(Raw(o, attribute))])
  }

  function MappedAll(options: seq<DecisionOption>, attribute: string, f: real -> real): (r: seq<DecisionOption>)
    ensures |r| == |options| && forall i :: 0 <= i < |options| ==> r[i] == Mapped(options[i], attribute, f)
  {
    seq(|options|, i requires 0 <= i < |options| => Mapped(options[i], attribute, f))
  }

  lemma ValuesMapped(options: seq<DecisionOption>, attribute: string, f: real -> real, other: string)
    ensures var values, others := Values(options, other), Values(MappedAll(options, attribute, f), other);
      if other == attribute then forall i :: 0 <= i < |values| ==> others[i] == f(values[i]) else others == values
  {
  }

  /** An increasing function under which min-max normalisation gives the same result. */
  ghost predicate ChangesUnits(f: real -> real) {
    && (forall x, y :: x <= y <==> f(x) <= f(y))
    && forall raw, low, high :: Scaled(f(raw), f(low), f(high)) == Scaled(raw, low, high)
  }

  lemma {:induction false} BoundsMapped(values: seq<real>, others: seq<real>, f: real -> real)
    requires values != [] && |others| == |values| && (forall x, y :: x <= y <==> f(x) <= f(y))
    requires forall i :: 0 <= i < |values| ==> others[i] == f(values[i])
    ensures Min(others) == f(Min(values)) && Max(others) == f(Max(values))
  {
    if |values| == 1 {
    } else {
      BoundsMapped(values[1..], others[1..], f);
    }
  }

  /** The bounds are mapped, and normalising with them gives the same: this is all that the change of units is used for. */
  lemma NormalizedSame(options: seq<DecisionOption>, others: seq<DecisionOption>, o: DecisionOption, other: DecisionOption, c: Criterion, scaled: real)
    requires options != [] && others != []
    requires Scaled(Raw(o, c.attribute), Min(Values(options, c.attribute)), Max(Values(options, c.attribute))) == scaled
    requires Scaled(Raw(other, c.attribute), Min(Values(others, c.attribute)), Max(Values(others, c.attribute))) == scaled
    ensures Normalized(others, other, c) == Normalized(options, o, c)
  {
  }

  lemma ScaledMapped(options: seq<DecisionOption>, o: DecisionOption, attribute: string, f: real -> real)
    requires options != [] && ChangesUnits(f)
    ensures var values, others := Values(options, attribute), Values(MappedAll(options, attribute, f), attribute);
      Scaled(f(Raw(o, attribute)), Min(others), Max(others)) == Scaled(Raw(o, attribute), Min(values), Max(values))
  {
    var values, others := Values(options, attribute), Values(MappedAll(options, attribute, f), attribute);
    ValuesMapped(options, attribute, f, attribute);
    BoundsMapped(values, others, f);
    SameScale(f, Raw(o, attribute), Min(values), Max(values));
  }

  lemma SameScale(f: real -> real, raw: real, low: real, high: real)
    requires ChangesUnits(f)
    ensures Scaled(f(raw), f(low), f(high)) == Scaled(raw, low, high)
  {
  }

  lemma NormalizedUnitless(options: seq<DecisionOption>, o: DecisionOption, c: Criterion, attribute: string, f: real -> real)
    requires options != [] && ChangesUnits(f)
    ensures Normalized(MappedAll(options, attribute, f), Mapped(o, attribute, f), c) == Normalized(options, o, c)
  {
    var values := Values(options, c.attribute);
    if c.attribute == attribute {
      ScaledMapped(options, o, attribute, f);
    } else {
      ValuesMapped(options, attribute, f, c.attribute);
    }
    NormalizedSame(options, MappedAll(options, attribute, f), o, Mapped(o, attribute, f), c, Scaled(Raw(o, c.attribute), Min(values), Max(values)));
  }

  lemma {:induction false} ScoreUnitless(options: seq<DecisionOption>, criteria: seq<Criterion>, total: real, o: DecisionOption, attribute: string, f: real -> real)
    requires options != [] && total != 0.0 && ChangesUnits(f)
    ensures Score(MappedAll(options, attribute, f), criteria, total, Mapped(o, attribute, f)) == Score(options, criteria, total, o)
  {
    if criteria == [] {
    } else {
      var front, c := criteria[..|criteria| - 1], criteria[|criteria| - 1];
      ScoreUnitless(options, front, total, o, attribute, f);
      NormalizedUnitless(options, o, c, attribute, f);
    }
  }

  lemma ThresholdsUnitless(options: seq<DecisionOption>, criteria: seq<Criterion>, o: DecisionOption, attribute: string, f: real -> real)
    requires options != [] && ChangesUnits(f)
    ensures MeetsThresholds(MappedAll(options, attribute, f), criteria, Mapped(o, attribute, f)) == MeetsThresholds(options, criteria, o)
  {
    forall c | c in criteria
      ensures Normalized(MappedAll(options, attribute, f), Mapped(o, attribute, f), c) == Normalized(options, o, c)
    {
      NormalizedUnitless(options, o, c, attribute, f);
    }
  }

  lemma TimesMonotone(k: real, x: real, y: real)
    requires k > 0.0
    ensures x <= y <==> Times(k, x) <= Times(k, y)
    ensures x == y <==> Times(k, x) == Times(k, y)
  {
    assert k * y - k * x == k * (y - x);
  }

  lemma RatioCancels(k: real, x: real, y: real)
    requires k > 0.0 && y != 0.0
    ensures k * y != 0.0 && (k * x) / (k * y) == Ratio(x, y)
  {
    var q := x / y;
    assert q * y == x;
    assert q * (k * y) == k * x;
  }

  lemma ScaledRescales(raw: real, low: real, high: real, k: real, c: real)
    requires k > 0.0
    ensures Scaled(Times(k, raw) + c, Times(k, low) + c, Times(k, high) + c) == Scaled(raw, low, high)
  {
    TimesMonotone(k, low, high);
    if high != low {
      var x, y := raw - low, high - low;
      assert k * raw - k * low == k * x && k * high - k * low == k * y;
      RatioCancels(k, x, y);
    }
  }

  function Rescaling(k: real, d: real): real -> real {
    x => Times(k, x) + d
  }

  lemma RescalingChangesUnits(k: real, d: real)
    requires k > 0.0
    ensures ChangesUnits(Rescaling(k, d))
  {
    var f := Rescaling(k, d);
    forall x, y
      ensures x <= y <==> f(x) <= f(y)
    {
      TimesMonotone(k, x, y);
    }
    forall raw, low, high
      ensures Scaled(f(raw), f(low), f(high)) == Scaled(raw, low, high)
    {
      ScaledRescales(raw, low, high, k, d);
    }
  }

  /** Rescaling an attribute by a positive factor and an offset, in every option, changes no score and no elimination. */
  lemma {:induction false} UnitsDoNotMatter(options: seq<DecisionOption>, criteria: seq<Criterion>, total: real, o: DecisionOption,
                                            attribute: string, k: real, d: real)
    requires options != [] && total != 0.0 && k > 0.0
    ensures var others, other := MappedAll(options, attribute, Rescaling(k, d)), Mapped(o, attribute, Rescaling(k, d));
      Score(others, criteria, total, other) == Score(options, criteria, total, o)
      && MeetsThresholds(others, criteria, other) == MeetsThresholds(options, criteria, o)
  {
    RescalingChangesUnits(k, d);
    ScoreUnitless(options, criteria, total, o, attribute, Rescaling(k, d));
    ThresholdsUnitless(options, criteria, o, attribute, Rescaling(k, d));
  }

  // Dominance.

  /** At least as good on a criterion, in its direction. */
  predicate AsGood(a: DecisionOption, b: DecisionOption, c: Criterion) {
    if c.maximize then Raw(a, c.attribute) >= Raw(b, c.attribute) else Raw(a, c.attribute) <= Raw(b, c.attribute)
  }

  lemma RatioMonotone(x: real, y: real, z: real)
    requires z > 0.0 && x <= y
    ensures Ratio(x, z) <= Ratio(y, z)
  {
    var p, q := x / z, y / z;
    assert p * z == x && q * z == y;
    if p > q { TimesMonotone(z, q, p); }
  }

  lemma NormalizedMonotone(options: seq<DecisionOption>, a: DecisionOption, b: DecisionOption, c: Criterion)
    requires a in options && AsGood(a, b, c)
    ensures Normalized(options, a, c) >= Normalized(options, b, c)
  {
    var values := Values(options, c.attribute);
    var low, high := Min(values), Max(values);
    if high != low {
      if c.maximize {
        RatioMonotone(Raw(b, c.attribute) - low, Raw(a, c.attribute) - low, high - low);
      } else {
        RatioMonotone(Raw(a, c.attribute) - low, Raw(b, c.attribute) - low, high - low);
      }
    }
  }

  lemma WeightedMonotone(x: real, y: real, share: real)
    requires x <= y && share >= 0.0
    ensures Times(x, share) <= Times(y, share)
  {
    assert y * share - x * share == (y - x) * share && (y - x) * share >= 0.0;
  }

  /** An option at least as good on every criterion scores at least as high, and meets every threshold the other meets. */
  lemma {:induction false} DominanceRespected(options: seq<DecisionOption>, criteria: seq<Criterion>, total: real, a: DecisionOption, b: DecisionOption)
    requires a in options && total > 0.0
    requires forall c :: c in criteria ==> c.weight >= 0.0 && AsGood(a, b, c)
    ensures Score(options, criteria, total, a) >= Score(options, criteria, total, b)
    ensures MeetsThresholds(options, criteria, b) ==> MeetsThresholds(options, criteria, a)
  {
    forall c | c in criteria
      ensures Normalized(options, a, c) >= Normalized(options, b, c)
    {
      NormalizedMonotone(options, a, b, c);
    }
    if criteria == [] {
    } else {
      var front, c := criteria[..|criteria| - 1], criteria[|criteria| - 1];
      DominanceRespected(options, front, total, a, b);
      RatioAdds(c.weight, 0.0, total);
      WeightedMonotone(Normalized(options, b, c), Normalized(options, a, c), Ratio(c.weight, total));
    }
  }

  // Flat ranges.

  predicate Flat(options: seq<DecisionOption>, attribute: string)
    requires options != []
  {
    Min(Values(options, attribute)) == Max(Values(options, attribute))
  }

  function Negation(): real -> real {
    x => -x
  }

  lemma {:induction false} BoundsNegate(values: seq<real>, negated: seq<real>)
    requires values != [] && |negated| == |values| && forall i :: 0 <= i < |values| ==> negated[i] == -values[i]
    ensures Min(negated) == -Max(values) && Max(negated) == -Min(values)
  {
    if |values| == 1 {
    } else {
      BoundsNegate(values[1..], negated[1..]);
    }
  }

  lemma RatioComplement(x: real, y: real)
    requires y != 0.0
    ensures Ratio(x, y) + Ratio(y - x, y) == 1.0
  {
    var p, q := Ratio(x, y), Ratio(y - x, y);
    assert Times(p, y) == x && Times(q, y) == y - x;
    assert Times(p + q, y) == Times(p, y) + Times(q, y);
    OnlyOne(p + q, y);
  }

  lemma OnlyOne(x: real, y: real)
    requires y != 0.0 && Times(x, y) == y
    ensures x == 1.0
  {
    assert Times(x - 1.0, y) == 0.0;
  }

  /** Swapping and negating the bounds turns a scaled value into its complement, unless the range is flat. */
  lemma OrientedNegates(raw: real, low: real, high: real, raw': real, low': real, high': real)
    requires raw' == -raw && low' == -high && high' == -low
    ensures Oriented(raw', low', high', true) == Oriented(raw, low, high, false) <==> high != low
    ensures high == low ==> Oriented(raw, low, high, false) == 0.0
  {
    if high != low {
      RatioComplement(raw - low, high - low);
    }
  }

  /**
   Minimising an attribute is maximising its negative exactly when the attribute is not flat: a flat attribute scores 1
   when maximised but 0 when minimised, although the comment on flat ranges promises that all options count as ideal.
   */
  lemma {:induction false} MinimizeIsMaximizeNegatedIff(options: seq<DecisionOption>, o: DecisionOption, c: Criterion)
    requires options != [] && !c.maximize
    ensures Normalized(MappedAll(options, c.attribute, Negation()), Mapped(o, c.attribute, Negation()), c.(maximize := true)) == Normalized(options, o, c)
      <==> !Flat(options, c.attribute)
    ensures Flat(options, c.attribute) ==> Normalized(options, o, c) == 0.0
  {
    var others, other := MappedAll(options, c.attribute, Negation()), Mapped(o, c.attribute, Negation());
    var values, negated := Values(options, c.attribute), Values(others, c.attribute);
    ValuesMapped(options, c.attribute, Negation(), c.attribute);
    BoundsNegate(values, negated);
    OrientedNegates(Raw(o, c.attribute), Min(values), Max(values), Raw(other, c.attribute), Min(negated), Max(negated));
  }

  /** The comment promises that on a flat attribute all options count as ideal: so they do exactly when it is maximised. */
  lemma {:induction false} FlatIdealIff(options: seq<DecisionOption>, o: DecisionOption, c: Criterion)
    requires options != [] && Flat(options, c.attribute)
    ensures Normalized(options, o, c) == 1.0 <==> c.maximize
    ensures Normalized(options, o, c) == if c.maximize then 1.0 else 0.0
  {
    assert Scaled(Raw(o, c.attribute), Min(Values(options, c.attribute)), Max(Values(options, c.attribute))) == 1.0;
  }

  function Tied(): seq<DecisionOption> {
    [DecisionOption("a", map[]), DecisionOption("b", map[])]
  }

  lemma {:induction false} TiedScores(c: Criterion, permits: DecisionOption -> bool, o: DecisionOption)
    requires o in Tied() && c.weight == 1.0 && c.threshold.None? && permits(o)
    ensures TotalWeight([c]) == 1.0 && Scored(Tied(), [c], permits, o) == OptionScore(o, if c.maximize then 1.0 else 0.0, false)
  {
    assert [c][..0] == [];
    assert TotalWeight([c]) == 1.0;
    assert Values(Tied(), c.attribute) == [0.0, 0.0];
    FlatIdealIff(Tied(), o, c);
    assert Score(Tied(), [c][..0], 1.0, o) == 0.0;
    assert [c][|[c]| - 1] == c;
    assert Score(Tied(), [c], 1.0, o) == Times(Normalized(Tied(), o, c), Ratio(1.0, 1.0));
    assert MeetsThresholds(Tied(), [c], o);
  }

  lemma {:induction false} TiedMargin(c: Criterion, permits: DecisionOption -> bool)
    requires c.weight == 1.0 && c.threshold.None? && permits(Tied()[0]) && permits(Tied()[1])
    ensures TotalWeight([c]) == 1.0 && IsMargin(Contenders(Tied(), [c], permits), Scored(Tied(), [c], permits, Tied()[0]), 0.0)
  {
    var a, b := Tied()[0], Tied()[1];
    TiedScores(c, permits, a);
    TiedScores(c, permits, b);
    var first, second := Scored(Tied(), [c], permits, a), Scored(Tied(), [c], permits, b);
    ContendersKept(Tied(), [c], permits, [first, second]);
    assert [first, second][1..] == [second];
    assert Contenders(Tied(), [c], permits) == [first, second];
    LeadOfSorted([first, second], [first, second]);
  }

  /** Two tied options have the same lead, nothing, under any one criterion; the confidence is 1/2 if it is maximised, else 0. */
  lemma {:induction false} TiedYetUnequallySure(c: Criterion, permits: DecisionOption -> bool)
    requires c.weight == 1.0 && c.threshold.None? && permits(Tied()[0]) && permits(Tied()[1])
    ensures TotalWeight([c]) == 1.0
    ensures var winner := Scored(Tied(), [c], permits, Tied()[0]);
      && IsMargin(Contenders(Tied(), [c], permits), winner, 0.0)
      && Confidence(winner.score, 0.0, 0.1) == Some(if c.maximize then 0.5 else 0.0)
  {
    TiedMargin(c, permits);
    TiedScores(c, permits, Tied()[0]);
  }

  /** A single option with a single criterion to minimise scores 0. */
  lemma {:induction false} OnlyOptionScoresZero()
    ensures var o, c := DecisionOption("a", map["price" := 5.0]), Criterion("cheap", "price", 1.0, false, None);
      ValidCriteria([c]) && Score([o], [c], TotalWeight([c]), o) == 0.0
  {
    var o, c := DecisionOption("a", map["price" := 5.0]), Criterion("cheap", "price", 1.0, false, None);
    assert [c][..0] == [];
    assert TotalWeight([c]) == 1.0;
    assert Values([o], "price") == [5.0];
    FlatIdealIff([o], o, c);
  }
}
