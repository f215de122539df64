/** Facts, rules and derivations of forward chaining (`reasoning-engine.ts`). */
module Reasoning {
  import opened Prelude

  type Id = string

  datatype Strategy = Deductive | Inductive | Abductive | ChainOfThought

  /** `rule` and `premises` are empty for a fact that was supplied. */
  datatype Fact = Fact(id: Id, statement: string, confidence: real, rule: Id, premises: seq<Id>)

  datatype Output = Output(statement: string, confidence: real)

  datatype Rule = Rule(id: Id, strategy: Strategy, matches: seq<Fact> -> Option<seq<Id>>, derive: seq<Fact> -> Output)

  function Ids(facts: seq<Fact>): (ids: seq<Id>)
    ensures |ids| == |facts| && forall i :: 0 <= i < |ids| ==> ids[i] == facts[i].id
  {
    seq(|facts|, i requires 0 <= i < |facts| => facts[i].id)
  }

  /** `Map.prototype.set`, keeping insertion order. */
  function Put(facts: seq<Fact>, fact: Fact): seq<Fact> {
    if facts == [] then [fact]
    else if facts[0].id == fact.id then [fact] + facts[1..]
    else [facts[0]] + Put(facts[1..], fact)
  }

  /** `new Map(facts.map((fact) => [fact.id, fact]))` */
  function Indexed(facts: seq<Fact>): seq<Fact> {
    if facts == [] then [] else Put(Indexed(facts[..|facts| - 1]), facts[|facts| - 1])
  }

  function Statements(facts: seq<Fact>): set<string> {
    set f | f in facts :: f.statement
  }

  /** `working.get(id)` for each id; `None` if some id is unknown. */
  function Lookup(facts: seq<Fact>, ids: seq<Id>): (r: Option<seq<Fact>>)
    ensures r.Some? ==> |r.value| == |ids| && forall i :: 0 <= i < |ids| ==> r.value[i] in facts && r.value[i].id == ids[i]
  {
    if ids == [] then Some([])
    else
      var first, rest := Find(facts, ids[0]), Lookup(facts, ids[1..]);
      if first.Some? && rest.Some? then Some([first.value] + rest.value) else None
  }

  function Find(facts: seq<Fact>, id: Id): (r: Option<Fact>)
    ensures r.Some? ==> r.value in facts && r.value.id == id
    ensures r.None? ==> forall f :: f in facts ==> f.id != id
  {
    if facts == [] then None else if facts[0].id == id then Some(facts[0]) else Find(facts[1..], id)
  }

  /** `Math.min` of the premises' confidences. */
  function Weakest(premises: seq<Fact>): (least: real)
    requires premises != []
    ensures forall i :: 0 <= i < |premises| ==> least <= premises[i].confidence
    ensures exists i :: 0 <= i < |premises| && least == premises[i].confidence
  {
    if |premises| == 1 then premises[0].confidence
    else
      var rest := Weakest(premises[1..]);
      assert forall i :: 0 < i < |premises| ==> premises[i] == premises[1..][i - 1];
      assert forall i :: 0 <= i < |premises| - 1 ==> premises[1..][i] == premises[i + 1];
      if premises[0].confidence < rest then premises[0].confidence else rest
  }

  function Clamp(x: real): real {
    var low := if x < 1.0 then x else 1.0;
    if low > 0.0 then low else 0.0
  }

  /** The confidence of a derivation: the rule's own, scaled by the weakest premise and clamped. */
  function Combined(own: real, weakest: real): (r: real)
    ensures 0.0 <= r <= 1.0
    ensures 0.0 <= own <= 1.0 && 0.0 <= weakest <= 1.0 ==> r <= weakest
  {
    assert 0.0 <= own <= 1.0 && 0.0 <= weakest <= 1.0 ==> Clamp(own * weakest) <= weakest by {
      if 0.0 <= own <= 1.0 && 0.0 <= weakest <= 1.0 { ProductAtMost(own, weakest); }
    }
    Clamp(own * weakest)
  }

  lemma ProductAtMost(a: real, b: real)
    requires 0.0 <= a <= 1.0 && 0.0 <= b <= 1.0
    ensures Clamp(a * b) <= b
  {
    assert a * b == b - (1.0 - a) * b && (1.0 - a) * b >= 0.0;
  }

  /** What a rule derives from the working facts, if it derives something new that is confident enough. */
  function Derive(rule: Rule, working: seq<Fact>, known: set<string>, minimum: real, id: Id): Option<Fact> {
    var ids := rule.matches(working);
    if ids.None? || ids.value == [] then None
    else
      var premises := Lookup(working, ids.value);
      if premises.None? then None
      else
        var output := rule.derive(premises.value);
        var confidence := Combined(output.confidence, Weakest(premises.value));
        if output.statement in known || confidence < minimum then None
        else Some(Fact(id, output.statement, confidence, rule.id, ids.value))
  }

  // What a derivation is, in terms of the rule's own functions.

  /** The working facts with these ids, in this order. */
  ghost predicate PremisesOf(working: seq<Fact>, ids: seq<Id>, premises: seq<Fact>) {
    |premises| == |ids| && forall i :: 0 <= i < |ids| ==> premises[i] in working && premises[i].id == ids[i]
  }

  /** The weakest premise's confidence times the rule's own, held within 0 and 1. */
  ghost predicate IsConfidence(own: real, premises: seq<Fact>, c: real) {
    exists i :: 0 <= i < |premises| && (forall j :: 0 <= j < |premises| ==> premises[i].confidence <= premises[j].confidence)
      && c == Scaled(own, premises[i].confidence)
  }

  function Scaled(own: real, x: real): real {
    var product := own * x;
    if product <= 0.0 then 0.0 else if product >= 1.0 then 1.0 else product
  }

  ghost predicate Concluded(rule: Rule, working: seq<Fact>, premises: seq<Fact>, known: set<string>, minimum: real, id: Id, fact: Fact) {
    var matched, output := rule.matches(working), rule.derive(premises);
    && matched.Some? && matched.value != [] && PremisesOf(working, matched.value, premises)
    && IsConfidence(output.confidence, premises, fact.confidence) && fact.confidence >= minimum
    && output.statement !in known && fact == Fact(id, output.statement, fact.confidence, rule.id, matched.value)
  }

  lemma {:induction false} FindIff(facts: seq<Fact>, id: Id, f: Fact)
    requires Distinct(Ids(facts))
    ensures Find(facts, id) == Some(f) <==> f in facts && f.id == id
  {
    if f in facts && f.id == id { FindUnique(facts, f); }
  }

  lemma {:induction false} LookupIff(facts: seq<Fact>, ids: seq<Id>, premises: seq<Fact>)
    requires Distinct(Ids(facts))
    ensures Lookup(facts, ids) == Some(premises) <==> PremisesOf(facts, ids, premises)
  {
    if ids == [] {
    } else if premises == [] {
    } else {
      LookupIff(facts, ids[1..], premises[1..]);
      FindIff(facts, ids[0], premises[0]);
      assert premises == [premises[0]] + premises[1..];
      if PremisesOf(facts, ids, premises) {
        forall i | 0 <= i < |ids[1..]|
          ensures premises[1..][i] in facts && premises[1..][i].id == ids[1..][i]
        {
          assert premises[i + 1] in facts;
        }
      }
    }
  }

  lemma CombinedIs(own: real, weakest: real)
    ensures Combined(own, weakest) == Scaled(own, weakest)
  {
  }

  lemma ConfidenceIs(own: real, premises: seq<Fact>, c: real)
    requires premises != []
    ensures IsConfidence(own, premises, c) <==> c == Combined(own, Weakest(premises))
  {
    var least :| 0 <= least < |premises| && Weakest(premises) == premises[least].confidence;
    CombinedIs(own, Weakest(premises));
    if IsConfidence(own, premises, c) {
      var i :| 0 <= i < |premises| && (forall j :: 0 <= j < |premises| ==> premises[i].confidence <= premises[j].confidence)
        && c == Scaled(own, premises[i].confidence);
      assert premises[i].confidence == premises[least].confidence;
    }
  }

  /** A rule derives a fact exactly if it matches working facts, concludes something new from them, and is confident enough. */
  lemma {:induction false} DeriveIff(rule: Rule, working: seq<Fact>, known: set<string>, minimum: real, id: Id, fact: Fact)
    requires Distinct(Ids(working))
    ensures Derive(rule, working, known, minimum, id) == Some(fact) <==>
      exists premises :: Concluded(rule, working, premises, known, minimum, id, fact)
  {
    var matched := rule.matches(working);
    if matched.Some? && matched.value != [] {
      var found := Lookup(working, matched.value);
      if found.Some? {
        LookupIff(working, matched.value, found.value);
        ConfidenceIs(rule.derive(found.value).confidence, found.value, fact.confidence);
        if Derive(rule, working, known, minimum, id) == Some(fact) {
          assert Concluded(rule, working, found.value, known, minimum, id, fact);
        }
      }
      if premises :| Concluded(rule, working, premises, known, minimum, id, fact) {
        LookupIff(working, matched.value, premises);
      }
    }
  }

  /** The rule derives this fact from the facts in `working`. */
  ghost predicate Derives(rule: Rule, working: seq<Fact>, known: set<string>, minimum: real, fact: Fact) {
    Derive(rule, working, known, minimum, fact.id) == Some(fact)
  }

  /** The k-th derived fact comes from a rule applied to the initial facts and those derived before it. */
  ghost predicate DerivedAt(rules: seq<Rule>, initial: seq<Fact>, given: set<string>, derived: seq<Fact>, minimum: real, k: nat)
    requires k < |derived|
  {
    exists rule :: rule in rules && Derives(rule, initial + derived[..k], given + Statements(derived[..k]), minimum, derived[k])
  }

  /** Every derivation is justified by what came before it, and derived facts have ids of their own. */
  ghost predicate WellFounded(rules: seq<Rule>, initial: seq<Fact>, given: set<string>, derived: seq<Fact>, minimum: real) {
    && (forall k: nat {:trigger DerivedAt(rules, initial, given, derived, minimum, k)} :: k < |derived| ==>
      DerivedAt(rules, initial, given, derived, minimum, k))
    && (forall k, f :: 0 <= k < |derived| && f in initial ==> f.id != derived[k].id)
    && Distinct(Ids(derived))
  }

  lemma StatementsAppend(derived: seq<Fact>, fact: Fact)
    ensures Statements(derived + [fact]) == Statements(derived) + {fact.statement}
  {
    assert forall f :: f in derived + [fact] <==> f in derived || f == fact;
  }

  lemma WellFoundedAppend(rules: seq<Rule>, initial: seq<Fact>, given: set<string>, derived: seq<Fact>, minimum: real, rule: Rule, fact: Fact)
    requires WellFounded(rules, initial, given, derived, minimum) && rule in rules
    requires Derives(rule, initial + derived, given + Statements(derived), minimum, fact)
    requires forall f :: f in initial + derived ==> f.id != fact.id
    ensures WellFounded(rules, initial, given, derived + [fact], minimum)
  {
    var longer := derived + [fact];
    forall k: nat | k < |longer|
      ensures DerivedAt(rules, initial, given, longer, minimum, k)
    {
      assert longer[..k] == derived[..k];
      if k < |derived| {
        assert DerivedAt(rules, initial, given, derived, minimum, k);
      } else {
        assert derived[..k] == derived;
      }
    }
    forall i, j | 0 <= i < j < |longer|
      ensures Ids(longer)[i] != Ids(longer)[j]
    {
      if j < |derived| {
        assert Ids(derived)[i] != Ids(derived)[j];
      } else {
        assert derived[i] in initial + derived;
      }
    }
    assert forall f :: f in initial ==> f in initial + derived;
  }

  /** Premises of a derived fact are initial facts or facts derived earlier, and there is at least one. */
  lemma {:induction false} PremisesComeFirst(rules: seq<Rule>, initial: seq<Fact>, given: set<string>, derived: seq<Fact>, minimum: real, k: nat)
    requires WellFounded(rules, initial, given, derived, minimum) && k < |derived|
    ensures derived[k].premises != []
    ensures forall p :: p in derived[k].premises ==> p in Ids(initial) || p in Ids(derived)[..k]
  {
    assert DerivedAt(rules, initial, given, derived, minimum, k);
    var rule :| rule in rules && Derives(rule, initial + derived[..k], given + Statements(derived[..k]), minimum, derived[k]);
    var working := initial + derived[..k];
    forall i | 0 <= i < |derived[k].premises|
      ensures derived[k].premises[i] in Ids(initial) || derived[k].premises[i] in Ids(derived)[..k]
    {
      var premise := Lookup(working, derived[k].premises).value[i];
      var at :| 0 <= at < |working| && working[at] == premise;
      if at < |initial| {
        assert Ids(initial)[at] == premise.id;
      } else {
        assert Ids(derived)[..k][at - |initial|] == premise.id;
      }
    }
  }

  /** Derived statements are new and pairwise distinct. */
  lemma {:induction false} StatementsAreNew(rules: seq<Rule>, initial: seq<Fact>, given: set<string>, derived: seq<Fact>, minimum: real, k: nat)
    requires WellFounded(rules, initial, given, derived, minimum) && k < |derived|
    ensures derived[k].statement !in given && forall j :: 0 <= j < k ==> derived[j].statement != derived[k].statement
    ensures minimum <= derived[k].confidence && 0.0 <= derived[k].confidence <= 1.0
  {
    assert DerivedAt(rules, initial, given, derived, minimum, k);
    assert forall j :: 0 <= j < k ==> derived[..k][j] == derived[j] && derived[j].statement in Statements(derived[..k]);
  }

  // Confidence.

  ghost predicate RulesInRange(rules: seq<Rule>) {
    forall rule, premises :: rule in rules ==> 0.0 <= rule.derive(premises).confidence <= 1.0
  }

  ghost predicate FactsInRange(facts: seq<Fact>) {
    forall f :: f in facts ==> 0.0 <= f.confidence <= 1.0
  }

  lemma WeakestInRange(premises: seq<Fact>)
    requires premises != [] && FactsInRange(premises)
    ensures 0.0 <= Weakest(premises) <= 1.0
  {
    var i :| 0 <= i < |premises| && Weakest(premises) == premises[i].confidence;
    assert premises[i] in premises;
  }

  /** A derived fact is no more confident than any of its premises. */
  lemma {:induction false} AtMostPremises(rule: Rule, working: seq<Fact>, known: set<string>, minimum: real, fact: Fact, i: nat)
    requires Derives(rule, working, known, minimum, fact) && i < |fact.premises|
    requires FactsInRange(working) && RulesInRange([rule])
    ensures Lookup(working, fact.premises).Some? && fact.confidence <= Lookup(working, fact.premises).value[i].confidence
  {
    var premises := Lookup(working, fact.premises).value;
    assert premises != [] && rule in [rule];
    WeakestInRange(premises);
  }

  /** An initial fact is somewhere in the derivation tree of the k-th derived fact. */
  ghost predicate Supports(initial: seq<Fact>, derived: seq<Fact>, k: nat, f: Fact)
    requires k < |derived|
    decreases k
  {
    f in initial && (f.id in derived[k].premises || exists j :: 0 <= j < k && derived[j].id in derived[k].premises && Supports(initial, derived, j, f))
  }

  lemma {:induction false} DerivedInRange(rules: seq<Rule>, initial: seq<Fact>, given: set<string>, derived: seq<Fact>, minimum: real, k: nat)
    requires WellFounded(rules, initial, given, derived, minimum) && FactsInRange(initial) && k <= |derived|
    ensures FactsInRange(initial + derived[..k])
  {
    forall f | f in initial + derived[..k]
      ensures 0.0 <= f.confidence <= 1.0
    {
      if f !in initial {
        var j :| 0 <= j < k && derived[j] == f;
        StatementsAreNew(rules, initial, given, derived, minimum, j);
      }
    }
  }

  /** The fact found under an id is the only one with that id. */
  lemma FindUnique(facts: seq<Fact>, f: Fact)
    requires Distinct(Ids(facts)) && f in facts
    ensures Find(facts, f.id) == Some(f)
  {
    var i :| 0 <= i < |facts| && facts[i] == f;
    var found := Find(facts, f.id);
    assert found.Some?;
    var j :| 0 <= j < |facts| && facts[j] == found.value;
    assert Ids(facts)[i] == Ids(facts)[j];
  }

  lemma WorkingDistinct(rules: seq<Rule>, initial: seq<Fact>, given: set<string>, derived: seq<Fact>, minimum: real, k: nat)
    requires WellFounded(rules, initial, given, derived, minimum) && Distinct(Ids(initial)) && k <= |derived|
    ensures Distinct(Ids(initial + derived[..k]))
  {
    var facts := initial + derived[..k];
    forall i, j | 0 <= i < j < |facts|
      ensures Ids(facts)[i] != Ids(facts)[j]
    {
      if j < |initial| {
        assert Ids(initial)[i] != Ids(initial)[j];
      } else if i < |initial| {
        assert initial[i] in initial;
      } else {
        assert Ids(derived)[i - |initial|] != Ids(derived)[j - |initial|];
      }
    }
  }

  lemma {:induction false} AtMostPremise(rules: seq<Rule>, initial: seq<Fact>, given: set<string>, derived: seq<Fact>, minimum: real, k: nat, f: Fact)
    requires WellFounded(rules, initial, given, derived, minimum) && Distinct(Ids(initial))
    requires RulesInRange(rules) && FactsInRange(initial) && k < |derived|
    requires f in initial + derived[..k] && f.id in derived[k].premises
    ensures derived[k].confidence <= f.confidence
  {
    assert DerivedAt(rules, initial, given, derived, minimum, k);
    var working := initial + derived[..k];
    var rule :| rule in rules && Derives(rule, working, given + Statements(derived[..k]), minimum, derived[k]);
    DerivedInRange(rules, initial, given, derived, minimum, k);
    WorkingDistinct(rules, initial, given, derived, minimum, k);
    var i :| 0 <= i < |derived[k].premises| && derived[k].premises[i] == f.id;
    AtMostPremises(rule, working, given + Statements(derived[..k]), minimum, derived[k], i);
    FindUnique(working, f);
    FindUnique(working, Lookup(working, derived[k].premises).value[i]);
  }

  /** A derived fact is no more confident than any initial fact in its derivation tree. */
  lemma {:induction false} ConfidenceBounded(rules: seq<Rule>, initial: seq<Fact>, given: set<string>, derived: seq<Fact>, minimum: real, k: nat, f: Fact)
    requires WellFounded(rules, initial, given, derived, minimum) && Distinct(Ids(initial))
    requires RulesInRange(rules) && FactsInRange(initial) && k < |derived| && Supports(initial, derived, k, f)
    ensures derived[k].confidence <= f.confidence
    decreases k
  {
    if f.id in derived[k].premises {
      AtMostPremise(rules, initial, given, derived, minimum, k, f);
    } else {
      var j :| 0 <= j < k && derived[j].id in derived[k].premises && Supports(initial, derived, j, f);
      ConfidenceBounded(rules, initial, given, derived, minimum, j, f);
      assert derived[..k][j] == derived[j];
      AtMostPremise(rules, initial, given, derived, minimum, k, derived[j]);
    }
  }

  lemma {:induction false} PutKeepsDistinct(facts: seq<Fact>, fact: Fact)
    requires Distinct(Ids(facts))
    ensures Distinct(Ids(Put(facts, fact)))
    ensures forall id :: id in Ids(Put(facts, fact)) <==> id in Ids(facts) || id == fact.id
    ensures forall f :: f in Put(facts, fact) ==> f in facts || f == fact
  {
    if facts == [] {
      assert Ids([fact]) == [fact.id];
    } else {
      assert Ids(facts) == [facts[0].id] + Ids(facts[1..]);
      assert Ids(facts[1..]) == Ids(facts)[1..];
      if facts[0].id == fact.id {
        assert Ids(Put(facts, fact)) == Ids(facts);
      } else {
        PutKeepsDistinct(facts[1..], fact);
        assert Ids(Put(facts, fact)) == [facts[0].id] + Ids(Put(facts[1..], fact));
        assert facts[0].id !in Ids(facts[1..]);
      }
    }
  }

  lemma {:induction false} IndexedDistinct(facts: seq<Fact>)
    ensures Distinct(Ids(Indexed(facts)))
    ensures forall id :: id in Ids(Indexed(facts)) <==> id in Ids(facts)
    ensures forall f :: f in Indexed(facts) ==> f in facts
  {
    if facts == [] {
    } else {
      var front, last := facts[..|facts| - 1], facts[|facts| - 1];
      IndexedDistinct(front);
      PutKeepsDistinct(Indexed(front), last);
      assert facts == front + [last];
      assert Ids(facts) == Ids(front) + [last.id];
    }
  }
}
