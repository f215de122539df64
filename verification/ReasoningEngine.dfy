/** `ReasoningEngine.infer` (`reasoning-engine.ts`): repeated passes over the rules until nothing new appears. */
module ReasoningEngine {
  import opened Prelude
  import opened Reasoning

  datatype ReasoningResult =
    ReasoningResult(conclusion: Option<string>, confidence: real, derived: seq<Fact>, iterations: nat, exhausted: bool)

  predicate Applies(rule: Rule, strategy: Option<Strategy>) {
    strategy.Some? ==> rule.strategy == strategy.value
  }

  function Selected(rules: seq<Rule>, strategy: Option<Strategy>): seq<Rule> {
    Filter(rules, (rule: Rule) => Applies(rule, strategy))
  }

  /** The ids handed out for derived facts are new. */
  ghost predicate Fresh(newId: nat -> Id, facts: seq<Fact>) {
    && (forall j, k :: j != k ==> newId(j) != newId(k))
    && forall k, f :: f in facts ==> f.id != newId(k)
  }

  /** Derived facts carry the ids handed out, in order. */
  ghost predicate Numbered(newId: nat -> Id, derived: seq<Fact>) {
    forall k :: 0 <= k < |derived| ==> derived[k].id == newId(k)
  }

  /** The first most confident derived statement, unless nothing has any confidence. */
  ghost predicate Best(derived: seq<Fact>, conclusion: Option<string>, confidence: real) {
    && (forall f :: f in derived ==> f.confidence <= confidence)
    && if conclusion.None? then confidence == 0.0
       else exists k :: 0 <= k < |derived| && BestAt(derived, k, conclusion.value, confidence)
  }

  ghost predicate BestAt(derived: seq<Fact>, k: nat, conclusion: string, confidence: real)
    requires k < |derived|
  {
    derived[k].statement == conclusion && derived[k].confidence == confidence > 0.0 && forall j :: 0 <= j < k ==> derived[j].confidence < confidence
  }

  lemma BestAppend(derived: seq<Fact>, conclusion: Option<string>, confidence: real, fact: Fact)
    requires Best(derived, conclusion, confidence) && 0.0 <= fact.confidence && confidence >= 0.0
    ensures fact.confidence > confidence ==> Best(derived + [fact], Some(fact.statement), fact.confidence)
    ensures fact.confidence <= confidence ==> Best(derived + [fact], conclusion, confidence)
  {
    var longer := derived + [fact];
    if fact.confidence > confidence {
      forall j | 0 <= j < |derived|
        ensures longer[j].confidence < fact.confidence
      {
        assert derived[j] in derived;
      }
      assert BestAt(longer, |derived|, fact.statement, fact.confidence);
    } else if conclusion.Some? {
      var k :| 0 <= k < |derived| && BestAt(derived, k, conclusion.value, confidence);
      assert BestAt(longer, k, conclusion.value, confidence);
    }
  }

  /** What an inference works on: the initial facts in map order, and the statements it was given. */
  datatype Problem = Problem(initial: seq<Fact>, given: set<string>, goal: Option<string>, rules: seq<Rule>, minimum: real)

  /** The facts derived so far and the best conclusion among them. */
  datatype State = State(derived: seq<Fact>, conclusion: Option<string>, confidence: real)

  function ProblemOf(facts: seq<Fact>, goal: Option<string>, rules: seq<Rule>, strategy: Option<Strategy>, minimum: real): Problem {
    Problem(Indexed(facts), Statements(facts), goal, Selected(rules, strategy), minimum)
  }

  function Working(p: Problem, derived: seq<Fact>): seq<Fact> {
    p.initial + derived
  }

  function Known(p: Problem, derived: seq<Fact>): set<string> {
    p.given + Statements(derived)
  }

  // The inference as a function of the problem and of the ids handed out.

  predicate Reached(p: Problem, s: State) {
    p.goal.Some? && p.goal.value in Statements(s.derived)
  }

  /** A derived fact is recorded, as the conclusion if it is the most confident so far. */
  function Recorded(s: State, fact: Fact): State {
    if fact.confidence > s.confidence then State(s.derived + [fact], Some(fact.statement), fact.confidence)
    else s.(derived := s.derived + [fact])
  }

  function AfterRule(p: Problem, newId: nat -> Id, s: State, rule: Rule): State {
    match Derive(rule, Working(p, s.derived), Known(p, s.derived), p.minimum, newId(|s.derived|))
    case None => s
    case Some(fact) => Recorded(s, fact)
  }

  /** What trying a rule makes of the state. */
  type Step = (State, Rule) -> State

  function StepOf(p: Problem, newId: nat -> Id): Step {
    (s: State, rule: Rule) => AfterRule(p, newId, s, rule)
  }

  ghost predicate Steps(step: Step, p: Problem, newId: nat -> Id) {
    forall s, rule {:trigger AfterRule(p, newId, s, rule)} :: step(s, rule) == AfterRule(p, newId, s, rule)
  }

  /** The rules are tried in order, until the goal is derived. */
  function AfterRules(p: Problem, step: Step, s: State, rules: seq<Rule>): State {
    if rules == [] then s
    else
      var before := AfterRules(p, step, s, rules[..|rules| - 1]);
      if Reached(p, before) then before else step(before, rules[|rules| - 1])
  }

  function AfterPasses(p: Problem, step: Step, n: nat): State {
    if n == 0 then State([], None, 0.0)
    else
      var before := AfterPasses(p, step, n - 1);
      if Reached(p, before) then before else AfterRules(p, step, before, p.rules)
  }

  /** Another pass derives something. */
  predicate Productive(p: Problem, step: Step, n: nat) {
    AfterPasses(p, step, n + 1).derived != AfterPasses(p, step, n).derived
  }

  function Productivity(p: Problem, step: Step): nat -> bool {
    (n: nat) => Productive(p, step, n)
  }

  /** The number of the first pass from `n` on that derives nothing, up to the cap. */
  function PassesFrom(productive: nat -> bool, n: nat, maxIterations: nat): (passes: nat)
    requires n <= maxIterations
    ensures n <= passes <= maxIterations
    decreases maxIterations - n
  {
    if n == maxIterations || !productive(n) then n else PassesFrom(productive, n + 1, maxIterations)
  }

  lemma {:induction false} PassesDerive(productive: nat -> bool, n: nat, maxIterations: nat)
    requires n <= maxIterations
    ensures var passes := PassesFrom(productive, n, maxIterations);
      && (forall k: nat :: n <= k < passes ==> productive(k))
      && (passes < maxIterations ==> !productive(passes))
    decreases maxIterations - n
  {
    if n == maxIterations || !productive(n) {
    } else {
      PassesDerive(productive, n + 1, maxIterations);
    }
  }

  function PassesMade(p: Problem, step: Step, maxIterations: nat): (n: nat)
    ensures n <= maxIterations
  {
    PassesFrom(Productivity(p, step), 0, maxIterations)
  }

  /** What `infer` answers after `n` passes. */
  function Answer(p: Problem, n: nat, maxIterations: nat, s: State): ReasoningResult {
    if Reached(p, s) then
      var last := s.derived[|s.derived| - 1];
      ReasoningResult(Some(last.statement), last.confidence, s.derived, n, false)
    else if p.goal.Some? && s.conclusion != p.goal then
      var proven := p.goal.value in Known(p, s.derived);
      ReasoningResult(if proven then p.goal else None, if proven then s.confidence else 0.0, s.derived, n, n >= maxIterations && n == 0)
    else ReasoningResult(s.conclusion, s.confidence, s.derived, n, n >= maxIterations)
  }

  function Inferred(p: Problem, newId: nat -> Id, maxIterations: nat): ReasoningResult {
    var step := StepOf(p, newId);
    var n := PassesMade(p, step, maxIterations);
    Answer(p, n, maxIterations, AfterPasses(p, step, n))
  }

  lemma FurtherRule(p: Problem, step: Step, s: State, rules: seq<Rule>, rule: Rule)
    requires !Reached(p, AfterRules(p, step, s, rules))
    ensures AfterRules(p, step, s, rules + [rule]) == step(AfterRules(p, step, s, rules), rule)
  {
    assert (rules + [rule])[..|rules|] == rules;
  }

  /** Once the goal is derived, the rest of the pass adds nothing. */
  lemma {:induction false} ReachedStays(p: Problem, step: Step, s: State, rules: seq<Rule>, i: nat)
    requires i <= |rules| && Reached(p, AfterRules(p, step, s, rules[..i]))
    ensures AfterRules(p, step, s, rules) == AfterRules(p, step, s, rules[..i])
  {
    if i == |rules| {
      assert rules[..i] == rules;
    } else {
      assert rules[..|rules| - 1][..i] == rules[..i];
      ReachedStays(p, step, s, rules[..|rules| - 1], i);
    }
  }

  /** One rule more, if the strategy lets it apply. */
  lemma SelectedNext(rules: seq<Rule>, strategy: Option<Strategy>, i: nat)
    requires i < |rules|
    ensures Selected(rules[..i + 1], strategy)
         == if Applies(rules[i], strategy) then Selected(rules[..i], strategy) + [rules[i]] else Selected(rules[..i], strategy)
  {
    assert rules[..i + 1] == rules[..i] + [rules[i]];
    FilterAppend(rules[..i], rules[i], (rule: Rule) => Applies(rule, strategy));
  }

  lemma {:induction false} SelectedPrefix(rules: seq<Rule>, strategy: Option<Strategy>, i: nat)
    requires i <= |rules|
    ensures Selected(rules[..i], strategy) <= Selected(rules, strategy)
    decreases |rules| - i
  {
    if i == |rules| {
      assert rules[..i] == rules;
    } else {
      SelectedPrefix(rules, strategy, i + 1);
      SelectedNext(rules, strategy, i);
    }
  }

  /** What one more rule, of the strategy or not, makes of a pass. */
  lemma PassFurther(p: Problem, step: Step, s: State, rules: seq<Rule>, strategy: Option<Strategy>, i: nat)
    requires i < |rules| && !Reached(p, AfterRules(p, step, s, Selected(rules[..i], strategy)))
    ensures var before := AfterRules(p, step, s, Selected(rules[..i], strategy));
      AfterRules(p, step, s, Selected(rules[..i + 1], strategy)) == if Applies(rules[i], strategy) then step(before, rules[i]) else before
  {
    SelectedNext(rules, strategy, i);
    if Applies(rules[i], strategy) { FurtherRule(p, step, s, Selected(rules[..i], strategy), rules[i]); }
  }

  lemma GoalStops(p: Problem, step: Step, s: State, rules: seq<Rule>, strategy: Option<Strategy>, i: nat)
    requires p.rules == Selected(rules, strategy) && i <= |rules| && Reached(p, AfterRules(p, step, s, Selected(rules[..i], strategy)))
    ensures AfterRules(p, step, s, p.rules) == AfterRules(p, step, s, Selected(rules[..i], strategy))
  {
    SelectedPrefix(rules, strategy, i);
    var tried := Selected(rules[..i], strategy);
    assert p.rules[..|tried|] == tried;
    ReachedStays(p, step, s, p.rules, |tried|);
  }

  lemma ReachedByLast(p: Problem, before: State, fact: Fact)
    requires !Reached(p, before)
    ensures Reached(p, Recorded(before, fact)) <==> p.goal == Some(fact.statement)
  {
    StatementsAppend(before.derived, fact);
  }

  class ReasoningEngine {
    var rules: seq<Rule>
    const maxIterations: nat
    const minConfidence: real

    constructor (rules: seq<Rule>, maxIterations: nat, minConfidence: real)
      requires maxIterations >= 1
      ensures this.rules == rules && this.maxIterations == maxIterations && this.minConfidence == minConfidence
    {
      this.rules, this.maxIterations, this.minConfidence := rules, maxIterations, minConfidence;
    }

    /** The body of the loop over the rules, up to recording the derived fact. */
    method TryRule(rule: Rule, working: seq<Fact>, known: set<string>, id: Id) returns (r: Option<Fact>)
      ensures r == Derive(rule, working, known, minConfidence, id)
    {
      var premiseIds := rule.matches(working);
      if premiseIds.None? || premiseIds.value == [] { return None; }
      var premises := Lookup(working, premiseIds.value);
      if premises.None? { return None; }
      var output := rule.derive(premises.value);
      if output.statement in known { return None; }
      var confidence := Combined(output.confidence, Weakest(premises.value));
      if confidence < minConfidence { return None; }
      return Some(Fact(id, output.statement, confidence, rule.id, premiseIds.value));
    }

    /** The body of the loop over the rules: derive and record; `reached` if that is the goal. */
    method ApplyRule(ghost p: Problem, ghost step: Step, rule: Rule, facts: seq<Fact>, goal: Option<string>, newId: nat -> Id, before: State)
      returns (after: State, produced: bool, reached: bool)
      requires p.initial == Indexed(facts) && p.given == Statements(facts) && p.goal == goal && p.minimum == minConfidence && !Reached(p, before)
      requires Steps(step, p, newId)
      ensures after == step(before, rule)
      ensures if produced then |after.derived| == |before.derived| + 1 else after == before
      ensures reached == Reached(p, after) && (reached ==> produced)
    {
      var derived := before.derived;
      assert step(before, rule) == AfterRule(p, newId, before, rule);
      var fact := TryRule(rule, Indexed(facts) + derived, Statements(facts) + Statements(derived), newId(|derived|));
      if fact.None? { return before, false, false; }
      ReachedByLast(p, before, fact.value);
      after := before.(derived := derived + [fact.value]);
      if fact.value.confidence > before.confidence {
        after := after.(conclusion := Some(fact.value.statement), confidence := fact.value.confidence);
      }
      return after, true, goal.Some? && fact.value.statement == goal.value;
    }

    /** One pass over the rules, in order; it ends early, `reached`, when the goal is derived. */
    method Pass(ghost p: Problem, ghost step: Step, facts: seq<Fact>, strategy: Option<Strategy>, goal: Option<string>, newId: nat -> Id, before: State)
      returns (after: State, produced: bool, reached: bool)
      requires p == ProblemOf(facts, goal, rules, strategy, minConfidence) && Steps(step, p, newId) && !Reached(p, before)
      ensures after == AfterRules(p, step, before, p.rules) && reached == Reached(p, after)
      ensures if produced then after.derived != before.derived else after == before
    {
      after, produced, reached := before, false, false;
      for i := 0 to |rules|
        invariant after == AfterRules(p, step, before, Selected(rules[..i], strategy)) && !Reached(p, after) && !reached
        invariant if produced then |after.derived| > |before.derived| else after == before
      {
        PassFurther(p, step, before, rules, strategy, i);
        if strategy.None? || rules[i].strategy == strategy.value {
          var added;
          after, added, reached := ApplyRule(p, step, rules[i], facts, goal, newId, after);
          produced := produced || added;
          if reached {
            GoalStops(p, step, before, rules, strategy, i + 1);
            return;
          }
        }
      }
      assert rules[..|rules|] == rules;
    }

    /** The loop over the passes; `aborted` tells before which of them the context is found cancelled or past its deadline. */
    method RunPasses(ghost p: Problem, ghost step: Step, facts: seq<Fact>, goal: Option<string>, strategy: Option<Strategy>, newId: nat -> Id, aborted: nat -> bool)
      returns (state: State, iterations: nat, exhausted: bool, reached: bool, stopped: bool)
      requires p == ProblemOf(facts, goal, rules, strategy, minConfidence) && Steps(step, p, newId)
      ensures iterations <= maxIterations && (stopped ==> iterations < maxIterations && aborted(iterations))
      ensures !stopped ==> PassesMade(p, step, maxIterations) == iterations && state == AfterPasses(p, step, iterations)
      ensures !stopped ==> reached == Reached(p, state) && (!reached ==> exhausted == (iterations == 0))
    {
      state, iterations, exhausted, reached, stopped := State([], None, 0.0), 0, true, false, false;
      while iterations < maxIterations
        invariant iterations <= maxIterations && state == AfterPasses(p, step, iterations) && !Reached(p, state) && !reached && !stopped
        invariant PassesFrom(Productivity(p, step), iterations, maxIterations) == PassesMade(p, step, maxIterations)
        invariant exhausted <==> iterations == 0
      {
        if aborted(iterations) {
          stopped := true;
          return;
        }
        var produced;
        NextPass(p, step, iterations, maxIterations);
        state, produced, reached := Pass(p, step, facts, strategy, goal, newId, state);
        if reached {
          iterations := iterations + 1;
          return;
        }
        if !produced { return; }
        exhausted := false;
        iterations := iterations + 1;
      }
    }

    method Infer(facts: seq<Fact>, goal: Option<string>, strategy: Option<Strategy>, newId: nat -> Id, aborted: nat -> bool)
      returns (r: Result<ReasoningResult>)
      requires maxIterations >= 1
      ensures r.Err? ==> r.error == TimedOut && exists pass: nat :: pass < maxIterations && aborted(pass)
      ensures r.Ok? ==> r.value == Inferred(ProblemOf(facts, goal, rules, strategy, minConfidence), newId, maxIterations)
    {
      ghost var p := ProblemOf(facts, goal, rules, strategy, minConfidence);
      var state, iterations, exhausted, reached, stopped := RunPasses(p, StepOf(p, newId), facts, goal, strategy, newId, aborted);
      if stopped { return Err(TimedOut); }
      if reached {
        assert state.derived != [];
        var last := state.derived[|state.derived| - 1];
        return Ok(ReasoningResult(Some(last.statement), last.confidence, state.derived, iterations, false));
      }
      if goal.Some? && state.conclusion != goal {
        var proven := goal.value in Statements(facts) + Statements(state.derived);
        r := Ok(ReasoningResult(if proven then goal else None, if proven then state.confidence else 0.0, state.derived, iterations,
                                iterations >= maxIterations && exhausted));
      } else {
        r := Ok(ReasoningResult(state.conclusion, state.confidence, state.derived, iterations, iterations >= maxIterations));
      }
    }
  }

  lemma {:induction false} NextPass(p: Problem, step: Step, n: nat, maxIterations: nat)
    requires n < maxIterations && !Reached(p, AfterPasses(p, step, n))
    ensures AfterPasses(p, step, n + 1) == AfterRules(p, step, AfterPasses(p, step, n), p.rules)
    ensures var next := PassesFrom(Productivity(p, step), n, maxIterations);
      if Reached(p, AfterPasses(p, step, n + 1)) then next == n + 1
      else if AfterPasses(p, step, n + 1).derived == AfterPasses(p, step, n).derived then next == n
      else next == PassesFrom(Productivity(p, step), n + 1, maxIterations)
  {
    assert Productivity(p, step)(n) == Productive(p, step, n);
    if Reached(p, AfterPasses(p, step, n + 1)) {
      assert AfterPasses(p, step, n + 2) == AfterPasses(p, step, n + 1);
      assert !Productivity(p, step)(n + 1);
    }
  }

  // What holds of every answer.

  ghost predicate Justified(p: Problem, newId: nat -> Id, derived: seq<Fact>) {
    WellFounded(p.rules, p.initial, p.given, derived, p.minimum) && Numbered(newId, derived)
  }

  ghost predicate Sound(p: Problem, newId: nat -> Id, s: State) {
    Justified(p, newId, s.derived) && Best(s.derived, s.conclusion, s.confidence) && s.confidence >= 0.0
  }

  /** The goal, once it is derived, is the last fact. */
  ghost predicate GoalLast(p: Problem, s: State) {
    Reached(p, s) ==> s.derived != [] && p.goal == Some(s.derived[|s.derived| - 1].statement)
  }

  ghost predicate CannotDerive(p: Problem, rule: Rule, derived: seq<Fact>, id: Id) {
    Derive(rule, Working(p, derived), Known(p, derived), p.minimum, id).None?
  }

  /** No rule can extend the facts. */
  ghost predicate Stuck(p: Problem, derived: seq<Fact>) {
    forall rule, id :: rule in p.rules ==> CannotDerive(p, rule, derived, id)
  }

  /** How an inference may end. */
  ghost predicate Concludes(p: Problem, maxIterations: nat, r: ReasoningResult) {
    && WellFounded(p.rules, p.initial, p.given, r.derived, p.minimum)
    && r.iterations <= maxIterations
    && if p.goal.Some? && p.goal.value in Statements(r.derived) then StopsAtGoal(p, r)
       else
         // It stopped because nothing was left to derive, or at the cap.
         && (r.iterations < maxIterations ==> Stuck(p, r.derived))
         && if p.goal.None? then Best(r.derived, r.conclusion, r.confidence) && r.exhausted == (r.iterations >= maxIterations)
            else GoalUndecided(p, r)
  }

  ghost predicate StopsAtGoal(p: Problem, r: ReasoningResult) {
    r.derived != [] && !r.exhausted && r.conclusion == p.goal
    && var last := r.derived[|r.derived| - 1]; p.goal == Some(last.statement) && r.confidence == last.confidence
  }

  /** A goal that was given but not derived is reported with the confidence of some other conclusion. */
  ghost predicate GoalUndecided(p: Problem, r: ReasoningResult)
    requires p.goal.Some?
  {
    && !r.exhausted
    && if p.goal.value in p.given then r.conclusion == p.goal && exists other :: Best(r.derived, other, r.confidence)
       else r.conclusion == None && r.confidence == 0.0
  }

  lemma DerivedFresh(p: Problem, newId: nat -> Id, derived: seq<Fact>, rule: Rule, fact: Fact)
    requires Fresh(newId, p.initial) && Justified(p, newId, derived) && rule in p.rules
    requires Derive(rule, Working(p, derived), Known(p, derived), p.minimum, newId(|derived|)) == Some(fact)
    ensures Justified(p, newId, derived + [fact]) && 0.0 <= fact.confidence
  {
    forall f | f in Working(p, derived)
      ensures f.id != fact.id
    {
      if f !in p.initial {
        var k :| 0 <= k < |derived| && derived[k] == f;
        assert derived[k].id == newId(k);
      }
    }
    WellFoundedAppend(p.rules, p.initial, p.given, derived, p.minimum, rule, fact);
  }

  lemma {:induction false} RuleKeepsSound(p: Problem, newId: nat -> Id, s: State, rule: Rule)
    requires Fresh(newId, p.initial) && Sound(p, newId, s) && !Reached(p, s) && rule in p.rules
    ensures Sound(p, newId, AfterRule(p, newId, s, rule)) && GoalLast(p, AfterRule(p, newId, s, rule))
  {
    var fact := Derive(rule, Working(p, s.derived), Known(p, s.derived), p.minimum, newId(|s.derived|));
    if fact.Some? {
      DerivedFresh(p, newId, s.derived, rule, fact.value);
      ReachedByLast(p, s, fact.value);
      BestAppend(s.derived, s.conclusion, s.confidence, fact.value);
    }
  }

  lemma {:induction false} RulesKeepSound(p: Problem, newId: nat -> Id, s: State, rules: seq<Rule>)
    requires Fresh(newId, p.initial) && Sound(p, newId, s) && !Reached(p, s) && forall rule :: rule in rules ==> rule in p.rules
    ensures Sound(p, newId, AfterRules(p, StepOf(p, newId), s, rules)) && GoalLast(p, AfterRules(p, StepOf(p, newId), s, rules))
  {
    if rules == [] {
    } else {
      var before := AfterRules(p, StepOf(p, newId), s, rules[..|rules| - 1]);
      RulesKeepSound(p, newId, s, rules[..|rules| - 1]);
      if !Reached(p, before) { RuleKeepsSound(p, newId, before, rules[|rules| - 1]); }
    }
  }

  lemma {:induction false} PassesSound(p: Problem, newId: nat -> Id, n: nat)
    requires Fresh(newId, p.initial)
    ensures Sound(p, newId, AfterPasses(p, StepOf(p, newId), n)) && GoalLast(p, AfterPasses(p, StepOf(p, newId), n))
  {
    if n == 0 {
    } else {
      PassesSound(p, newId, n - 1);
      var before := AfterPasses(p, StepOf(p, newId), n - 1);
      if !Reached(p, before) { RulesKeepSound(p, newId, before, p.rules); }
    }
  }

  /** A pass that derives nothing has shown that no rule can. */
  lemma {:induction false} BarrenMeansStuck(p: Problem, newId: nat -> Id, s: State, rules: seq<Rule>, rule: Rule, id: Id)
    requires !Reached(p, s) && AfterRules(p, StepOf(p, newId), s, rules).derived == s.derived && rule in rules
    ensures CannotDerive(p, rule, s.derived, id)
  {
    var last := |rules| - 1;
    var before := AfterRules(p, StepOf(p, newId), s, rules[..last]);
    RulesExtend(p, newId, s, rules[..last]);
    assert AfterRules(p, StepOf(p, newId), s, rules) == if Reached(p, before) then before else AfterRule(p, newId, before, rules[last]);
    assert before.derived == s.derived;
    if rule != rules[last] {
      assert rule in rules[..last];
      BarrenMeansStuck(p, newId, s, rules[..last], rule, id);
    }
  }

  lemma {:induction false} RulesExtend(p: Problem, newId: nat -> Id, s: State, rules: seq<Rule>)
    ensures s.derived <= AfterRules(p, StepOf(p, newId), s, rules).derived
  {
    if rules == [] {
    } else {
      RulesExtend(p, newId, s, rules[..|rules| - 1]);
    }
  }

  /** If it stopped before the cap, away from the goal, nothing is left to derive. */
  lemma {:induction false} EarlyMeansStuck(p: Problem, newId: nat -> Id, maxIterations: nat)
    requires PassesMade(p, StepOf(p, newId), maxIterations) < maxIterations
    requires !Reached(p, AfterPasses(p, StepOf(p, newId), PassesMade(p, StepOf(p, newId), maxIterations)))
    ensures Stuck(p, Inferred(p, newId, maxIterations).derived)
  {
    var n := PassesMade(p, StepOf(p, newId), maxIterations);
    var s := AfterPasses(p, StepOf(p, newId), n);
    PassesDerive(Productivity(p, StepOf(p, newId)), 0, maxIterations);
    assert !Productivity(p, StepOf(p, newId))(n);
    assert AfterRules(p, StepOf(p, newId), s, p.rules).derived == s.derived;
    forall rule, id | rule in p.rules
      ensures CannotDerive(p, rule, s.derived, id)
    {
      BarrenMeansStuck(p, newId, s, p.rules, rule, id);
    }
  }

  lemma AnswerConcludes(p: Problem, newId: nat -> Id, n: nat, maxIterations: nat, s: State)
    requires Sound(p, newId, s) && GoalLast(p, s) && n <= maxIterations && maxIterations >= 1
    requires n < maxIterations && !Reached(p, s) ==> Stuck(p, s.derived)
    ensures Concludes(p, maxIterations, Answer(p, n, maxIterations, s))
  {
    var r := Answer(p, n, maxIterations, s);
    assert r.derived == s.derived && r.iterations == n;
    if Reached(p, s) {
      assert StopsAtGoal(p, r);
    } else if p.goal.Some? {
      UndecidedAnswer(p, newId, n, maxIterations, s);
    }
  }

  /** Every answer: derivations are well founded, and it stops at the goal, at the cap, or where nothing is left to derive. */
  lemma {:induction false} InferredConcludes(p: Problem, newId: nat -> Id, maxIterations: nat)
    requires Fresh(newId, p.initial) && maxIterations >= 1
    ensures Concludes(p, maxIterations, Inferred(p, newId, maxIterations))
  {
    var n := PassesMade(p, StepOf(p, newId), maxIterations);
    var s := AfterPasses(p, StepOf(p, newId), n);
    PassesSound(p, newId, n);
    if n < maxIterations && !Reached(p, s) { EarlyMeansStuck(p, newId, maxIterations); }
    AnswerConcludes(p, newId, n, maxIterations, s);
  }

  lemma UndecidedAnswer(p: Problem, newId: nat -> Id, n: nat, maxIterations: nat, s: State)
    requires Sound(p, newId, s) && !Reached(p, s) && p.goal.Some? && maxIterations >= 1
    ensures GoalUndecided(p, Answer(p, n, maxIterations, s))
  {
    forall k | 0 <= k < |s.derived|
      ensures s.derived[k].statement != p.goal.value
    {
      assert s.derived[k] in s.derived;
    }
    assert s.conclusion != p.goal;
  }

  /** Whatever `infer` concludes, no derived fact is more confident than a given fact that its derivation goes back to. */
  lemma {:induction false} InferredConfidenceBounded(facts: seq<Fact>, goal: Option<string>, rules: seq<Rule>, strategy: Option<Strategy>, minimum: real,
                                                     maxIterations: nat, r: ReasoningResult, k: nat, f: Fact)
    requires Concludes(ProblemOf(facts, goal, rules, strategy, minimum), maxIterations, r)
    requires RulesInRange(rules) && FactsInRange(facts) && k < |r.derived| && Supports(Indexed(facts), r.derived, k, f)
    ensures f in facts && r.derived[k].confidence <= f.confidence
  {
    IndexedDistinct(facts);
    ConfidenceBounded(Selected(rules, strategy), Indexed(facts), Statements(facts), r.derived, minimum, k, f);
  }

  // What a goal changes.

  /** No derived statement, and so no conclusion, is one of those given. */
  predicate Apart(p: Problem, s: State) {
    p.given !! Statements(s.derived) && (s.conclusion.Some? ==> s.conclusion.value in Statements(s.derived))
  }

  lemma RuleKeepsApart(p: Problem, newId: nat -> Id, s: State, rule: Rule)
    requires Apart(p, s)
    ensures Apart(p, AfterRule(p, newId, s, rule))
  {
    var fact := Derive(rule, Working(p, s.derived), Known(p, s.derived), p.minimum, newId(|s.derived|));
    if fact.Some? { StatementsAppend(s.derived, fact.value); }
  }

  lemma {:induction false} RulesKeepApart(p: Problem, newId: nat -> Id, s: State, rules: seq<Rule>)
    requires Apart(p, s)
    ensures Apart(p, AfterRules(p, StepOf(p, newId), s, rules))
  {
    if rules == [] {
    } else {
      RulesKeepApart(p, newId, s, rules[..|rules| - 1]);
      RuleKeepsApart(p, newId, AfterRules(p, StepOf(p, newId), s, rules[..|rules| - 1]), rules[|rules| - 1]);
    }
  }

  lemma {:induction false} PassesKeepApart(p: Problem, newId: nat -> Id, n: nat)
    ensures Apart(p, AfterPasses(p, StepOf(p, newId), n))
  {
    if n == 0 {
    } else {
      PassesKeepApart(p, newId, n - 1);
      RulesKeepApart(p, newId, AfterPasses(p, StepOf(p, newId), n - 1), p.rules);
    }
  }

  /** An inference is reported as exhausted exactly if it had no goal and every pass up to the cap derived something. */
  lemma {:induction false} ExhaustedIff(p: Problem, newId: nat -> Id, maxIterations: nat)
    requires maxIterations >= 1
    ensures var r := Inferred(p, newId, maxIterations);
      && (r.exhausted <==> p.goal.None? && r.iterations == maxIterations)
      && (r.exhausted <==> p.goal.None? && forall k: nat :: k < maxIterations ==> Productivity(p, StepOf(p, newId))(k))
  {
    var step := StepOf(p, newId);
    var n := PassesMade(p, step, maxIterations);
    PassesKeepApart(p, newId, n);
    PassesDerive(Productivity(p, step), 0, maxIterations);
    assert n < maxIterations ==> !Productivity(p, step)(n);
  }

  /** `iterations` counts the passes that derived something: all of them up to it did, and the next one, if allowed, would not. */
  lemma {:induction false} IterationsCount(p: Problem, newId: nat -> Id, maxIterations: nat)
    ensures var n := Inferred(p, newId, maxIterations).iterations;
      && n <= maxIterations && Inferred(p, newId, maxIterations).derived == AfterPasses(p, StepOf(p, newId), n).derived
      && (forall k: nat :: k < n ==> |AfterPasses(p, StepOf(p, newId), k).derived| < |AfterPasses(p, StepOf(p, newId), k + 1).derived|)
      && (n < maxIterations ==> AfterPasses(p, StepOf(p, newId), n + 1).derived == AfterPasses(p, StepOf(p, newId), n).derived)
  {
    var step, n := StepOf(p, newId), PassesMade(p, StepOf(p, newId), maxIterations);
    PassesDerive(Productivity(p, step), 0, maxIterations);
    forall k: nat | k < n
      ensures |AfterPasses(p, step, k).derived| < |AfterPasses(p, step, k + 1).derived|
    {
      assert Productivity(p, step)(k);
      if !Reached(p, AfterPasses(p, step, k)) { RulesExtend(p, newId, AfterPasses(p, step, k), p.rules); }
    }
    assert n < maxIterations ==> !Productivity(p, step)(n);
  }

  /** The facts that a pass adds come from rules tried in order, each at most once. */
  ghost predicate FromRulesInOrder(rules: seq<Rule>, more: seq<Fact>, used: seq<nat>) {
    && |used| == |more| && (forall i, j :: 0 <= i < j < |used| ==> used[i] < used[j])
    && forall i :: 0 <= i < |used| ==> used[i] < |rules| && more[i].rule == rules[used[i]].id
  }

  lemma LastOfPass(start: seq<Fact>, before: seq<Fact>, after: seq<Fact>)
    requires start <= before <= after && |after| == |before| + 1
    ensures after[|start|..] == before[|start|..] + [after[|before|]]
  {
  }

  lemma {:induction false} PassInOrder(p: Problem, newId: nat -> Id, s: State, rules: seq<Rule>) returns (used: seq<nat>)
    ensures s.derived <= AfterRules(p, StepOf(p, newId), s, rules).derived
    ensures FromRulesInOrder(rules, AfterRules(p, StepOf(p, newId), s, rules).derived[|s.derived|..], used)
  {
    if rules == [] {
      used := [];
    } else {
      var last := |rules| - 1;
      used := PassInOrder(p, newId, s, rules[..last]);
      var before, after := AfterRules(p, StepOf(p, newId), s, rules[..last]), AfterRules(p, StepOf(p, newId), s, rules);
      if after.derived != before.derived {
        assert after == AfterRule(p, newId, before, rules[last]);
        LastOfPass(s.derived, before.derived, after.derived);
        used := used + [last];
      }
    }
  }

  /** The same inference, asked for nothing in particular. */
  function Aimless(p: Problem): Problem {
    p.(goal := None)
  }

  ghost predicate GoalGiven(p: Problem) {
    p.goal.Some? && p.goal.value in p.given
  }

  lemma {:induction false} SameRules(p: Problem, newId: nat -> Id, s: State, rules: seq<Rule>)
    requires GoalGiven(p) && Apart(p, s)
    ensures AfterRules(p, StepOf(p, newId), s, rules) == AfterRules(Aimless(p), StepOf(Aimless(p), newId), s, rules)
  {
    if rules == [] {
    } else {
      var front := rules[..|rules| - 1];
      SameRules(p, newId, s, front);
      RulesKeepApart(p, newId, s, front);
      var before := AfterRules(p, StepOf(p, newId), s, front);
      assert !Reached(p, before);
      assert AfterRule(p, newId, before, rules[|rules| - 1]) == AfterRule(Aimless(p), newId, before, rules[|rules| - 1]);
    }
  }

  lemma {:induction false} SamePasses(p: Problem, newId: nat -> Id, n: nat)
    requires GoalGiven(p)
    ensures AfterPasses(p, StepOf(p, newId), n) == AfterPasses(Aimless(p), StepOf(Aimless(p), newId), n)
  {
    if n == 0 {
    } else {
      SamePasses(p, newId, n - 1);
      PassesKeepApart(p, newId, n - 1);
      SameRules(p, newId, AfterPasses(p, StepOf(p, newId), n - 1), p.rules);
    }
  }

  lemma {:induction false} SameCount(p: Problem, newId: nat -> Id, n: nat, maxIterations: nat)
    requires GoalGiven(p) && n <= maxIterations
    ensures PassesFrom(Productivity(p, StepOf(p, newId)), n, maxIterations)
         == PassesFrom(Productivity(Aimless(p), StepOf(Aimless(p), newId)), n, maxIterations)
    decreases maxIterations - n
  {
    if n == maxIterations {
    } else {
      SamePasses(p, newId, n);
      SamePasses(p, newId, n + 1);
      SameCount(p, newId, n + 1, maxIterations);
    }
  }

  /** Asked for a statement that was given, `infer` answers as if asked for nothing and puts the statement on that answer. */
  lemma {:induction false} GivenGoalBorrows(p: Problem, newId: nat -> Id, maxIterations: nat)
    requires GoalGiven(p) && maxIterations >= 1
    ensures Inferred(p, newId, maxIterations) == Inferred(p.(goal := None), newId, maxIterations).(conclusion := p.goal, exhausted := false)
  {
    var n := PassesMade(p, StepOf(p, newId), maxIterations);
    SameCount(p, newId, 0, maxIterations);
    SamePasses(p, newId, n);
    PassesKeepApart(p, newId, n);
  }

  /** `confidence` is the highest confidence among the derived facts, or 0 if none has any. */
  ghost predicate Highest(derived: seq<Fact>, confidence: real) {
    && (forall d :: d in derived ==> d.confidence <= confidence)
    && (confidence == 0.0 || exists d :: d in derived && d.confidence == confidence)
  }

  lemma BestIsHighest(derived: seq<Fact>, conclusion: Option<string>, confidence: real, c: real)
    requires Best(derived, conclusion, confidence) && confidence >= 0.0 && forall d :: d in derived ==> d.confidence >= 0.0
    ensures confidence == c <==> Highest(derived, c)
  {
    if conclusion.Some? {
      var k :| 0 <= k < |derived| && BestAt(derived, k, conclusion.value, confidence);
      assert derived[k] in derived;
    }
  }

  /** A given goal is reported with its fact's own confidence exactly if what is derived without a goal tops out at that very confidence. */
  lemma {:induction false} GivenGoalConfidenceIff(p: Problem, newId: nat -> Id, maxIterations: nat, f: Fact)
    requires Fresh(newId, p.initial) && maxIterations >= 1 && p.goal == Some(f.statement) && f in p.initial && f.statement in p.given
    ensures Inferred(p, newId, maxIterations).confidence == f.confidence <==> Highest(Inferred(p.(goal := None), newId, maxIterations).derived, f.confidence)
  {
    var n := PassesMade(p, StepOf(p, newId), maxIterations);
    var s := AfterPasses(p, StepOf(p, newId), n);
    GivenGoalBorrows(p, newId, maxIterations);
    PassesKeepApart(p, newId, n);
    PassesSound(p, newId, n);
    forall d | d in s.derived
      ensures d.confidence >= 0.0
    {
      var k :| 0 <= k < |s.derived| && s.derived[k] == d;
      StatementsAreNew(p.rules, p.initial, p.given, s.derived, p.minimum, k);
    }
    BestIsHighest(s.derived, s.conclusion, s.confidence, f.confidence);
  }

  /** One given fact, certain, and no rule: asked for that fact, `infer` concludes it with confidence 0. */
  lemma GivenGoalUnsure(id: Id, newId: nat -> Id, minimum: real, maxIterations: nat)
    requires maxIterations >= 1
    ensures var r := Inferred(ProblemOf([Fact(id, "goal", 1.0, "", [])], Some("goal"), [], None, minimum), newId, maxIterations);
      r.conclusion == Some("goal") && r.confidence == 0.0 && r.derived == []
  {
    var fact := Fact(id, "goal", 1.0, "", []);
    var p := ProblemOf([fact], Some("goal"), [], None, minimum);
    assert fact in [fact];
    BarrenRun(p, newId, maxIterations);
  }

  /** Without rules nothing is derived. */
  lemma {:induction false} BarrenRun(p: Problem, newId: nat -> Id, n: nat)
    requires p.rules == []
    ensures AfterPasses(p, StepOf(p, newId), n) == State([], None, 0.0)
    ensures PassesMade(p, StepOf(p, newId), n) == 0
  {
    if n == 0 {
    } else {
      BarrenRun(p, newId, n - 1);
      var none := AfterPasses(p, StepOf(p, newId), 0);
      assert AfterPasses(p, StepOf(p, newId), 1) == none;
      assert !Productivity(p, StepOf(p, newId))(0);
    }
  }

  /** A rule that derives "b" from the fact with id "1". */
  function RuleForB(): Rule {
    Rule("r", Deductive, (facts: seq<Fact>) => Some(["1"]), (premises: seq<Fact>) => Output("b", 1.0))
  }

  function FromA(goal: Option<string>): Problem {
    ProblemOf([Fact("1", "a", 1.0, "", [])], goal, [RuleForB()], None, 0.1)
  }

  lemma OnePass(goal: Option<string>, newId: nat -> Id)
    requires goal != Some("b")
    ensures AfterPasses(FromA(goal), StepOf(FromA(goal), newId), 1) == State([Fact(newId(0), "b", 1.0, "r", ["1"])], Some("b"), 1.0)
    ensures PassesMade(FromA(goal), StepOf(FromA(goal), newId), 1) == 1
  {
    var p, start, a := FromA(goal), State([], None, 0.0), Fact("1", "a", 1.0, "", []);
    var step := StepOf(p, newId);
    assert Selected([RuleForB()], None) == [RuleForB()] && Indexed([a]) == [a];
    assert Working(p, []) == [a] && Known(p, []) == {"a"} by { assert forall f :: f in [a] <==> f == a; }
    assert Lookup([a], ["1"]) == Some([a]) by { assert ["1"][1..] == []; }
    assert Derive(RuleForB(), [a], {"a"}, 0.1, newId(0)) == Some(Fact(newId(0), "b", 1.0, "r", ["1"]));
    assert step(start, RuleForB()) == AfterRule(p, newId, start, RuleForB());
    assert AfterRules(p, step, start, []) == start && [RuleForB()][..0] == [];
    assert AfterPasses(p, step, 0) == start && !Reached(p, start);
    assert AfterRules(p, step, start, [RuleForB()]) == step(start, RuleForB());
    assert AfterPasses(p, step, 1) == AfterRules(p, step, start, [RuleForB()]);
    assert Productivity(p, step)(0);
  }

  /** One rule, one pass allowed and a goal it does not derive: the inference stops at the cap, and is not reported as exhausted. */
  lemma CappedYetNotExhausted(newId: nat -> Id)
    ensures var asked, free := Inferred(FromA(Some("c")), newId, 1), Inferred(FromA(None), newId, 1);
      asked.iterations == free.iterations == 1 && asked.derived == free.derived != [] && free.exhausted && !asked.exhausted
  {
    OnePass(Some("c"), newId);
    OnePass(None, newId);
    ExhaustedIff(FromA(Some("c")), newId, 1);
    ExhaustedIff(FromA(None), newId, 1);
  }
}
