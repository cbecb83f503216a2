/** Facts that tie a stretch of imperative execution to the machine. */
module Running {
  import opened Values
  import opened Schema
  import opened Machine
  import opened Keywords
  import opened Laws

  /** The steps take one state to the other with this outcome. */
  ghost predicate Ran(w: World, fuel: nat, steps: seq<Step>, before: State, o: Outcome, after: State) {
    Exec(ProgramOf(w), fuel, steps, before) == Result(o, after)
  }

  /** A second stretch runs only if the first finished. */
  lemma Onward(
    w: World, fuel: nat, a: seq<Step>, b: seq<Step>, s0: State, o1: Outcome, s1: State, o2: Outcome, s2: State)
    requires Ran(w, fuel, a, s0, o1, s1)
    requires if o1.Finished? then Ran(w, fuel, b, s1, o2, s2) else o2 == o1 && s2 == s1
    ensures Ran(w, fuel, a + b, s0, o2, s2)
  {
    ExecConcat(ProgramOf(w), fuel, a, b, s0);
  }

  lemma Single(w: World, fuel: nat, step: Step, s0: State)
    ensures Exec(ProgramOf(w), fuel, [step], s0) == ExecStep(ProgramOf(w), fuel, step, s0)
  {
    var r := ExecStep(ProgramOf(w), fuel, step, s0);
    assert [step][1..] == [];
  }

  /** A report. */
  lemma Reported(w: World, fuel: nat, problem: Problem, s0: State)
    ensures Exec(ProgramOf(w), fuel, [Report(problem)], s0) == Emit(problem, s0)
  {
    Single(w, fuel, Report(problem), s0);
  }

  // --- probes ---

  /** One turn of a counting loop. */
  lemma CountNext(w: World, fuel: nat, goals: seq<Goal>, limit: nat, count: nat, i: nat, s: State)
    requires i < |goals| && count != limit
    ensures var p := IsValid(ProgramOf(w), fuel, goals[i], s);
            Count(ProgramOf(w), fuel, goals[i..], limit, count, s) ==
              if !p.outcome.Finished? then Counted(p.outcome, count, p.state)
              else Count(ProgramOf(w), fuel, goals[i + 1..], limit, if p.valid then count + 1 else count, p.state)
  {
    assert goals[i..][0] == goals[i] && goals[i..][1..] == goals[i + 1..];
  }

  lemma CountDone(w: World, fuel: nat, goals: seq<Goal>, limit: nat, count: nat, i: nat, s: State)
    requires i <= |goals| && (i == |goals| || count == limit)
    ensures Count(ProgramOf(w), fuel, goals[i..], limit, count, s) == Counted(Finished, count, s)
  {
  }

  /** A probe whose loop was left by an exception. */
  lemma ProbeFails(w: World, fuel: nat, goals: seq<Goal>, limit: nat, combiner: Combiner, s0: State)
    requires !Count(ProgramOf(w), fuel, goals, limit, 0, s0).outcome.Finished?
    ensures var c := Count(ProgramOf(w), fuel, goals, limit, 0, s0);
            Ran(w, fuel, [Probe(goals, limit, combiner)], s0, c.outcome, c.state)
  {
    Single(w, fuel, Probe(goals, limit, combiner), s0);
  }

  /** A probe that ends with reports. */
  lemma ProbeReports(w: World, fuel: nat, goals: seq<Goal>, limit: nat, combiner: Combiner, s0: State,
                     count: nat, s1: State, problems: seq<Problem>, o: Outcome, s2: State)
    requires Count(ProgramOf(w), fuel, goals, limit, 0, s0) == Counted(Finished, count, s1)
    requires Next(combiner, count) == Reports(problems) && EmitAll(problems, s1) == Result(o, s2)
    ensures Ran(w, fuel, [Probe(goals, limit, combiner)], s0, o, s2)
  {
    Single(w, fuel, Probe(goals, limit, combiner), s0);
  }

  /** A probe that ends with one more probe. */
  lemma ProbeThen(w: World, fuel: nat, goals: seq<Goal>, limit: nat, combiner: Combiner, s0: State,
                  count: nat, s1: State, goal: Goal, problem: Problem)
    requires Count(ProgramOf(w), fuel, goals, limit, 0, s0) == Counted(Finished, count, s1)
    requires Next(combiner, count) == Then(goal, problem)
    ensures var p := IsValid(ProgramOf(w), fuel, goal, s1);
            Exec(ProgramOf(w), fuel, [Probe(goals, limit, combiner)], s0) ==
              if !p.outcome.Finished? then Result(p.outcome, p.state)
              else EmitAll(if p.valid then [] else [problem], p.state)
  {
    Single(w, fuel, Probe(goals, limit, combiner), s0);
  }

  lemma EmitOne(problem: Problem, s: State)
    ensures EmitAll([problem], s) == Emit(problem, s)
  {
    assert [problem][1..] == [];
  }

  // --- loops that were left early ---

  lemma {:induction false} VisitsStop(
    w: World, fuel: nat, targets: seq<Address>, items: seq<Data>, from: nat, i: nat, upTo: nat,
    s0: State, o: Outcome, s: State)
    requires i <= upTo <= |targets| && upTo <= |items| && !o.Finished?
    requires Ran(w, fuel, Visits(targets, items, from, i), s0, o, s)
    ensures Ran(w, fuel, Visits(targets, items, from, upTo), s0, o, s)
    decreases upTo
  {
    if i < upTo && from < upTo {
      VisitsStop(w, fuel, targets, items, from, i, upTo - 1, s0, o, s);
      Onward(w, fuel, Visits(targets, items, from, upTo - 1),
           [Place(IndexSlot(upTo - 1)), Call((targets[upTo - 1], items[upTo - 1]))], s0, o, s, o, s);
    }
  }

  lemma {:induction false} RequiredStop(
    w: World, fuel: nat, id: Address, data: Data, required: seq<Key>, i: nat, s0: State, o: Outcome, s: State)
    requires data.Object? && i <= |required| && !o.Finished?
    requires Ran(w, fuel, RequiredSteps(id, data, required[..i]), s0, o, s)
    ensures Ran(w, fuel, RequiredSteps(id, data, required), s0, o, s)
    decreases |required|
  {
    var last := |required| - 1;
    if i == |required| {
      assert required[..i] == required;
    } else {
      assert required[..last][..i] == required[..i];
      RequiredStop(w, fuel, id, data, required[..last], i, s0, o, s);
      Onward(w, fuel, RequiredSteps(id, data, required[..last]),
           When(!HasKey(data.members, required[last]), id, data, "required"), s0, o, s, o, s);
    }
  }

  lemma {:induction false} DependenciesStop(
    w: World, fuel: nat, data: Data, deps: seq<(Key, Address)>, i: nat, s0: State, o: Outcome, s: State)
    requires data.Object? && i <= |deps| && !o.Finished?
    requires Ran(w, fuel, DependencySteps(data, deps[..i]), s0, o, s)
    ensures Ran(w, fuel, DependencySteps(data, deps), s0, o, s)
    decreases |deps|
  {
    var last := |deps| - 1;
    if i == |deps| {
      assert deps[..i] == deps;
    } else {
      assert deps[..last][..i] == deps[..i];
      DependenciesStop(w, fuel, data, deps[..last], i, s0, o, s);
      var tail := if HasKey(data.members, deps[last].0) then [Call((deps[last].1, data))] else [];
      Onward(w, fuel, DependencySteps(data, deps[..last]), tail, s0, o, s, o, s);
    }
  }

  /** A list of steps that was left early has run as far as the whole list does. */
  lemma {:induction false} ListStop<T(!new)>(
    w: World, fuel: nat, steps: seq<T> -> seq<Step>, each: T -> seq<Step>, xs: seq<T>, i: nat,
    s0: State, o: Outcome, s: State)
    requires i <= |xs| && !o.Finished? && forall init, x :: Extends(steps, each, init, x)
    requires Ran(w, fuel, steps(xs[..i]), s0, o, s)
    ensures Ran(w, fuel, steps(xs), s0, o, s)
    decreases |xs| - i
  {
    if i == |xs| {
      assert xs[..i] == xs;
    } else {
      assert xs[..i + 1] == xs[..i] + [xs[i]] && Extends(steps, each, xs[..i], xs[i]);
      Onward(w, fuel, steps(xs[..i]), each(xs[i]), s0, o, s, o, s);
      ListStop(w, fuel, steps, each, xs, i + 1, s0, o, s);
    }
  }

  lemma MatchedStop(
    w: World, fuel: nat, patterns: seq<(string, Address)>, name: string, value: Data, i: nat,
    s0: State, o: Outcome, s: State)
    requires i <= |patterns| && !o.Finished?
    requires Ran(w, fuel, MatchedSteps(w, patterns[..i], name, value), s0, o, s)
    ensures Ran(w, fuel, MatchedSteps(w, patterns, name, value), s0, o, s)
  {
    var steps := (ps: seq<(string, Address)>) => MatchedSteps(w, ps, name, value);
    var each := (p: (string, Address)) => if w.matches(p.0, name) then [Call((p.1, value))] else [];
    forall init, p: (string, Address) ensures Extends(steps, each, init, p) {
      assert (init + [p])[..|init|] == init;
    }
    ListStop(w, fuel, steps, each, patterns, i, s0, o, s);
  }

  lemma PropertiesStop(
    w: World, fuel: nat, id: Address, members: seq<(Key, Data)>, i: nat, s0: State, o: Outcome, s: State)
    requires i <= |members| && !o.Finished?
    requires Ran(w, fuel, PropertySteps(w, id, members[..i]), s0, o, s)
    ensures Ran(w, fuel, PropertySteps(w, id, members), s0, o, s)
  {
    var steps := (ms: seq<(Key, Data)>) => PropertySteps(w, id, ms);
    var each := (m: (Key, Data)) => MemberSteps(w, id, m.0, m.1);
    forall init, m: (Key, Data) ensures Extends(steps, each, init, m) { assert (init + [m])[..|init|] == init; }
    ListStop(w, fuel, steps, each, members, i, s0, o, s);
  }
}
