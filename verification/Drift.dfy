/**
 A flat document that runs out of slots.

 Each element that fails `contains` below its own level leaves the depth one higher, so an array of
 n such elements ends n levels deep, and from a thousand elements on the slot array is overrun,
 although the document itself nests only two levels. The guard against deep documents never gets to
 raise: a document nested too deeply has left the slots before.
 */
module Drift {
  import opened Values
  import opened Schema
  import opened Machine
  import opened Keywords
  import opened Laws
  import opened Entry
  import opened Running

  const BARE := Node(
    ByKeywords, 0, ByDataType, {}, None, None, None, None, None, None, None, "format", None, None,
    None, None, None, None, None, None, None, None, None, None, None, None, None, None, None, None)

  /** `{"contains": {"properties": {"a": false}}}`, with every leaf check passing. */
  function Example(): World {
    World(
      id => if id == 0 then BARE.(contains := Some(1))
            else if id == 1 then BARE.(properties := Some(map["a" := 2]))
            else BARE.(validation := AlwaysFalse),
      (_, _, _) => Pass,
      (_, _) => false)
  }

  const ELEMENT := Object([(Name("a"), Null)])

  function Elements(n: nat): Data { Array(seq(n, _ => ELEMENT)) }

  lemma ElementBody()
    ensures Body(Example(), (1, ELEMENT)) == [Descend, Place(NameSlot("a")), Call((2, Null)), Ascend]
  {
    var w := Example();
    var members := ELEMENT.members;
    assert MemberSteps(w, 1, Name("a"), Null) == [Place(NameSlot("a")), Call((2, Null))];
    assert members[..0] == [];
    assert PropertySteps(w, 1, members) == PropertySteps(w, 1, []) + MemberSteps(w, 1, Name("a"), Null);
    assert ObjectSteps(w, 1, ELEMENT) == [Descend, Place(NameSlot("a")), Call((2, Null)), Ascend];
    assert TypeSteps(w, 1, ELEMENT) == ObjectSteps(w, 1, ELEMENT);
  }

  /** Probing one element: invalid, one level deeper, or out of slots. */
  lemma ElementDrifts(fuel: nat, st: State)
    requires fuel >= 2 && InSlots(st.context) && |st.context.path| == MAX_CONTEXT_DEPTH
    ensures var p := IsValid(ProgramOf(Example()), fuel, (1, ELEMENT), st);
            if st.context.depth + 1 < MAX_CONTEXT_DEPTH
            then p.outcome.Finished? && !p.valid && p.state.context.depth == st.context.depth + 1
                 && |p.state.context.path| == MAX_CONTEXT_DEPTH && p.state.quiet == st.quiet
            else p.outcome.OutOfSlots?
  {
    ElementBody();
    var prog := ProgramOf(Example());
    var steps := [Descend, Place(NameSlot("a")), Call((2, Null)), Ascend];
    assert prog.body((1, ELEMENT)) == steps;
    var st0 := st.(quiet := true);
    var st1 := st0.(context := st0.context.(depth := st0.context.depth + 1));
    assert ExecStep(prog, fuel - 1, steps[0], st0) == Result(Finished, st1);
    assert steps[1..] == [Place(NameSlot("a")), Call((2, Null)), Ascend];
    if st.context.depth + 1 < MAX_CONTEXT_DEPTH {
      var st2 := st1.(context := st1.context.(path := st1.context.path[st1.context.depth := NameSlot("a")]));
      assert ExecStep(prog, fuel - 1, steps[1], st1) == Result(Finished, st2);
      assert steps[1..][1..] == [Call((2, Null)), Ascend];
      assert prog.body((2, Null)) == [Report(Problem(2, Null, "false_schema"))];
      assert Exec(prog, fuel - 2, prog.body((2, Null)), st2) == Result(Thrown, st2);
      assert Exec(prog, fuel - 1, steps[1..][1..], st2) == Result(Thrown, st2);
      assert Exec(prog, fuel - 1, steps[1..], st1) == Result(Thrown, st2);
    } else {
      assert ExecStep(prog, fuel - 1, steps[1], st1) == Result(OutOfSlots, st1);
      assert Exec(prog, fuel - 1, steps[1..], st1) == Result(OutOfSlots, st1);
    }
    assert Exec(prog, fuel - 1, steps, st0) == Exec(prog, fuel - 1, steps[1..], st1);
  }

  lemma {:induction false} ElementsDrift(fuel: nat, goals: seq<Goal>, limit: nat, st: State)
    requires fuel >= 2 && InSlots(st.context) && |st.context.path| == MAX_CONTEXT_DEPTH && limit > 0
    requires forall i :: 0 <= i < |goals| ==> goals[i] == (1, ELEMENT)
    ensures var c := Count(ProgramOf(Example()), fuel, goals, limit, 0, st);
            if st.context.depth + |goals| < MAX_CONTEXT_DEPTH
            then c.outcome.Finished? && c.count == 0 && c.state.context.depth == st.context.depth + |goals|
                 && c.state.quiet == st.quiet && InSlots(c.state.context)
            else c.outcome.OutOfSlots?
    decreases |goals|
  {
    if goals != [] {
      assert goals[0] in goals;
      ElementDrifts(fuel, st);
      var p := IsValid(ProgramOf(Example()), fuel, goals[0], st);
      if p.outcome.Finished? { ElementsDrift(fuel, goals[1..], limit, p.state); }
    }
  }

  lemma ArrayBody(n: nat)
    ensures Body(Example(), (0, Elements(n)))
         == [Probe(ForAll(1, Elements(n).items), n + 1, Occurrences(0, 1, Elements(n), None, None))]
  {
    var w, data := Example(), Elements(n);
    assert ArraySteps(w, 0, data) == ContainsSteps(w.nodes(0), 0, data);
    assert TypeSteps(w, 0, data) == ArraySteps(w, 0, data);
  }

  /** `valid?` answers, n levels deep, exactly on fewer than a thousand such elements. */
  lemma FlatDocumentDrifts(n: nat, fuel: nat)
    requires fuel >= 2
    ensures var p := Valid(Example(), fuel, 0, Elements(n));
            if n < 1000
            then p.outcome.Finished? && !p.valid && p.state.context.depth == n
            else p.outcome.OutOfSlots?
  {
    ArrayBody(n);
    var prog := ProgramOf(Example());
    var goals := ForAll(1, Elements(n).items);
    var st := Fresh().(quiet := true);
    ElementsDrift(fuel, goals, n + 1, st);
    var c := Count(prog, fuel, goals, n + 1, 0, st);
    var step := Probe(goals, n + 1, Occurrences(0, 1, Elements(n), None, None));
    if n < MAX_CONTEXT_DEPTH {
      assert Next(Occurrences(0, 1, Elements(n), None, None), 0)
          == Reports([Problem(1, Elements(n), "contains")]);
      assert ExecStep(prog, fuel, step, st) == Result(Thrown, c.state);
    }
    assert Exec(prog, fuel, [step], st) == ExecStep(prog, fuel, step, st);
  }

  // ---------------------------------------------------------------------------------------
  // The reported path
  // ---------------------------------------------------------------------------------------

  /** Slots lead further in. */
  lemma {:induction false} LeadsLower(from: Data, slots: seq<Slot>, to: Data)
    requires Leads(from, slots, to)
    ensures Height(to) + |slots| <= Height(from)
    decreases |slots|
  {
    if slots != [] {
      var next :| Edge(from, slots[0], next) && Leads(next, slots[1..], to);
      LeadsLower(next, slots[1..], to);
      EdgeLower(from, slots[0], next);
    }
  }

  lemma EdgeLower(parent: Data, slot: Slot, child: Data)
    requires Edge(parent, slot, child)
    ensures Height(child) < Height(parent)
  {
    if slot.IndexSlot? {
      ItemLower(parent.items, slot.index);
    } else {
      var i :| 0 <= i < |parent.members| && parent.members[i].0 == Name(slot.name) &&
               (parent.members[i].1 == child || child == Text(slot.name));
      MemberLower(parent.members, i);
    }
  }

  lemma OneReport(problem: Problem, st: State)
    requires st.events == []
    ensures var events := EmitAll([problem], st).state.events; events != [] ==> events[0].problem == problem
  {
  }

  lemma ContainsReport(n: nat, fuel: nat)
    requires fuel >= 2 && n < MAX_CONTEXT_DEPTH
    ensures var events := Validate(Example(), fuel, 0, Elements(n)).state.events;
            events != [] ==> events[0].problem.data == Elements(n)
  {
    var w, goals := Example(), ForAll(1, Elements(n).items);
    var combiner, problem := Occurrences(0, 1, Elements(n), None, None), Problem(1, Elements(n), "contains");
    ArrayBody(n);
    ElementsDrift(fuel, goals, n + 1, Fresh());
    CountDisciplined(ProgramOf(w), fuel, goals, n + 1, 0, Fresh());
    var c := Count(ProgramOf(w), fuel, goals, n + 1, 0, Fresh());
    var r := EmitAll([problem], c.state);
    assert Next(combiner, 0) == Reports([problem]);
    ProbeReports(w, fuel, goals, n + 1, combiner, Fresh(), 0, c.state, [problem], r.outcome, r.state);
    OneReport(problem, c.state);
  }

  /** The error about the document itself has n slots too many: they lead to it only if there are no elements. */
  lemma PathDrifts(n: nat, fuel: nat)
    requires fuel >= 2 && n < MAX_CONTEXT_DEPTH
    ensures var events := Validate(Example(), fuel, 0, Elements(n)).state.events;
      && events != [] && events[0].problem.data == Elements(n)
      && events[0].context.depth == n < |events[0].context.path|
      && (Leads(Elements(n), events[0].context.path[1..n + 1], Elements(n)) <==> n == 0)
  {
    FlatDocumentDrifts(n, fuel);
    EntryPointsAgree(Example(), fuel, 0, Elements(n));
    ErrorPathsLead(Example(), fuel, 0, Elements(n), 0);
    ContainsReport(n, fuel);
    var path := Validate(Example(), fuel, 0, Elements(n)).state.events[0].context.path;
    if Leads(Elements(n), path[1..n + 1], Elements(n)) { LeadsLower(Elements(n), path[1..n + 1], Elements(n)); }
  }

  // ---------------------------------------------------------------------------------------
  // The guard
  // ---------------------------------------------------------------------------------------

  /** `{"items": {"$ref": "#"}}`. */
  function Recursive(): World {
    World(
      id => if id == 0 then BARE.(itemsSchema := Some(1)) else BARE.(validation := ByRef),
      (_, _, _) => Pass,
      (_, _) => false)
  }

  /** Arrays in arrays, n of them in the outermost. */
  function Nest(n: nat): Data {
    Array(if n == 0 then [] else [Nest(n - 1)])
  }

  function NestSteps(n: nat): seq<Step> {
    if n == 0 then [Descend, Ascend] else [Descend, Place(IndexSlot(0)), Call((1, Nest(n - 1))), Ascend]
  }

  lemma RecursiveBody(items: seq<Data>)
    ensures Body(Recursive(), (0, Array(items))) == ItemsSteps(Recursive().nodes(0), items)
  {
    var w, data := Recursive(), Array(items);
    assert ArraySteps(w, 0, data) == ItemsSteps(w.nodes(0), items);
    assert TypeSteps(w, 0, data) == ArraySteps(w, 0, data);
  }

  lemma NestBody(n: nat)
    ensures Body(Recursive(), (0, Nest(n))) == NestSteps(n)
    ensures Body(Recursive(), (1, Nest(n))) == [Call((0, Nest(n)))]
  {
    RecursiveBody(Nest(n).items);
    NestItems(Nest(n).items);
  }

  lemma NestItems(items: seq<Data>)
    requires |items| <= 1
    ensures ItemsSteps(Recursive().nodes(0), items) ==
            if items == [] then [Descend, Ascend] else [Descend, Place(IndexSlot(0)), Call((1, items[0])), Ascend]
  {
    var targets: seq<Address> := seq(|items|, _ => 1);
    assert Visits(targets, items, 0, 0) == [];
    if items != [] { assert Visits(targets, items, 0, 1) == [Place(IndexSlot(0)), Call((1, items[0]))]; }
  }

  ghost predicate RunsNest(prog: Program, n: nat) {
    prog.body((0, Nest(n))) == NestSteps(n) && prog.body((1, Nest(n))) == [Call((0, Nest(n)))]
  }

  function Deeper(st: State): State { st.(context := st.context.(depth := st.context.depth + 1)) }
  function Higher(st: State): State { st.(context := st.context.(depth := st.context.depth - 1)) }

  function Placed(st: State): State
    requires InSlots(st.context)
  {
    st.(context := st.context.(path := st.context.path[st.context.depth := IndexSlot(0)]))
  }

  /** Going down, as far as the slots reach, always succeeds. */
  lemma NestHead(prog: Program, fuel: nat, tail: seq<Step>, st: State)
    requires InSlots(st.context) && |st.context.path| == MAX_CONTEXT_DEPTH
    ensures Exec(prog, fuel, [Descend] + tail, st) == Exec(prog, fuel, tail, Deeper(st))
  {
    assert ExecStep(prog, fuel, Descend, st) == Result(Finished, Deeper(st));
    assert ([Descend] + tail)[1..] == tail;
  }

  lemma Up(prog: Program, fuel: nat, st: State)
    ensures Exec(prog, fuel, [Ascend], st) == Result(Finished, Higher(st))
  {
    assert ExecStep(prog, fuel, Ascend, st) == Result(Finished, Higher(st));
    assert [Ascend][1..] == [];
  }

  /** After going down: the slot, the call through the reference, and the way back up. */
  lemma NestTail(prog: Program, n: nat, fuel: nat, steps: seq<Step>, st: State)
    requires RunsNest(prog, n) && fuel >= 2 && steps == [Place(IndexSlot(0)), Call((1, Nest(n))), Ascend]
    ensures var r := Exec(prog, fuel, steps, st);
      if !InSlots(st.context) then r == Result(OutOfSlots, st)
      else
        var below := Exec(prog, fuel - 2, NestSteps(n), Placed(st));
        r == if below.outcome.Finished? then Result(Finished, Higher(below.state)) else below
  {
    if InSlots(st.context) {
      var one := [Call((0, Nest(n)))];
      var below := Exec(prog, fuel - 2, NestSteps(n), Placed(st));
      assert ExecStep(prog, fuel, steps[0], st) == Result(Finished, Placed(st));
      assert steps[1..] == [Call((1, Nest(n))), Ascend] && steps[1..][1..] == [Ascend];
      assert ExecStep(prog, fuel - 1, one[0], Placed(st)) == below;
      assert one[1..] == [];
      assert Exec(prog, fuel - 1, one, Placed(st)) == below;
      assert ExecStep(prog, fuel, steps[1..][0], Placed(st)) == below;
      if below.outcome.Finished? { Up(prog, fuel, below.state); }
    } else {
      assert ExecStep(prog, fuel, steps[0], st) == Result(OutOfSlots, st);
    }
  }

  ghost predicate EndsAt(r: Result, depth: int, n: nat) {
    if depth + n < MAX_CONTEXT_DEPTH
    then r.outcome.Finished? && r.state.context.depth == depth && |r.state.context.path| == MAX_CONTEXT_DEPTH
    else r.outcome.OutOfSlots?
  }

  /** A run over n more levels ends unless they leave the slots; nothing ever raises. */
  lemma {:induction false} NestRun(prog: Program, n: nat, fuel: nat, st: State)
    requires forall m: nat :: RunsNest(prog, m)
    requires fuel >= 2 * n && InSlots(st.context) && |st.context.path| == MAX_CONTEXT_DEPTH
    ensures EndsAt(Exec(prog, fuel, NestSteps(n), st), st.context.depth, n)
    decreases n
  {
    if n == 0 {
      NestHead(prog, fuel, [Ascend], st);
      Up(prog, fuel, Deeper(st));
      assert NestSteps(0) == [Descend] + [Ascend];
    } else {
      var tail := [Place(IndexSlot(0)), Call((1, Nest(n - 1))), Ascend];
      assert NestSteps(n) == [Descend] + tail && RunsNest(prog, n - 1);
      NestHead(prog, fuel, tail, st);
      NestTail(prog, n - 1, fuel, tail, Deeper(st));
      if InSlots(Deeper(st).context) { NestRun(prog, n - 1, fuel - 2, Placed(Deeper(st))); }
    }
  }

  /**
   A document nested n deep is validated exactly if n is below a thousand; else it leaves the slots, and
   nothing raises.
   */
  lemma DeepDocument(n: nat, fuel: nat)
    requires fuel >= 2 * n
    ensures Validate(Recursive(), fuel, 0, Nest(n)).outcome == if n < 1000 then Finished else OutOfSlots
  {
    var prog := ProgramOf(Recursive());
    forall m: nat ensures RunsNest(prog, m) { NestBody(m); }
    assert RunsNest(prog, n);
    NestRun(prog, n, fuel, Fresh());
  }
}
