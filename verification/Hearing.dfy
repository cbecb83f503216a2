/**
 What the block of `validate` is called with: problem by problem, the complaints that the JSON of the
 schema calls for.
 */
module Hearing {
  import opened Values
  import opened Schema
  import opened Machine
  import opened Keywords
  import opened Counting
  import opened Reporting
  import opened Complaints
  import opened JsonMeaning
  import opened BaseKeys
  import opened FieldPlaces
  import opened Composition
  import opened Naming
  import M = Meaning
  import D = Draft7
  import T = SchemaTree
  import B = Blueprint
  import L = Loading
  import A = Location

  // ---------------------------------------------------------------------------------------
  // Steps of one keyword
  // ---------------------------------------------------------------------------------------

  /** A problem as a complaint about the location of its node. */
  function Located(ps: seq<Place>, problem: Problem): Complaint {
    Complaint(if problem.schema < |ps| then ps[problem.schema].tokens else [], problem.data, problem.code)
  }

  ghost predicate Tells(v: Voice<Complaint>, ps: seq<Place>, problem: Problem) {
    v.say(problem) == Located(ps, problem)
  }

  /** Nodes answer, and are told of, as their locations. */
  ghost predicate Hears(
    v: Voice<Complaint>, holds: Applied -> bool, log: Applied -> seq<Complaint>, ps: seq<Place>)
  {
    SameAnswers(v.met, holds, ps) && SameAnswers(v.log, log, ps) && forall problem :: Tells(v, ps, problem)
  }

  ghost predicate IsAt(ps: seq<Place>, i: Address, p: Place) { i < |ps| && ps[i] == p }

  lemma WhenSaid(
    v: Voice<Complaint>, ps: seq<Place>, i: Address, p: Place, failed: bool, data: Data, code: string)
    requires (forall problem :: Tells(v, ps, problem)) && IsAt(ps, i, p)
    ensures StepsSay(v, When(failed, i, data, code)) == If(failed, On(p, data), code)
  {
    if failed {
      SayOne(v, Report(Problem(i, data, code)));
      assert Tells(v, ps, Problem(i, data, code));
    }
  }

  lemma LeafSaid(
    w: World, e: Given, v: Voice<Complaint>, ps: seq<Place>, i: Address, p: Place, check: LeafCheck, data: Data,
    code: string)
    requires (forall problem :: Tells(v, ps, problem)) && IsAt(ps, i, p) && HasChecks(w, e, i, p.source)
    ensures StepsSay(v, Leaf(w, i, check, data, code)) == If(e.leaf(p.source, check, data).Fail?, On(p, data), code)
  {
    match w.leaf(i, check, data)
    case Pass =>
    case Fail => WhenSaid(v, ps, i, p, true, data, code);
    case Raises(message) => SayOne(v, Crash(message));
  }

  lemma SayFour(v: Voice<Complaint>, a: seq<Step>, b: seq<Step>, c: seq<Step>, d: seq<Step>)
    ensures StepsSay(v, a + b + c + d) == StepsSay(v, a) + StepsSay(v, b) + StepsSay(v, c) + StepsSay(v, d)
  {
    SayConcat(v, a, b);
    SayConcat(v, a + b, c);
    SayConcat(v, a + b + c, d);
  }

  lemma SayFive(v: Voice<Complaint>, a: seq<Step>, b: seq<Step>, c: seq<Step>, d: seq<Step>, e: seq<Step>)
    ensures StepsSay(v, a + b + c + d + e) ==
            StepsSay(v, a) + StepsSay(v, b) + StepsSay(v, c) + StepsSay(v, d) + StepsSay(v, e)
  {
    SayFour(v, a, b, c, d);
    SayConcat(v, a + b + c + d, e);
  }

  lemma SayNested(v: Voice<Complaint>, steps: seq<Step>)
    ensures StepsSay(v, Nested(steps)) == StepsSay(v, steps)
  {
    SayConcat(v, [Descend], steps);
    SayConcat(v, [Descend] + steps, [Ascend]);
    SayOne(v, Descend);
    SayOne(v, Ascend);
  }

  // --- numbers and strings ---

  lemma NumericHeard(
    w: World, e: Given, v: Voice<Complaint>, ps: seq<Place>, i: Address, p: Place, data: Data, onLongs: bool)
    requires (forall problem :: Tells(v, ps, problem)) && IsAt(ps, i, p) && HasChecks(w, e, i, p.source)
    requires (data.Integer? || data.Float?) && (onLongs <==> ComparesLongs(p.source, data))
    ensures StepsSay(v, if onLongs then IntegerSteps(w, i, data) else NumberSteps(w, i, data)) ==
            NumericSaid(e, On(p, data))
  {
    var k := (kw: NumericKeyword) => if onLongs then IntegerKeyword(kw) else NumberKeyword(kw);
    LeafSaid(w, e, v, ps, i, p, k(MultipleOf), data, "multipleOf");
    LeafSaid(w, e, v, ps, i, p, k(Maximum), data, "maximum");
    LeafSaid(w, e, v, ps, i, p, k(ExclusiveMaximum), data, "exclusiveMaximum");
    LeafSaid(w, e, v, ps, i, p, k(Minimum), data, "minimum");
    LeafSaid(w, e, v, ps, i, p, k(ExclusiveMinimum), data, "exclusiveMinimum");
    SayFive(v, Leaf(w, i, k(MultipleOf), data, "multipleOf"), Leaf(w, i, k(Maximum), data, "maximum"),
            Leaf(w, i, k(ExclusiveMaximum), data, "exclusiveMaximum"), Leaf(w, i, k(Minimum), data, "minimum"),
            Leaf(w, i, k(ExclusiveMinimum), data, "exclusiveMinimum"));
  }

  lemma TextHeard(w: World, e: Given, v: Voice<Complaint>, ps: seq<Place>, i: Address, p: Place, data: Data)
    requires (forall problem :: Tells(v, ps, problem)) && IsAt(ps, i, p) && HasChecks(w, e, i, p.source)
    requires HasValues(e, p.source, w.nodes(i)) && data.Text?
    ensures StepsSay(v, StringSteps(w, i, data)) == TextSaid(e, On(p, data), |data.s|)
  {
    var node := w.nodes(i);
    var tooLong := node.maxLength.Some? && |data.s| > AsLong(node.maxLength.value);
    var tooShort := node.minLength.Some? && |data.s| < AsLong(node.minLength.value);
    LimitSame(e, p.source, "maxLength");
    LimitSame(e, p.source, "minLength");
    WhenSaid(v, ps, i, p, tooLong, data, "maxLength");
    WhenSaid(v, ps, i, p, tooShort, data, "minLength");
    LeafSaid(w, e, v, ps, i, p, Pattern, data, "pattern");
    LeafSaid(w, e, v, ps, i, p, Format, data, node.formatKey);
    SayFour(v, When(tooLong, i, data, "maxLength"), When(tooShort, i, data, "minLength"),
            Leaf(w, i, Pattern, data, "pattern"), Leaf(w, i, Format, data, node.formatKey));
  }

  // --- arrays ---

  lemma {:induction false} EachHeard(
    v: Voice<Complaint>, holds: Applied -> bool, log: Applied -> seq<Complaint>, ps: seq<Place>, p: Place,
    c: B.Compiled, kw: T.Single, data: Data, items: seq<Data>, targets: seq<Address>, lo: nat, hi: nat)
    requires Hears(v, holds, log, ps) && LinksLead(ps, c.links, p) && kw in c.links.ones
    requires hi <= |items| && |targets| == |items| && forall i :: 0 <= i < |items| ==> targets[i] == c.links.ones[kw]
    ensures StepsSay(v, Visits(targets, items, lo, hi)) ==
            EachSaid(log, On(p, data), T.OneKeyword(kw), items, lo, hi)
    decreases hi
  {
    if lo < hi {
      EachHeard(v, holds, log, ps, p, c, kw, data, items, targets, lo, hi - 1);
      VisitHeard(v, targets, items, lo, hi);
      OneAnswers(v.log, log, ps, p, c, kw, items[hi - 1]);
    }
  }

  /** One visit more. */
  lemma VisitHeard(v: Voice<Complaint>, targets: seq<Address>, items: seq<Data>, lo: nat, hi: nat)
    requires lo < hi <= |targets| && hi <= |items|
    ensures StepsSay(v, Visits(targets, items, lo, hi)) ==
            StepsSay(v, Visits(targets, items, lo, hi - 1)) + v.log((targets[hi - 1], items[hi - 1]))
  {
    var place, call := Step.Place(IndexSlot(hi - 1)), Call((targets[hi - 1], items[hi - 1]));
    SayConcat(v, Visits(targets, items, lo, hi - 1), [place, call]);
    SayTwo(v, place, call);
  }

  lemma SayTwo(v: Voice<Complaint>, a: Step, b: Step)
    ensures StepsSay(v, [a, b]) == StepSays(v, a) + StepSays(v, b)
  {
    SayConcat(v, [a], [b]);
    assert [a] + [b] == [a, b];
    SayOne(v, a);
    SayOne(v, b);
  }

  lemma {:induction false} TupleHeard(
    v: Voice<Complaint>, holds: Applied -> bool, log: Applied -> seq<Complaint>, ps: seq<Place>, p: Place,
    c: B.Compiled, data: Data, items: seq<Data>, targets: seq<Address>, n: nat)
    requires Hears(v, holds, log, ps) && LinksLead(ps, c.links, p) && T.ItemsList in c.links.lists
    requires targets == c.links.lists[T.ItemsList] && n <= |items| && n <= |targets|
    ensures StepsSay(v, Visits(targets, items, 0, n)) == TupleSaid(log, On(p, data), items, n)
    decreases n
  {
    if n > 0 {
      TupleHeard(v, holds, log, ps, p, c, data, items, targets, n - 1);
      VisitHeard(v, targets, items, 0, n);
      ManyAnswers(v.log, log, ps, p, c, T.ItemsList);
      assert ItemSays(v.log, log, p, targets, "items", n - 1, items[n - 1]);
    }
  }

  lemma AllItemsHeard(
    v: Voice<Complaint>, holds: Applied -> bool, log: Applied -> seq<Complaint>, ps: seq<Place>, p: Place,
    c: B.Compiled, kw: T.Single, data: Data, items: seq<Data>, lo: nat)
    requires Hears(v, holds, log, ps) && LinksLead(ps, c.links, p) && kw in c.links.ones && lo <= |items|
    ensures StepsSay(v, AdditionalItemsSteps(c.links.ones[kw], lo, items)) ==
            EachSaid(log, On(p, data), T.OneKeyword(kw), items, lo, |items|)
  {
    var targets := seq(|items|, _ => c.links.ones[kw]);
    SayNested(v, Visits(targets, items, lo, |items|));
    EachHeard(v, holds, log, ps, p, c, kw, data, items, targets, lo, |items|);
  }

  lemma TupleItemsHeard(
    v: Voice<Complaint>, holds: Applied -> bool, log: Applied -> seq<Complaint>, ps: seq<Place>, p: Place,
    c: B.Compiled, data: Data, items: seq<Data>)
    requires Hears(v, holds, log, ps) && LinksLead(ps, c.links, p) && T.ItemsList in c.links.lists
    ensures var tuple := c.links.lists[T.ItemsList];
      StepsSay(v, TupleSteps(tuple, items)) == TupleSaid(log, On(p, data), items, Least(|tuple|, |items|))
  {
    var tuple := c.links.lists[T.ItemsList];
    var n := Least(|tuple|, |items|);
    SayNested(v, Visits(tuple, items, 0, n));
    TupleHeard(v, holds, log, ps, p, c, data, items, tuple, n);
  }

  /** A list of schemas, and what applies to the items past it. */
  lemma ListHeard(
    v: Voice<Complaint>, holds: Applied -> bool, log: Applied -> seq<Complaint>, ps: seq<Place>, p: Place,
    c: B.Compiled, data: Data, items: seq<Data>)
    requires Hears(v, holds, log, ps) && LinksLead(ps, c.links, p) && T.ItemsList in c.links.lists
    ensures var tuple, more, x := c.links.lists[T.ItemsList], L.OneOf(c.links, T.AdditionalItems), On(p, data);
      var beyond := |items| > |tuple| && more.Some?;
      StepsSay(v, TupleSteps(tuple, items)
                  + (if beyond then AdditionalItemsSteps(more.value, |tuple|, items) else [])) ==
      TupleSaid(log, x, items, Least(|tuple|, |items|))
      + (if beyond then EachSaid(log, x, "additionalItems", items, |tuple|, |items|) else [])
  {
    var tuple, more := c.links.lists[T.ItemsList], L.OneOf(c.links, T.AdditionalItems);
    TupleItemsHeard(v, holds, log, ps, p, c, data, items);
    if |items| > |tuple| && more.Some? {
      AllItemsHeard(v, holds, log, ps, p, c, T.AdditionalItems, data, items, |tuple|);
      SayConcat(v, TupleSteps(tuple, items), AdditionalItemsSteps(more.value, |tuple|, items));
    } else {
      SayConcat(v, TupleSteps(tuple, items), []);
    }
  }

  /** The steps for the items, from the child fields. */
  function LinkedSteps(links: B.Links, items: seq<Data>): seq<Step> {
    if T.Items in links.ones then AdditionalItemsSteps(links.ones[T.Items], 0, items)
    else if T.ItemsList in links.lists then
      var tuple, more := links.lists[T.ItemsList], L.OneOf(links, T.AdditionalItems);
      TupleSteps(tuple, items)
      + (if |items| > |tuple| && more.Some? then AdditionalItemsSteps(more.value, |tuple|, items) else [])
    else []
  }

  /** The forms of the keywords about items. */
  lemma ItemForms(ps: seq<Place>, links: B.Links, p: Place)
    requires LinksLead(ps, links, p)
    ensures T.Items in links.ones <==> HasOne(p.source, "items")
    ensures T.AdditionalItems in links.ones <==> HasOne(p.source, "additionalItems")
    ensures T.ItemsList in links.lists <==> ListUnder(p.source, "items").Some?
    ensures T.ItemsList in links.lists ==> |links.lists[T.ItemsList]| == |ListUnder(p.source, "items").value|
  {
    assert LeadsOne(ps, links, p, T.Items) && LeadsOne(ps, links, p, T.AdditionalItems);
    assert LeadsMany(ps, links, p, T.ItemsList);
  }

  lemma ItemsLinked(c: B.Compiled, node: Node, items: seq<Data>)
    requires node == L.Loaded(c, node)
    ensures ItemsSteps(node, items) == LinkedSteps(c.links, items)
  {
  }

  lemma ItemsHeard(
    v: Voice<Complaint>, holds: Applied -> bool, log: Applied -> seq<Complaint>, ps: seq<Place>, p: Place,
    c: B.Compiled, data: Data, items: seq<Data>)
    requires Hears(v, holds, log, ps) && LinksLead(ps, c.links, p)
    ensures StepsSay(v, LinkedSteps(c.links, items)) == ItemsSaid(log, On(p, data), items)
  {
    ItemForms(ps, c.links, p);
    if T.Items in c.links.ones {
      AllItemsHeard(v, holds, log, ps, p, c, T.Items, data, items, 0);
    } else if T.ItemsList in c.links.lists {
      ListHeard(v, holds, log, ps, p, c, data, items);
    }
  }

  lemma ToldNoneOrOne(v: Voice<Complaint>, ps: seq<Place>, i: Address, p: Place, failed: bool, data: Data, code: string)
    requires (forall problem :: Tells(v, ps, problem)) && IsAt(ps, i, p)
    ensures Told(v.say, if failed then [Problem(i, data, code)] else []) == If(failed, On(p, data), code)
  {
    assert Tells(v, ps, Problem(i, data, code));
    assert [Problem(i, data, code)][1..] == [];
  }

  lemma {:induction false} ToldConcat(say: Problem -> Complaint, a: seq<Problem>, b: seq<Problem>)
    ensures Told(say, a + b) == Told(say, a) + Told(say, b)
    decreases |a|
  {
    if a == [] {
      assert a + b == b;
    } else {
      assert (a + b)[0] == a[0] && (a + b)[1..] == a[1..] + b;
      ToldConcat(say, a[1..], b);
    }
  }

  /** The node under a keyword with one schema, where the keyword is. */
  lemma OneIsAt(ps: seq<Place>, p: Place, c: B.Compiled, kw: T.Single)
    requires LinksLead(ps, c.links, p) && kw in c.links.ones
    ensures var b := c.links.ones[kw]; b < |ps| && forall data ::
      On(ps[b], data) == SubOne(On(p, data), T.OneKeyword(kw), data)
  {
    assert LeadsOne(ps, c.links, p, kw);
  }

  lemma ContainsHeard(
    v: Voice<Complaint>, holds: Applied -> bool, log: Applied -> seq<Complaint>, ps: seq<Place>, i: Address, p: Place,
    c: B.Compiled, node: Node, e: Given, data: Data)
    requires Hears(v, holds, log, ps) && IsRead(ps, p, c, node) && IsAt(ps, i, p) && HasValues(e, p.source, node)
    requires data.Array?
    ensures StepsSay(v, ContainsSteps(node, i, data)) == ContainsSaid(holds, On(p, data), data.items)
  {
    ContainsSame(v.met, holds, ps, p, c, node, e, data);
    if node.contains.Some? {
      var hits := |D.ContainsHits(v.met, node.contains.value, data.items)|;
      AllCounted(v, node, i, data);
      OneIsAt(ps, p, c, T.Contains);
      assert On(ps[node.contains.value], data) == SubOne(On(p, data), "contains", data);
      ContainsTold(v, holds, ps, i, p, node.contains.value, e, data, node.maxContains, node.minContains, hits);
    }
  }

  lemma ContainsTold(
    v: Voice<Complaint>, holds: Applied -> bool, ps: seq<Place>, i: Address, p: Place, b: Address, e: Given, data: Data,
    most: Option<Limit>, least: Option<Limit>, hits: nat)
    requires (forall problem :: Tells(v, ps, problem)) && IsAt(ps, i, p) && b < |ps| && data.Array?
    requires HasOne(p.source, "contains") && On(ps[b], data) == SubOne(On(p, data), "contains", data)
    requires most == LimitOf(e, p.source, "maxContains") && least == LimitOf(e, p.source, "minContains")
    requires hits == Contained(holds, On(p, data), data.items)
    ensures Told(v.say, Next(Occurrences(i, b, data, most, least), hits).problems) ==
            ContainsSaid(holds, On(p, data), data.items)
  {
    OccurrencesHeard(v, ps, i, p, b, data, most, least, hits);
    ContainsIs(e, holds, On(p, data), data.items, hits, most, least);
  }

  lemma ContainsIs(
    e: Given, holds: Applied -> bool, x: Applied, items: seq<Data>, hits: nat, most: Option<Limit>,
    least: Option<Limit>)
    requires most == LimitOf(e, x.schema, "maxContains") && least == LimitOf(e, x.schema, "minContains")
    requires HasOne(x.schema, "contains") && hits == Contained(holds, x, items)
    ensures ContainsSaid(holds, x, items) ==
            If(most.Some? && most.value.Whole? && hits > most.value.n, x, "maxContains")
            + (if least.Some? && least.value.Whole? then If(hits < least.value.n, x, "minContains")
               else If(hits == 0, SubOne(x, "contains", x.data), "contains"))
  {
    LimitSame(e, x.schema, "maxContains");
    LimitSame(e, x.schema, "minContains");
  }

  /** The probe of `contains` counts all hits. */
  lemma AllCounted(v: Voice<Complaint>, node: Node, i: Address, data: Data)
    requires data.Array? && node.contains.Some?
    ensures var b := node.contains.value;
      StepsSay(v, ContainsSteps(node, i, data)) ==
      Told(v.say, Next(Occurrences(i, b, data, node.maxContains, node.minContains),
                       |D.ContainsHits(v.met, b, data.items)|).problems)
  {
    var goals, b := ForAll(node.contains.value, data.items), node.contains.value;
    SayOne(v, ContainsSteps(node, i, data)[0]);
    TallyMeans(v.met, goals);
    assert Hits(v.met, goals) == D.ContainsHits(v.met, b, data.items);
  }

  lemma OccurrencesHeard(
    v: Voice<Complaint>, ps: seq<Place>, i: Address, p: Place, b: Address, data: Data, most: Option<Limit>,
    least: Option<Limit>, hits: nat)
    requires (forall problem :: Tells(v, ps, problem)) && IsAt(ps, i, p) && b < |ps|
    ensures Told(v.say, Next(Occurrences(i, b, data, most, least), hits).problems) ==
            If(most.Some? && most.value.Whole? && hits > most.value.n, On(p, data), "maxContains")
            + (if least.Some? && least.value.Whole? then If(hits < least.value.n, On(p, data), "minContains")
               else If(hits == 0, On(ps[b], data), "contains"))
  {
    var over := most.Some? && most.value.Whole? && hits > most.value.n;
    var first := if over then [Problem(i, data, "maxContains")] else [];
    ToldNoneOrOne(v, ps, i, p, over, data, "maxContains");
    if least.Some? && least.value.Whole? {
      ToldNoneOrOne(v, ps, i, p, hits < least.value.n, data, "minContains");
      ToldConcat(v.say, first, if hits < least.value.n then [Problem(i, data, "minContains")] else []);
    } else {
      ToldNoneOrOne(v, ps, b, ps[b], hits == 0, data, "contains");
      ToldConcat(v.say, first, if hits == 0 then [Problem(b, data, "contains")] else []);
    }
  }

  lemma ArrayHeard(
    w: World, e: Given, v: Voice<Complaint>, holds: Applied -> bool, log: Applied -> seq<Complaint>, ps: seq<Place>,
    i: Address, p: Place, c: B.Compiled, data: Data)
    requires Hears(v, holds, log, ps) && IsRead(ps, p, c, w.nodes(i)) && IsAt(ps, i, p) && HasChecks(w, e, i, p.source)
    requires HasValues(e, p.source, w.nodes(i)) && data.Array?
    ensures StepsSay(v, ArraySteps(w, i, data)) == ArraySaid(e, holds, log, On(p, data), data.items)
  {
    var node := w.nodes(i);
    var over := node.maxItems.Some? && |data.items| > AsLong(node.maxItems.value);
    var short := node.minItems.Some? && |data.items| < AsLong(node.minItems.value);
    LimitSame(e, p.source, "maxItems");
    LimitSame(e, p.source, "minItems");
    WhenSaid(v, ps, i, p, over, data, "maxItems");
    WhenSaid(v, ps, i, p, short, data, "minItems");
    LeafSaid(w, e, v, ps, i, p, Unique, data, "uniqueItems");
    ItemsLinked(c, node, data.items);
    ItemsHeard(v, holds, log, ps, p, c, data, data.items);
    ContainsHeard(v, holds, log, ps, i, p, c, node, e, data);
    SayFive(v, When(over, i, data, "maxItems"), When(short, i, data, "minItems"),
            Leaf(w, i, Unique, data, "uniqueItems"), ItemsSteps(node, data.items), ContainsSteps(node, i, data));
  }

  // --- objects ---

  lemma {:induction false} RequiredHeard(
    e: Given, v: Voice<Complaint>, ps: seq<Place>, i: Address, p: Place, data: Data, names: seq<Data>, keys: seq<Key>)
    requires (forall problem :: Tells(v, ps, problem)) && IsAt(ps, i, p) && data.Object?
    requires |keys| == |names| && forall j :: 0 <= j < |names| ==> keys[j] == e.key(names[j])
    ensures StepsSay(v, RequiredSteps(i, data, keys)) == RequiredSaid(e, On(p, data), data.members, names)
    decreases |names|
  {
    if names != [] {
      var last := |names| - 1;
      RequiredHeard(e, v, ps, i, p, data, names[..last], keys[..last]);
      var missing := !HasKey(data.members, keys[last]);
      WhenSaid(v, ps, i, p, missing, data, "required");
      SayConcat(v, RequiredSteps(i, data, keys[..last]), When(missing, i, data, "required"));
    }
  }

  lemma {:induction false} DependenciesHeard(
    v: Voice<Complaint>, holds: Applied -> bool, log: Applied -> seq<Complaint>, ps: seq<Place>, p: Place, data: Data,
    hash: seq<(Key, Data)>, pairs: L.Pairs)
    requires Hears(v, holds, log, ps) && data.Object? && LeadsUpTo(ps, p, T.Dependencies, hash, pairs)
    ensures StepsSay(v, DependencySteps(data, L.Keyed(pairs))) ==
            DependenciesSaid(log, On(p, data), data.members, hash)
    decreases |hash|
  {
    if hash != [] {
      var init, last := hash[..|hash| - 1], hash[|hash| - 1];
      if last.0.Foreign? {
        DependenciesHeard(v, holds, log, ps, p, data, init, pairs);
      } else {
        var before, pair := pairs[..|pairs| - 1], pairs[|pairs| - 1];
        DependenciesHeard(v, holds, log, ps, p, data, init, before);
        var keyed := L.Keyed(pairs);
        assert keyed == L.Keyed(before) + [(Name(pair.0), pair.1)];
        assert keyed[..|keyed| - 1] == L.Keyed(before);
        var tail := if HasKey(data.members, Name(pair.0)) then [Call((pair.1, data))] else [];
        SayConcat(v, DependencySteps(data, L.Keyed(before)), tail);
        SayOne(v, Call((pair.1, data)));
        Answer(v.log, log, ps, pair.1, MemberOf(p, T.Dependencies, pair.0), data);
      }
    }
  }

  lemma {:induction false} PatternsHeard(
    w: World, e: Given, v: Voice<Complaint>, holds: Applied -> bool, log: Applied -> seq<Complaint>, ps: seq<Place>,
    p: Place, data: Data, name: string, value: Data, hash: seq<(Key, Data)>, pairs: L.Pairs)
    requires Hears(v, holds, log, ps) && w.matches == e.matches && LeadsUpTo(ps, p, T.PatternProperties, hash, pairs)
    ensures StepsSay(v, MatchedSteps(w, pairs, name, value)) == PatternsSaid(e, log, On(p, data), name, value, hash)
    decreases |hash|
  {
    if hash != [] {
      var init, last := hash[..|hash| - 1], hash[|hash| - 1];
      if last.0.Foreign? {
        PatternsHeard(w, e, v, holds, log, ps, p, data, name, value, init, pairs);
      } else {
        var before, pair := pairs[..|pairs| - 1], pairs[|pairs| - 1];
        PatternsHeard(w, e, v, holds, log, ps, p, data, name, value, init, before);
        var tail := if w.matches(pair.0, name) then [Call((pair.1, value))] else [];
        SayConcat(v, MatchedSteps(w, before, name, value), tail);
        SayOne(v, Call((pair.1, value)));
        Answer(v.log, log, ps, pair.1, MemberOf(p, T.PatternProperties, pair.0), value);
      }
    }
  }

  lemma MemberHeard(
    w: World, e: Given, v: Voice<Complaint>, holds: Applied -> bool, log: Applied -> seq<Complaint>, ps: seq<Place>,
    i: Address, p: Place, c: B.Compiled, data: Data, name: string, value: Data)
    requires Hears(v, holds, log, ps) && IsRead(ps, p, c, w.nodes(i)) && w.matches == e.matches
    ensures StepsSay(v, MemberSteps(w, i, Name(name), value)) == MemberSaid(e, log, On(p, data), name, value)
  {
    var node := w.nodes(i);
    NameHeard(v, holds, log, ps, p, c, node, data, name);
    NamedHeard(v, holds, log, ps, p, c, node, data, name, value);
    MatchedHeard(w, e, v, holds, log, ps, p, c, node, data, name, value);
    AdditionalHeard(w, e, v, holds, log, ps, p, c, node, data, name, value);
    MemberAssembled(w, v, i, name, value);
  }

  lemma {:induction false} MemberAssembled(w: World, v: Voice<Complaint>, i: Address, name: string, value: Data)
    ensures var node := w.nodes(i);
      StepsSay(v, MemberSteps(w, i, Name(name), value)) ==
      StepsSay(v, NameSteps(node, name)) + StepsSay(v, NamedSteps(node, name, value))
      + StepsSay(v, MatchedSteps(w, Patterns(node), name, value)) + StepsSay(v, AdditionalSteps(w, node, name, value))
  {
    var node := w.nodes(i);
    SayOne(v, Step.Place(NameSlot(name)));
    SayFive(v, [Step.Place(NameSlot(name))], NameSteps(node, name), NamedSteps(node, name, value),
            MatchedSteps(w, Patterns(node), name, value), AdditionalSteps(w, node, name, value));
  }

  lemma NameHeard(
    v: Voice<Complaint>, holds: Applied -> bool, log: Applied -> seq<Complaint>, ps: seq<Place>, p: Place,
    c: B.Compiled, node: Node, data: Data, name: string)
    requires Hears(v, holds, log, ps) && IsRead(ps, p, c, node)
    ensures StepsSay(v, NameSteps(node, name)) ==
            if HasOne(p.source, "propertyNames") then log(SubOne(On(p, data), "propertyNames", Text(name))) else []
  {
    OneAnswers(v.log, log, ps, p, c, T.PropertyNames, Text(name));
    if node.propertyNames.Some? { SayOne(v, Call((node.propertyNames.value, Text(name)))); }
  }

  lemma NamedHeard(
    v: Voice<Complaint>, holds: Applied -> bool, log: Applied -> seq<Complaint>, ps: seq<Place>, p: Place,
    c: B.Compiled, node: Node, data: Data, name: string, value: Data)
    requires Hears(v, holds, log, ps) && IsRead(ps, p, c, node)
    ensures StepsSay(v, NamedSteps(node, name, value)) ==
            if HasMember(p.source, "properties", name) then log(SubMember(On(p, data), "properties", name, value))
            else []
  {
    NamedSame(v.log, log, ps, p, c, node, name, value);
    if Named(node, name) { SayOne(v, Call((node.properties.value[name], value))); }
  }

  lemma MatchedHeard(
    w: World, e: Given, v: Voice<Complaint>, holds: Applied -> bool, log: Applied -> seq<Complaint>, ps: seq<Place>,
    p: Place, c: B.Compiled, node: Node, data: Data, name: string, value: Data)
    requires Hears(v, holds, log, ps) && IsRead(ps, p, c, node) && w.matches == e.matches
    ensures var patterns := HashUnder(p.source, "patternProperties");
      StepsSay(v, MatchedSteps(w, Patterns(node), name, value)) ==
      if patterns.Some? then PatternsSaid(e, log, On(p, data), name, value, patterns.value) else []
  {
    assert LeadsNamed(ps, c.links, p, T.PatternProperties);
    var patterns := HashUnder(p.source, "patternProperties");
    if patterns.Some? { PatternsHeard(w, e, v, holds, log, ps, p, data, name, value, patterns.value, Patterns(node)); }
  }

  lemma AdditionalHeard(
    w: World, e: Given, v: Voice<Complaint>, holds: Applied -> bool, log: Applied -> seq<Complaint>, ps: seq<Place>,
    p: Place, c: B.Compiled, node: Node, data: Data, name: string, value: Data)
    requires Hears(v, holds, log, ps) && IsRead(ps, p, c, node) && w.matches == e.matches
    ensures StepsSay(v, AdditionalSteps(w, node, name, value)) ==
            if HasOne(p.source, "additionalProperties") && IsAdditional(e, p.source, name)
            then log(SubOne(On(p, data), "additionalProperties", value)) else []
  {
    OneAnswers(v.log, log, ps, p, c, T.AdditionalProperties, value);
    NamedSame(v.log, log, ps, p, c, node, name, value);
    CoversSame(w, e, ps, p, c, node, name);
    assert Matched(w, Patterns(node), name) <==> exists x | x in Patterns(node) :: w.matches(x.0, name);
    if node.additionalProperties.Some? { SayOne(v, Call((node.additionalProperties.value, value))); }
  }

  lemma {:induction false} MembersHeard(
    w: World, e: Given, v: Voice<Complaint>, holds: Applied -> bool, log: Applied -> seq<Complaint>, ps: seq<Place>,
    i: Address, p: Place, c: B.Compiled, data: Data, members: seq<(Key, Data)>)
    requires Hears(v, holds, log, ps) && IsRead(ps, p, c, w.nodes(i)) && w.matches == e.matches
    ensures StepsSay(v, PropertySteps(w, i, members)) == MembersSaid(e, log, On(p, data), members)
    decreases |members|
  {
    if members != [] {
      var init, last := members[..|members| - 1], members[|members| - 1];
      MembersHeard(w, e, v, holds, log, ps, i, p, c, data, init);
      SayConcat(v, PropertySteps(w, i, init), MemberSteps(w, i, last.0, last.1));
      if last.0.Name? { MemberHeard(w, e, v, holds, log, ps, i, p, c, data, last.0.name, last.1); }
    }
  }

  lemma RequiredPart(
    e: Given, v: Voice<Complaint>, ps: seq<Place>, i: Address, p: Place, node: Node, data: Data)
    requires (forall problem :: Tells(v, ps, problem)) && IsAt(ps, i, p) && data.Object? && HasValues(e, p.source, node)
    ensures var names := ListUnder(p.source, "required");
      StepsSay(v, if node.required.Some? then RequiredSteps(i, data, node.required.value) else []) ==
      if names.Some? then RequiredSaid(e, On(p, data), data.members, names.value) else []
  {
    var names := ListUnder(p.source, "required");
    if names.Some? { RequiredHeard(e, v, ps, i, p, data, names.value, node.required.value); }
  }

  lemma DependenciesPart(
    v: Voice<Complaint>, holds: Applied -> bool, log: Applied -> seq<Complaint>, ps: seq<Place>, p: Place,
    c: B.Compiled, node: Node, data: Data)
    requires Hears(v, holds, log, ps) && IsRead(ps, p, c, node) && data.Object?
    ensures var hash := HashUnder(p.source, "dependencies");
      StepsSay(v, if node.dependencies.Some? then DependencySteps(data, node.dependencies.value) else []) ==
      if hash.Some? then DependenciesSaid(log, On(p, data), data.members, hash.value) else []
  {
    assert LeadsNamed(ps, c.links, p, T.Dependencies);
    var hash := HashUnder(p.source, "dependencies");
    if hash.Some? {
      DependenciesHeard(v, holds, log, ps, p, data, hash.value, c.links.hashes[T.Dependencies]);
    }
  }

  lemma ObjectHeard(
    w: World, e: Given, v: Voice<Complaint>, holds: Applied -> bool, log: Applied -> seq<Complaint>, ps: seq<Place>,
    i: Address, p: Place, c: B.Compiled, data: Data)
    requires Hears(v, holds, log, ps) && IsRead(ps, p, c, w.nodes(i)) && IsAt(ps, i, p) && HasChecks(w, e, i, p.source)
    requires HasValues(e, p.source, w.nodes(i)) && data.Object?
    ensures StepsSay(v, ObjectSteps(w, i, data)) == ObjectSaid(e, log, On(p, data), data.members)
  {
    var node := w.nodes(i);
    var required := if node.required.Some? then RequiredSteps(i, data, node.required.value) else [];
    var dependencies := if node.dependencies.Some? then DependencySteps(data, node.dependencies.value) else [];
    LimitsHeard(e, v, ps, i, p, node, data);
    RequiredPart(e, v, ps, i, p, node, data);
    DependenciesPart(v, holds, log, ps, p, c, node, data);
    MembersHeard(w, e, v, holds, log, ps, i, p, c, data, data.members);
    SayNested(v, PropertySteps(w, i, data.members));
    SayFive(v, When(IsOver(node, data), i, data, "maxProperties"), When(IsShort(node, data), i, data, "minProperties"),
            required, dependencies, Nested(PropertySteps(w, i, data.members)));
  }

  predicate IsOver(node: Node, data: Data)
    requires data.Object?
  {
    node.maxProperties.Some? && |data.members| > AsULong(node.maxProperties.value)
  }

  predicate IsShort(node: Node, data: Data)
    requires data.Object?
  {
    node.minProperties.Some? && |data.members| < AsULong(node.minProperties.value)
  }

  lemma LimitsHeard(e: Given, v: Voice<Complaint>, ps: seq<Place>, i: Address, p: Place, node: Node, data: Data)
    requires (forall problem :: Tells(v, ps, problem)) && IsAt(ps, i, p) && data.Object? && HasValues(e, p.source, node)
    ensures var n, x := |data.members|, On(p, data);
      && StepsSay(v, When(IsOver(node, data), i, data, "maxProperties")) ==
         If(HasTooMany(n, NumberUnder(e, p.source, "maxProperties")), x, "maxProperties")
      && StepsSay(v, When(IsShort(node, data), i, data, "minProperties")) ==
         If(HasTooFew(n, NumberUnder(e, p.source, "minProperties")), x, "minProperties")
  {
    LimitSame(e, p.source, "maxProperties");
    LimitSame(e, p.source, "minProperties");
    WhenSaid(v, ps, i, p, IsOver(node, data), data, "maxProperties");
    WhenSaid(v, ps, i, p, IsShort(node, data), data, "minProperties");
  }

  // ---------------------------------------------------------------------------------------
  // Types
  // ---------------------------------------------------------------------------------------

  /** The steps for a datum of the kind. */
  function KindSteps(w: World, i: Address, data: Data, onLongs: bool): seq<Step> {
    match data
    case Integer(_) | Float(_, _) => if onLongs then IntegerSteps(w, i, data) else NumberSteps(w, i, data)
    case Text(_) => StringSteps(w, i, data)
    case Array(_) => ArraySteps(w, i, data)
    case Object(_) => ObjectSteps(w, i, data)
    case _ => []
  }

  lemma KindHeard(
    w: World, e: Given, v: Voice<Complaint>, holds: Applied -> bool, log: Applied -> seq<Complaint>, ps: seq<Place>,
    i: Address, p: Place, c: B.Compiled, data: Data)
    requires Hears(v, holds, log, ps) && IsRead(ps, p, c, w.nodes(i)) && IsAt(ps, i, p) && HasChecks(w, e, i, p.source)
    requires HasValues(e, p.source, w.nodes(i))
    ensures StepsSay(v, KindSteps(w, i, data, ComparesLongs(p.source, data))) ==
            KindSaid(e, holds, log, On(p, data))
  {
    match data
    case Integer(_) | Float(_, _) => NumericHeard(w, e, v, ps, i, p, data, ComparesLongs(p.source, data));
    case Text(_) => TextHeard(w, e, v, ps, i, p, data);
    case Array(_) => ArrayHeard(w, e, v, holds, log, ps, i, p, c, data);
    case Object(_) => ObjectHeard(w, e, v, holds, log, ps, i, p, c, data);
    case _ =>
  }

  /** The steps of the kind, or a report of the type. */
  ghost function TypedOr(i: Address, s: Data, data: Data, kind: seq<Step>): seq<Step> {
    match Field(s, "type")
    case Some(Array(names)) => if IsOfTypes(s, data) then kind else When(true, i, data, "type")
    case Some(Text(name)) =>
      if name !in TYPES then [] else if IsOfType(data, name) then kind else When(true, i, data, TypeCode(name))
    case _ => kind
  }

  ghost function TypedSteps(w: World, i: Address, s: Data, data: Data): seq<Step> {
    TypedOr(i, s, data, KindSteps(w, i, data, ComparesLongs(s, data)))
  }

  lemma TypeStepsAre(w: World, i: Address, s: Data, data: Data)
    requires HasTypes(s, w.nodes(i))
    ensures TypeSteps(w, i, data) == TypedSteps(w, i, s, data)
  {
    assert Field(s, "type") == B.TypeValue(s);
    match Field(s, "type")
    case Some(Array(names)) => ListedSteps(w, i, s, names, data);
    case Some(Text(name)) => NamedType(w, i, s, name, data);
    case _ =>
  }

  function CheckOf(flag: TypeFlag): TypeCheck {
    match flag
    case NullBit => IsNull
    case BoolBit => IsBool
    case StringBit => IsString
    case IntegerBit => IsInteger
    case NumberBit => IsNumber
    case ArrayBit => IsArray
    case ObjectBit => IsObject
  }

  function CodeOf(flag: TypeFlag): string {
    match flag
    case NullBit => "type_null"
    case BoolBit => "type_bool"
    case StringBit => "type_string"
    case IntegerBit => "type_integer"
    case NumberBit => "type_number"
    case ArrayBit => "type_array"
    case ObjectBit => "type_object"
  }

  lemma CodeSame(name: string, flag: TypeFlag)
    requires B.TypeFlagOf(name) == Some(flag)
    ensures CodeOf(flag) == TypeCode(name) && (flag == NumberBit <==> name == "number")
  {
  }

  lemma CheckedSteps(w: World, i: Address, flag: TypeFlag, data: Data)
    requires w.nodes(i).typeCheck == CheckOf(flag)
    ensures TypeSteps(w, i, data) ==
            if HasFlag(data, flag) then KindSteps(w, i, data, flag != NumberBit) else When(true, i, data, CodeOf(flag))
  {
  }

  lemma NamedType(w: World, i: Address, s: Data, name: string, data: Data)
    requires HasTypes(s, w.nodes(i)) && Field(s, "type") == Some(Text(name)) == B.TypeValue(s)
    ensures TypeSteps(w, i, data) == TypedSteps(w, i, s, data)
  {
    var flag := B.TypeFlagOf(name);
    FlagSame(name, NullBit, data);
    if flag.Some? {
      FlagSame(name, flag.value, data);
      CodeSame(name, flag.value);
      CheckedSteps(w, i, flag.value, data);
    }
  }

  lemma ListedSteps(w: World, i: Address, s: Data, names: seq<Data>, data: Data)
    requires HasTypes(s, w.nodes(i)) && Field(s, "type") == Some(Array(names)) == B.TypeValue(s)
    ensures TypeSteps(w, i, data) == TypedSteps(w, i, s, data)
  {
    ListSame(names, w.nodes(i), data);
  }

  lemma TypeHeard(
    w: World, e: Given, v: Voice<Complaint>, holds: Applied -> bool, log: Applied -> seq<Complaint>, ps: seq<Place>,
    i: Address, p: Place, c: B.Compiled, data: Data)
    requires Hears(v, holds, log, ps) && IsRead(ps, p, c, w.nodes(i)) && IsAt(ps, i, p) && HasChecks(w, e, i, p.source)
    requires HasValues(e, p.source, w.nodes(i)) && HasTypes(p.source, w.nodes(i))
    ensures StepsSay(v, TypeSteps(w, i, data)) == TypeSaid(e, holds, log, On(p, data))
  {
    TypeStepsAre(w, i, p.source, data);
    KindHeard(w, e, v, holds, log, ps, i, p, c, data);
    TypedHeard(w, v, ps, i, p, data, KindSteps(w, i, data, ComparesLongs(p.source, data)));
  }

  lemma TypedHeard(
    w: World, v: Voice<Complaint>, ps: seq<Place>, i: Address, p: Place, data: Data, kind: seq<Step>)
    requires (forall problem :: Tells(v, ps, problem)) && IsAt(ps, i, p)
    ensures StepsSay(v, TypedOr(i, p.source, data, kind)) == TypeOr(On(p, data), StepsSay(v, kind))
  {
    match Field(p.source, "type")
    case Some(Array(names)) => WhenSaid(v, ps, i, p, true, data, "type");
    case Some(Text(name)) => WhenSaid(v, ps, i, p, true, data, TypeCode(name));
    case _ =>
  }

  // ---------------------------------------------------------------------------------------
  // Combinations
  // ---------------------------------------------------------------------------------------

  lemma CombinedHeard(
    v: Voice<Complaint>, holds: Applied -> bool, log: Applied -> seq<Complaint>, ps: seq<Place>, i: Address, p: Place,
    c: B.Compiled, node: Node, data: Data)
    requires Hears(v, holds, log, ps) && IsRead(ps, p, c, node) && IsAt(ps, i, p)
    ensures StepsSay(v, AllOfSteps(node, i, data)) == AllOfSaid(holds, On(p, data))
    ensures StepsSay(v, AnyOfSteps(node, i, data)) == AnyOfSaid(holds, On(p, data))
    ensures StepsSay(v, OneOfSteps(node, i, data)) == OneOfSaid(holds, On(p, data))
  {
    AllOfSame(v.met, holds, ps, p, c, node, data);
    AnyOfSame(v.met, holds, ps, p, c, node, data);
    OneOfSame(v.met, holds, ps, p, c, node, data);
    D.CombinatorsMean(v.met, node, i, data);
    ProbeHeard(v, ps, i, p, AllOfSteps(node, i, data), data, "allOf");
    ProbeHeard(v, ps, i, p, AnyOfSteps(node, i, data), data, "anyOf");
    ProbeHeard(v, ps, i, p, OneOfSteps(node, i, data), data, "oneOf");
  }

  /** Nothing, or a probe that reports one problem or none. */
  ghost predicate IsProbe(v: Voice<Complaint>, steps: seq<Step>, problem: Problem) {
    steps == [] || (
      |steps| == 1 && steps[0].Probe? &&
      var follow := Next(steps[0].combiner, Least(steps[0].limit, Tally(v.met, steps[0].goals)));
      follow.Reports? && (follow.problems == [] || follow.problems == [problem]))
  }

  lemma ProbeHeard(
    v: Voice<Complaint>, ps: seq<Place>, i: Address, p: Place, steps: seq<Step>, data: Data, code: string)
    requires (forall problem :: Tells(v, ps, problem)) && IsAt(ps, i, p)
    requires IsProbe(v, steps, Problem(i, data, code))
    ensures StepsSay(v, steps) == If(!M.AllHold(v.met, steps), On(p, data), code)
  {
    if steps != [] {
      assert steps == [steps[0]];
      SayOne(v, steps[0]);
      D.One(v.met, steps[0]);
      ToldNoneOrOne(v, ps, i, p, true, data, code);
    }
  }

  lemma NotSays(v: Voice<Complaint>, node: Node, data: Data)
    requires node.notSchema.Some?
    ensures var b := node.notSchema.value;
      StepsSay(v, NotSteps(node, data)) == if v.met((b, data)) then [v.say(Problem(b, data, "not"))] else []
  {
    var b := node.notSchema.value;
    var problem, step := Problem(b, data, "not"), NotSteps(node, data)[0];
    TallyOne(v.met, (b, data));
    SayOne(v, step);
    assert [problem][1..] == [] && Told(v.say, [problem]) == [v.say(problem)];
    assert Next(step.combiner, Least(step.limit, Tally(v.met, step.goals))) ==
           Reports(if v.met((b, data)) then [problem] else []);
  }

  lemma NotHeard(
    v: Voice<Complaint>, holds: Applied -> bool, log: Applied -> seq<Complaint>, ps: seq<Place>, p: Place,
    c: B.Compiled, node: Node, data: Data)
    requires Hears(v, holds, log, ps) && IsRead(ps, p, c, node)
    ensures StepsSay(v, NotSteps(node, data)) == NotSaid(holds, On(p, data))
  {
    OneAnswers(v.met, holds, ps, p, c, T.Not, data);
    if node.notSchema.Some? {
      NotSays(v, node, data);
      OneIsAt(ps, p, c, T.Not);
      assert On(ps[node.notSchema.value], data) == SubOne(On(p, data), "not", data);
      assert Tells(v, ps, Problem(node.notSchema.value, data, "not"));
    }
  }

  /** The branch that a condition selects. */
  lemma BranchHeard(
    v: Voice<Complaint>, holds: Applied -> bool, log: Applied -> seq<Complaint>, ps: seq<Place>, p: Place,
    c: B.Compiled, kw: T.Single, data: Data, code: string)
    requires Hears(v, holds, log, ps) && LinksLead(ps, c.links, p) && kw in c.links.ones
    ensures var b := c.links.ones[kw];
      (if v.met((b, data)) then [] else [v.say(Problem(b, data, code))]) ==
      BranchSaid(holds, On(p, data), T.OneKeyword(kw), code)
  {
    var b := c.links.ones[kw];
    OneAnswers(v.met, holds, ps, p, c, kw, data);
    OneIsAt(ps, p, c, kw);
    assert Tells(v, ps, Problem(b, data, code));
  }

  /** What follows a condition. */
  lemma ConditionSays(v: Voice<Complaint>, node: Node, data: Data)
    requires node.ifSchema.Some?
    ensures StepsSay(v, IfSteps(node, data)) ==
      if v.met((node.ifSchema.value, data)) then
        if node.thenSchema.None? || v.met((node.thenSchema.value, data)) then []
        else [v.say(Problem(node.thenSchema.value, data, "if/then"))]
      else if node.elseSchema.None? || v.met((node.elseSchema.value, data)) then []
      else [v.say(Problem(node.elseSchema.value, data, "if/else"))]
  {
    TallyOne(v.met, (node.ifSchema.value, data));
    if IfSteps(node, data) != [] { SayOne(v, IfSteps(node, data)[0]); }
  }

  lemma IfHeard(
    v: Voice<Complaint>, holds: Applied -> bool, log: Applied -> seq<Complaint>, ps: seq<Place>, p: Place,
    c: B.Compiled, node: Node, data: Data)
    requires Hears(v, holds, log, ps) && IsRead(ps, p, c, node)
    ensures StepsSay(v, IfSteps(node, data)) == IfSaid(holds, On(p, data))
  {
    OneAnswers(v.met, holds, ps, p, c, T.If, data);
    assert LeadsOne(ps, c.links, p, T.Then) && LeadsOne(ps, c.links, p, T.Else);
    if node.ifSchema.Some? {
      ConditionSays(v, node, data);
      if node.thenSchema.Some? { BranchHeard(v, holds, log, ps, p, c, T.Then, data, "if/then"); }
      if node.elseSchema.Some? { BranchHeard(v, holds, log, ps, p, c, T.Else, data, "if/else"); }
    }
  }

  // ---------------------------------------------------------------------------------------
  // Whole schemas
  // ---------------------------------------------------------------------------------------

  lemma SayEight(
    v: Voice<Complaint>, a: seq<Step>, b: seq<Step>, c: seq<Step>, d: seq<Step>, e: seq<Step>, f: seq<Step>,
    g: seq<Step>, h: seq<Step>)
    ensures StepsSay(v, a + b + c + d + e + f + g + h) ==
            StepsSay(v, a) + StepsSay(v, b) + StepsSay(v, c) + StepsSay(v, d) + StepsSay(v, e) + StepsSay(v, f)
            + StepsSay(v, g) + StepsSay(v, h)
  {
    SayFive(v, a, b, c, d, e);
    SayConcat(v, a + b + c + d + e, f);
    SayConcat(v, a + b + c + d + e + f, g);
    SayConcat(v, a + b + c + d + e + f + g, h);
  }

  lemma KeywordsHeard(
    w: World, e: Given, v: Voice<Complaint>, holds: Applied -> bool, log: Applied -> seq<Complaint>, ps: seq<Place>,
    i: Address, p: Place, c: B.Compiled, data: Data)
    requires Hears(v, holds, log, ps) && IsRead(ps, p, c, w.nodes(i)) && IsAt(ps, i, p) && HasChecks(w, e, i, p.source)
    requires HasValues(e, p.source, w.nodes(i)) && HasTypes(p.source, w.nodes(i))
    ensures StepsSay(v, KeywordSteps(w, i, data)) == KeywordsSaid(e, holds, log, On(p, data))
  {
    var node := w.nodes(i);
    TypeHeard(w, e, v, holds, log, ps, i, p, c, data);
    LeafSaid(w, e, v, ps, i, p, Const, data, "const");
    LeafSaid(w, e, v, ps, i, p, Enum, data, "enum");
    IfHeard(v, holds, log, ps, p, c, node, data);
    NotHeard(v, holds, log, ps, p, c, node, data);
    CombinedHeard(v, holds, log, ps, i, p, c, node, data);
    SayEight(v, TypeSteps(w, i, data), Leaf(w, i, Const, data, "const"), Leaf(w, i, Enum, data, "enum"),
             IfSteps(node, data), NotSteps(node, data), AllOfSteps(node, i, data), AnyOfSteps(node, i, data),
             OneOfSteps(node, i, data));
  }

  lemma ReferenceHeard(
    e: Given, v: Voice<Complaint>, log: Applied -> seq<Complaint>, ps: seq<Place>, p: Place, b: Address, data: Data)
    requires SameAnswers(v.log, log, ps) && StandsAt(ps, b, Referred(e, Of(p)))
    ensures StepsSay(v, [Call((b, data))]) == log(Referred(e, On(p, data)))
  {
    Answer(v.log, log, ps, b, Referred(e, Of(p)), data);
    SayOne(v, Call((b, data)));
  }

  lemma BodyHeard(
    lib: B.Library, schema: Data, nodes: seq<B.Compiled>, w: World, e: Given, v: Voice<Complaint>,
    holds: Applied -> bool, log: Applied -> seq<Complaint>, i: Address, data: Data)
    requires A.IsRuby(schema) && IsGraph(lib, schema, nodes) && Loads(w, e, nodes, PlacesOf(lib, schema))
    requires RefersAsBound(lib, schema, e) && Hears(v, holds, log, PlacesOf(lib, schema))
    requires i < |PlacesOf(lib, schema)|
    ensures StepsSay(v, Body(w, (i, data))) == Said(e, holds, log, On(PlacesOf(lib, schema)[i], data))
  {
    var ps := PlacesOf(lib, schema);
    var p := ps[i];
    LoadedNode(lib, schema, nodes, w, e, i);
    assert RefOf(p.source) == B.TextOf(p.source, "$ref");
    match w.nodes(i).validation
    case NoOp =>
    case AlwaysFalse => WhenSaid(v, ps, i, p, true, data, "false_schema");
    case ByRef =>
      LoadedReference(lib, schema, nodes, w, e, i);
      ReferenceHeard(e, v, log, ps, p, w.nodes(i).refSchema, data);
    case ByKeywords =>
      NodeLeads(lib, schema, i, nodes[i]);
      KeywordsHeard(w, e, v, holds, log, ps, i, p, nodes[i], data);
  }

  /** What is told at some depth of nesting. */
  ghost function VoiceOf(w: World, ps: seq<Place>, fuel: nat): Voice<Complaint> {
    VoiceAt(ProgramOf(w), D.MeaningOf(w), problem => Located(ps, problem), fuel)
  }

  lemma {:induction false} LogsSame(
    lib: B.Library, schema: Data, nodes: seq<B.Compiled>, w: World, e: Given, fuel: nat)
    requires A.IsRuby(schema) && IsGraph(lib, schema, nodes) && Loads(w, e, nodes, PlacesOf(lib, schema))
    requires RefersAsBound(lib, schema, e)
    ensures Hears(VoiceOf(w, PlacesOf(lib, schema), fuel), Holds(e, fuel), Log(e, fuel), PlacesOf(lib, schema))
    decreases fuel
  {
    var ps := PlacesOf(lib, schema);
    var v := VoiceOf(w, ps, fuel);
    MeetsSame(lib, schema, nodes, w, e, fuel);
    assert v.met == D.Meets(w, fuel);
    if fuel > 0 { LogsSame(lib, schema, nodes, w, e, fuel - 1); }
    forall b: Address, data ensures SameAnswer(v.log, Log(e, fuel), ps, b, data) {
      if fuel > 0 && b < |ps| {
        BodyHeard(lib, schema, nodes, w, e, VoiceOf(w, ps, fuel - 1), Holds(e, fuel - 1), Log(e, fuel - 1), b, data);
      }
    }
    forall problem ensures Tells(v, ps, problem) {}
  }

  /** What a completed run tells. */
  lemma RunTells(w: World, ps: seq<Place>, fuel: nat, root: Address, data: Data)
    requires Validate(w, fuel, root, data).outcome.Finished?
    ensures ToldEvents(problem => Located(ps, problem), Validate(w, fuel, root, data).state.events) ==
            StepsSay(VoiceOf(w, ps, fuel), Body(w, (root, data)))
  {
    var say := (problem: Problem) => Located(ps, problem);
    D.KeywordsExplained(w);
    ExecSays(ProgramOf(w), D.MeaningOf(w), say, fuel, Body(w, (root, data)), Fresh());
    assert ToldEvents(say, Fresh().events) == [];
  }

  lemma BodyReported(
    lib: B.Library, schema: Data, nodes: seq<B.Compiled>, w: World, e: Given, fuel: nat, data: Data)
    requires A.IsRuby(schema) && IsGraph(lib, schema, nodes) && Loads(w, e, nodes, PlacesOf(lib, schema))
    requires RefersAsBound(lib, schema, e)
    ensures StepsSay(VoiceOf(w, PlacesOf(lib, schema), fuel), Body(w, (0, data))) ==
            Reported(e, fuel, Applied([], schema, data))
  {
    LogsSame(lib, schema, nodes, w, e, fuel);
    BodyHeard(lib, schema, nodes, w, e, VoiceOf(w, PlacesOf(lib, schema), fuel), Holds(e, fuel), Log(e, fuel), 0, data);
  }

  /** The errors that the block is called with, as complaints about locations. */
  function Heard(ps: seq<Place>, events: seq<Event>): seq<Complaint> {
    ToldEvents(problem => Located(ps, problem), events)
  }

  /**
   The errors of a completed `validate` are, one by one and in order, the complaints that the JSON of the
   schema calls for.
   */
  lemma ValidateReports(
    lib: B.Library, schema: Data, nodes: seq<B.Compiled>, w: World, e: Given, fuel: nat, data: Data)
    requires A.IsRuby(schema) && IsGraph(lib, schema, nodes) && Loads(w, e, nodes, PlacesOf(lib, schema))
    requires RefersAsNamed(lib, schema, e) && Validate(w, fuel, 0, data).outcome.Finished?
    ensures Heard(PlacesOf(lib, schema), Validate(w, fuel, 0, data).state.events) ==
            Reported(e, fuel, Applied([], schema, data))
  {
    NamedIsBound(lib, schema, e);
    BodyReported(lib, schema, nodes, w, e, fuel, data);
    RunTells(w, PlacesOf(lib, schema), fuel, 0, data);
  }
}
