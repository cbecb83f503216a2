/**
 The text of a data path. Cut at its slashes, the path of an error leads, as a pointer walk, from the
 document to the datum that the error is about.
 */
module PathText {
  import opened Values
  import opened Machine
  import opened Keywords
  import opened Laws
  import opened Bytes
  import opened Schema
  import opened Entry
  import opened Location
  import C = ContextObject
  import Ipv4

  // ---------------------------------------------------------------------------------------
  // What a path spells
  // ---------------------------------------------------------------------------------------

  /** Some parts, each ended by a slash. */
  function Ended(parts: seq<string>): string {
    if parts == [] then "" else parts[0] + "/" + Ended(parts[1..])
  }

  /** A part is the key of its slot, or reads back as its index. */
  predicate Spells(part: string, slot: Slot) {
    match slot
    case Unset => false
    case NameSlot(name) => part == name
    case IndexSlot(i) => part != [] && (forall k :: 0 <= k < |part| ==> '0' <= part[k] <= '9') && Ipv4.Value(part) == i
  }

  ghost predicate SpellsAll(parts: seq<string>, slots: seq<Slot>) {
    |parts| == |slots| && forall k :: 0 <= k < |parts| ==> Spells(parts[k], slots[k])
  }

  function PartsOf(slots: seq<Slot>): (parts: seq<string>)
    ensures |parts| == |slots| && forall k :: 0 <= k < |slots| ==> parts[k] == C.SlotText(slots[k])
  {
    seq(|slots|, k requires 0 <= k < |slots| => C.SlotText(slots[k]))
  }

  lemma {:induction false} EndedMore(parts: seq<string>, last: string)
    ensures Ended(parts + [last]) == Ended(parts) + last + "/"
    decreases |parts|
  {
    if parts == [] {
      assert ([last])[1..] == [];
    } else {
      assert (parts + [last])[1..] == parts[1..] + [last];
      EndedMore(parts[1..], last);
    }
  }

  lemma {:induction false} RenderIsEnded(slots: seq<Slot>)
    ensures C.Render(slots) == Ended(PartsOf(slots))
    decreases |slots|
  {
    if slots != [] {
      var init, last := slots[..|slots| - 1], slots[|slots| - 1];
      RenderIsEnded(init);
      assert PartsOf(slots) == PartsOf(init) + [C.SlotText(last)];
      EndedMore(PartsOf(init), C.SlotText(last));
    }
  }

  lemma TextSpells(slot: Slot)
    requires !slot.Unset?
    ensures Spells(C.SlotText(slot), slot)
  {
    if slot.IndexSlot? { Ipv4.DecimalValue(slot.index); }
  }

  lemma RenderSpells(slots: seq<Slot>)
    requires Unset !in slots
    ensures SpellsAll(PartsOf(slots), slots) && C.Render(slots) == Ended(PartsOf(slots))
  {
    RenderIsEnded(slots);
    forall k | 0 <= k < |slots| ensures Spells(PartsOf(slots)[k], slots[k]) { TextSpells(slots[k]); }
  }

  /** Whatever leaks, each path that the block receives is its slots spelled, the first of them "#". */
  lemma PathSpells(w: World, fuel: nat, root: Address, data: Data, k: nat)
    requires k < |Validate(w, fuel, root, data).state.events|
    ensures var e := Validate(w, fuel, root, data).state.events[k];
      var parts, slots := PartsOf(RenderedSlots(e.context)), RenderedSlots(e.context);
      C.Rendered(e).path == Ended(parts) && SpellsAll(parts, slots) && parts != [] && parts[0] == "#"
  {
    ErrorPathsLead(w, fuel, root, data, k);
    RenderSpells(RenderedSlots(Validate(w, fuel, root, data).state.events[k].context));
  }

  // ---------------------------------------------------------------------------------------
  // Cutting a path at its slashes
  // ---------------------------------------------------------------------------------------

  predicate IsSlash(c: char) { c == '/' }

  predicate NoSlash(part: string) { forall i :: 0 <= i < |part| ==> part[i] != '/' }

  /** What stands before each slash. */
  function Cut(text: string): seq<string> {
    var i := FirstOf(text, IsSlash);
    if i == |text| then [] else [text[..i]] + Cut(text[i + 1..])
  }

  lemma {:induction false} CutEnded(parts: seq<string>)
    requires forall k :: 0 <= k < |parts| ==> NoSlash(parts[k])
    ensures Cut(Ended(parts)) == parts
    decreases |parts|
  {
    if parts != [] {
      var text, rest := Ended(parts), Ended(parts[1..]);
      assert text == parts[0] + ("/" + rest);
      FirstOfSplit(parts[0], "/" + rest, IsSlash);
      assert text[..|parts[0]|] == parts[0] && text[|parts[0]| + 1..] == rest;
      CutEnded(parts[1..]);
    }
  }

  lemma {:induction false} DigitsNoSlash(part: string)
    requires forall k :: 0 <= k < |part| ==> '0' <= part[k] <= '9'
    ensures NoSlash(part)
  {
  }

  // ---------------------------------------------------------------------------------------
  // Walking along a path
  // ---------------------------------------------------------------------------------------

  /** The walk reaches the datum, or, for a name that a schema was applied to, the value under it. */
  predicate Reaches(from: Data, parts: seq<string>, to: Data) {
    var there := Walk(from, parts);
    there.Some? && (there.value == to || (parts != [] && to == Text(parts[|parts| - 1])))
  }

  lemma {:induction false} WalkLeads(from: Data, slots: seq<Slot>, parts: seq<string>, to: Data)
    requires IsRuby(from) && Laws.Leads(from, slots, to) && parts == PartsOf(slots)
    ensures Reaches(from, parts, to)
    decreases |slots|
  {
    if slots != [] {
      var next :| Edge(from, slots[0], next) && Laws.Leads(next, slots[1..], to);
      assert parts[1..] == PartsOf(slots[1..]);
      match slots[0] {
        case IndexSlot(i) =>
          IndexAt(from.items, i, |from.items|);
          assert IsRuby(next);
          WalkLeads(next, slots[1..], parts[1..], to);
        case NameSlot(name) => WalkName(from, name, next, slots, parts, to);
        case Unset =>
      }
    }
  }

  lemma WalkName(from: Data, name: string, next: Data, slots: seq<Slot>, parts: seq<string>, to: Data)
    requires IsRuby(from) && slots != [] && slots[0] == NameSlot(name) && parts == PartsOf(slots)
    requires Edge(from, slots[0], next) && Laws.Leads(next, slots[1..], to)
    ensures Reaches(from, parts, to)
    decreases |slots|, 0
  {
    var i :| 0 <= i < |from.members| && from.members[i].0 == Name(name)
             && (from.members[i].1 == next || next == Text(name));
    LookupAt(from.members, i, name);
    assert IsMember(from.members[i]);
    assert parts[1..] == PartsOf(slots[1..]);
    if from.members[i].1 == next {
      WalkLeads(next, slots[1..], parts[1..], to);
    } else {
      TextEnds(name, slots[1..], to);
    }
  }

  /** Nothing lies inside a string. */
  lemma TextEnds(name: string, slots: seq<Slot>, to: Data)
    requires Laws.Leads(Text(name), slots, to)
    ensures slots == [] && to == Text(name)
  {
  }

  /** The keys on the way have no slash. */
  predicate PlainSlots(slots: seq<Slot>) { forall s :: s in slots && s.NameSlot? ==> NoSlash(s.name) }

  /**
   Where nothing leaked and no key on the way has a slash, the path that the block receives, cut at its
   slashes, is "#" and then a walk from the document to the datum of the error.
   */
  lemma PathWalks(w: World, fuel: nat, root: Address, data: Data, k: nat)
    requires IsRuby(data) && k < |Validate(w, fuel, root, data).state.events|
    requires var e := Validate(w, fuel, root, data).state.events[k];
      e.leaked == 0 && PlainSlots(RenderedSlots(e.context))
    ensures var e := Validate(w, fuel, root, data).state.events[k];
      var parts := Cut(C.Rendered(e).path);
      parts != [] && parts[0] == "#" && Reaches(data, parts[1..], e.problem.data)
  {
    var e := Validate(w, fuel, root, data).state.events[k];
    var slots := RenderedSlots(e.context);
    var parts := PartsOf(slots);
    PathSpells(w, fuel, root, data, k);
    ErrorPathsLead(w, fuel, root, data, k);
    forall j | 0 <= j < |parts| ensures NoSlash(parts[j]) {
      if slots[j].IndexSlot? { DigitsNoSlash(parts[j]); }
    }
    CutEnded(parts);
    assert slots[1..] == e.context.path[1..e.context.depth + 1];
    assert parts[1..] == PartsOf(slots[1..]);
    WalkLeads(data, slots[1..], parts[1..], e.problem.data);
  }
}
