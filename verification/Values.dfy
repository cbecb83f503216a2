/** Ruby values as the validator sees them, and the option type used throughout. */
module Values {
  datatype Option<+T> = None | Some(value: T)

  /** A key of a Ruby hash: a string, or any other object (which the property walk skips). */
  datatype Key = Name(name: string) | Foreign(tag: int)

  /**
   A document to validate. Of a Float only its identity and whether its fraction is zero matter; `Other`
   stands for a Ruby object of no JSON type.
   */
  datatype Data =
    | Null
    | Bool(b: bool)
    | Integer(n: int)
    | Float(tag: int, integral: bool)
    | Text(s: string)
    | Array(items: seq<Data>)
    | Object(members: seq<(Key, Data)>)
    | Other(tag: int)

  predicate HasKey(members: seq<(Key, Data)>, key: Key) {
    exists i :: 0 <= i < |members| && members[i].0 == key
  }

  function Least(a: nat, b: nat): nat { if a < b then a else b }

  /** Nesting depth of a datum. */
  function Height(data: Data): nat
    decreases data
  {
    match data
    case Array(items) => 1 + ItemsHeight(items)
    case Object(members) => 1 + MembersHeight(members)
    case _ => 0
  }

  function ItemsHeight(items: seq<Data>): nat
    decreases items
  {
    if items == [] then 0
    else
      var h := Height(items[0]);
      var rest := ItemsHeight(items[1..]);
      if h > rest then h else rest
  }

  function MembersHeight(members: seq<(Key, Data)>): nat
    decreases members
  {
    if members == [] then 0
    else
      var h := MemberHeight(members[0]);
      var rest := MembersHeight(members[1..]);
      if h > rest then h else rest
  }

  function MemberHeight(member: (Key, Data)): nat
    decreases member
  {
    Height(member.1)
  }

  lemma {:induction false} ItemLower(items: seq<Data>, i: nat)
    requires i < |items|
    ensures Height(items[i]) <= ItemsHeight(items)
    decreases i
  {
    if i > 0 { ItemLower(items[1..], i - 1); }
  }

  lemma {:induction false} MemberLower(members: seq<(Key, Data)>, i: nat)
    requires i < |members|
    ensures Height(members[i].1) <= MembersHeight(members)
    decreases i
  {
    if i > 0 { MemberLower(members[1..], i - 1); }
  }
}
