/**
  The canonical form of nested values. An object is the list of its entries in the order in
  which the language enumerates them.
*/
module StableValue {
  import opened Decimal

  datatype Json = Leaf(text: string) | Arr(items: seq<Json>) | Obj(entries: seq<Entry>)
  datatype Entry = Entry(key: string, value: Json)

  // The comparison of two keys, localeCompare(left, right) < 0.
  type Order = (string, string) -> bool

  // ------------------------------------------------------------------ sorting entries

  // Puts an entry before the first one that is not smaller.
  function Insert(e: Entry, sorted: seq<Entry>, less: Order): (r: seq<Entry>)
    ensures multiset(r) == multiset{e} + multiset(sorted)
  {
    if sorted == [] || !less(sorted[0].key, e.key) then [e] + sorted
    else
      assert sorted == [sorted[0]] + sorted[1..];
      [sorted[0]] + Insert(e, sorted[1..], less)
  }

  // The stable sort of the entries by key.
  function Sort(entries: seq<Entry>, less: Order): (r: seq<Entry>)
    ensures multiset(r) == multiset(entries)
  {
    if entries == [] then []
    else
      assert entries == [entries[0]] + entries[1..];
      Insert(entries[0], Sort(entries[1..], less), less)
  }

  // ------------------------------------------------------------------ making an object

  // An array index: a canonical numeral below 2^32 - 1.
  predicate IsIndex(key: string) {
    Value(key).Some? && Value(key).value < 0xFFFF_FFFF && Numeral(Value(key).value) == key
  }

  function IndexLess(): Order {
    (a: string, b: string) => IsIndex(a) && IsIndex(b) && Value(a).value < Value(b).value
  }

  function Indices(entries: seq<Entry>): seq<Entry> {
    if entries == [] then []
    else (if IsIndex(entries[0].key) then [entries[0]] else []) + Indices(entries[1..])
  }

  function Names(entries: seq<Entry>): seq<Entry> {
    if entries == [] then []
    else (if IsIndex(entries[0].key) then [] else [entries[0]]) + Names(entries[1..])
  }

  // Object.fromEntries: the new object enumerates its array indices by value and then its
  // other keys as they were added.
  function FromEntries(entries: seq<Entry>): seq<Entry> {
    Sort(Indices(entries), IndexLess()) + Names(entries)
  }

  // ------------------------------------------------------------------ the canonical form

  function Stable(v: Json, less: Order): Json
    decreases v, 1
  {
    match v
    case Leaf(_) => v
    case Arr(items) => Arr(seq(|items|, i requires 0 <= i < |items| => Stable(items[i], less)))
    case Obj(entries) =>
      var sorted := Sort(entries, less);
      InObject(entries, sorted);
      Obj(FromEntries(StableAll(sorted, less, v)))
  }

  lemma InObject(entries: seq<Entry>, sorted: seq<Entry>)
    requires multiset(sorted) == multiset(entries)
    ensures forall i :: 0 <= i < |sorted| ==> sorted[i] in entries && sorted[i].value < Obj(entries)
  {
    forall i | 0 <= i < |sorted|
      ensures sorted[i] in entries && sorted[i].value < Obj(entries)
    {
      assert sorted[i] in multiset(entries);
      var j :| 0 <= j < |entries| && entries[j] == sorted[i];
      assert entries[j].value < Obj(entries);
    }
  }

  function StableAll(entries: seq<Entry>, less: Order, ghost parent: Json): (r: seq<Entry>)
    requires forall i :: 0 <= i < |entries| ==> entries[i].value < parent
    ensures |r| == |entries|
    decreases parent, 0
  {
    seq(|entries|, i requires 0 <= i < |entries| => Entry(entries[i].key, Stable(entries[i].value, less)))
  }

  // ------------------------------------------------------------------ what a value means

  // A value without the order of object keys.
  datatype Tree = LeafTree(text: string) | ArrTree(items: seq<Tree>) | ObjTree(members: map<string, Tree>)

  predicate Distinct(entries: seq<Entry>) {
    forall i, j :: 0 <= i < j < |entries| ==> entries[i].key != entries[j].key
  }

  // No object has a key twice.
  predicate Valid(v: Json)
    decreases v
  {
    match v
    case Leaf(_) => true
    case Arr(items) => forall i :: 0 <= i < |items| ==> Valid(items[i])
    case Obj(entries) => Distinct(entries) && forall i :: 0 <= i < |entries| ==> Valid(entries[i].value)
  }

  function Keys(entries: seq<Entry>): set<string> {
    set i | 0 <= i < |entries| :: entries[i].key
  }

  // Where the entries have a key.
  function IndexOf(entries: seq<Entry>, key: string): (i: nat)
    requires key in Keys(entries)
    ensures i < |entries| && entries[i].key == key
  {
    if entries[0].key == key then 0
    else
      assert key in Keys(entries[1..]) by {
        var j :| 0 <= j < |entries| && entries[j].key == key;
        assert entries[1..][j - 1].key == key;
      }
      1 + IndexOf(entries[1..], key)
  }

  function Meaning(v: Json): Tree
    requires Valid(v)
    decreases v
  {
    match v
    case Leaf(text) => LeafTree(text)
    case Arr(items) => ArrTree(seq(|items|, i requires 0 <= i < |items| => Meaning(items[i])))
    case Obj(entries) =>
      ObjTree(map key | key in Keys(entries) :: var i := IndexOf(entries, key); Meaning(entries[i].value))
  }

  // ------------------------------------------------------------------ rearranged entries

  predicate HasKey(entries: seq<Entry>, key: string) {
    exists i :: 0 <= i < |entries| && entries[i].key == key
  }

  lemma Member(a: seq<Entry>, b: seq<Entry>, i: nat) returns (j: nat)
    requires multiset(a) == multiset(b) && i < |a|
    ensures j < |b| && b[j] == a[i]
  {
    assert a[i] in multiset(b);
    j :| 0 <= j < |b| && b[j] == a[i];
  }

  lemma TwiceCounted(entries: seq<Entry>, i: nat, j: nat)
    requires i < j < |entries| && entries[i] == entries[j]
    ensures multiset(entries)[entries[i]] >= 2
  {
    assert entries == entries[..j] + entries[j..];
    assert entries[..j][i] in multiset(entries[..j]) && entries[j..][0] in multiset(entries[j..]);
  }

  lemma {:induction false} OnceCounted(entries: seq<Entry>, x: Entry)
    requires Distinct(entries)
    ensures multiset(entries)[x] <= 1
  {
    if entries != [] {
      OnceCounted(entries[1..], x);
      assert entries == [entries[0]] + entries[1..];
      if entries[0] == x {
        assert x !in entries[1..];
      }
    }
  }

  lemma RearrangedDistinct(a: seq<Entry>, b: seq<Entry>)
    requires multiset(a) == multiset(b) && Distinct(a)
    ensures Distinct(b)
  {
    forall i, j | 0 <= i < j < |b|
      ensures b[i].key != b[j].key
    {
      var k := Member(b, a, i);
      var l := Member(b, a, j);
      if b[i].key == b[j].key {
        TwiceCounted(b, i, j);
        OnceCounted(a, b[i]);
      }
    }
  }

  lemma {:induction false} SplitEntries(entries: seq<Entry>)
    ensures multiset(Indices(entries)) + multiset(Names(entries)) == multiset(entries)
  {
    hide IsIndex;
    if entries != [] {
      SplitEntries(entries[1..]);
      assert entries == [entries[0]] + entries[1..];
    }
  }

  lemma {:induction false} SplitByKind(entries: seq<Entry>)
    ensures forall i :: 0 <= i < |Indices(entries)| ==> IsIndex(Indices(entries)[i].key)
    ensures forall i :: 0 <= i < |Names(entries)| ==> !IsIndex(Names(entries)[i].key)
  {
    hide IsIndex;
    if entries != [] {
      SplitByKind(entries[1..]);
    }
  }

  lemma FromEntriesRearranges(entries: seq<Entry>)
    ensures multiset(FromEntries(entries)) == multiset(entries)
  {
    SplitEntries(entries);
  }

  // ------------------------------------------------------------------ the canonical form

  lemma SameMembers(a: seq<Entry>, b: seq<Entry>, key: string)
    requires multiset(a) == multiset(b)
    ensures HasKey(a, key) <==> HasKey(b, key)
  {
    if HasKey(a, key) {
      var i :| 0 <= i < |a| && a[i].key == key;
      var j := Member(a, b, i);
    }
    if HasKey(b, key) {
      var i :| 0 <= i < |b| && b[i].key == key;
      var j := Member(b, a, i);
    }
  }

  lemma KeysOfMeaning(v: Json, key: string)
    requires v.Obj? && Valid(v)
    ensures key in Meaning(v).members <==> HasKey(v.entries, key)
  {
  }

  lemma MemberOfMeaning(v: Json, j: nat)
    requires v.Obj? && Valid(v) && j < |v.entries|
    ensures v.entries[j].key in Meaning(v).members
    ensures Meaning(v).members[v.entries[j].key] == Meaning(v.entries[j].value)
  {
    assert Distinct(v.entries);
    hide Valid, Distinct;
    IndexOfMember(v.entries, j);
  }

  lemma IndexOfMember(entries: seq<Entry>, j: nat)
    requires Distinct(entries) && j < |entries|
    ensures entries[j].key in Keys(entries) && IndexOf(entries, entries[j].key) == j
  {
  }

  lemma StableObj(v: Json, less: Order)
    requires v.Obj?
    ensures forall i :: 0 <= i < |Sort(v.entries, less)| ==> Sort(v.entries, less)[i].value < v
    ensures Stable(v, less) == Obj(FromEntries(StableAll(Sort(v.entries, less), less, v)))
  {
    InObject(v.entries, Sort(v.entries, less));
  }

  lemma Holder(entries: seq<Entry>, key: string) returns (i: nat)
    requires HasKey(entries, key)
    ensures i < |entries| && entries[i].key == key
  {
    i :| 0 <= i < |entries| && entries[i].key == key;
  }

  predicate MeansMember(e: Entry, v: Json)
    requires v.Obj? && Valid(v)
  {
    Valid(e.value) && e.key in Meaning(v).members && Meaning(e.value) == Meaning(v).members[e.key]
  }

  // The entries are, key by key, members of the object, rearranged.
  ghost predicate Rearranges(r: seq<Entry>, v: Json)
    requires v.Obj? && Valid(v)
  {
    && Distinct(r)
    && (forall k :: HasKey(r, k) <==> HasKey(v.entries, k))
    && (forall i :: 0 <= i < |r| ==> MeansMember(r[i], v))
  }

  lemma SameMember(v: Json, r: seq<Entry>, key: string)
    requires v.Obj? && Valid(v) && Rearranges(r, v) && Valid(Obj(r))
    ensures var there, back := Meaning(v).members, Meaning(Obj(r)).members;
            (key in there <==> key in back) && (key in back ==> back[key] == there[key])
  {
    hide Valid;
    KeysOfMeaning(v, key);
    KeysOfMeaning(Obj(r), key);
    if HasKey(r, key) {
      var i := Holder(r, key);
      MemberOfMeaning(Obj(r), i);
    }
  }

  // Rearranged members mean the same object.
  lemma RearrangedIsValid(v: Json, r: seq<Entry>)
    requires v.Obj? && Valid(v) && Rearranges(r, v)
    ensures Valid(Obj(r))
  {
    hide Meaning;
    assert forall i :: 0 <= i < |r| ==> MeansMember(r[i], v);
  }

  lemma SameMeaning(v: Json, r: seq<Entry>)
    requires v.Obj? && Valid(v) && Rearranges(r, v)
    ensures Valid(Obj(r)) && Meaning(Obj(r)) == Meaning(v)
  {
    hide *;
    RearrangedIsValid(v, r);
    IsObjTree(v);
    IsObjTree(Obj(r));
    forall k {
      SameMember(v, r, k);
    }
    assert Meaning(v).members == Meaning(Obj(r)).members;
  }

  lemma IsObjTree(v: Json)
    requires v.Obj? && Valid(v)
    ensures Meaning(v).ObjTree?
  {
  }

  lemma MeaningSorted(v: Json, sorted: seq<Entry>, i: nat)
    requires v.Obj? && Valid(v) && multiset(sorted) == multiset(v.entries) && i < |sorted|
    ensures MeansMember(sorted[i], v)
  {
    var j := Member(sorted, v.entries, i);
    MemberOfMeaning(v, j);
  }

  lemma SameKeysThroughout(entries: seq<Entry>, sorted: seq<Entry>, all: seq<Entry>, result: seq<Entry>)
    requires multiset(entries) == multiset(sorted) && multiset(all) == multiset(result) && Distinct(entries)
    requires |sorted| == |all| && forall i :: 0 <= i < |all| ==> all[i].key == sorted[i].key
    ensures Distinct(result) && forall k :: HasKey(result, k) <==> HasKey(entries, k)
  {
    RearrangedDistinct(entries, sorted);
    RearrangedDistinct(all, result);
    forall k
      ensures HasKey(result, k) <==> HasKey(entries, k)
    {
      SameMembers(entries, sorted, k);
      assert HasKey(sorted, k) ==> HasKey(all, k);
      assert HasKey(all, k) ==> HasKey(sorted, k);
      SameMembers(all, result, k);
    }
  }

  lemma RearrangedMeaning(v: Json, sorted: seq<Entry>, all: seq<Entry>)
    requires v.Obj? && Valid(v) && multiset(sorted) == multiset(v.entries) && |all| == |sorted|
    requires forall i :: 0 <= i < |all| ==> all[i].key == sorted[i].key && MeansMember(all[i], v)
    ensures Valid(Obj(FromEntries(all))) && Meaning(Obj(FromEntries(all))) == Meaning(v)
  {
    var result := FromEntries(all);
    FromEntriesRearranges(all);
    SameKeysThroughout(v.entries, sorted, all, result);
    hide FromEntries, Meaning, MeansMember, Valid, Distinct, HasKey;
    forall i | 0 <= i < |result|
      ensures MeansMember(result[i], v)
    {
      var j := Member(result, all, i);
    }
    SameMeaning(v, result);
  }

  /** The canonical form means the same value. */
  lemma {:induction false} StableKeepsMeaning(v: Json, less: Order)
    requires Valid(v)
    ensures Valid(Stable(v, less)) && Meaning(Stable(v, less)) == Meaning(v)
    decreases v
  {
    match v
    case Leaf(_) =>
    case Arr(items) =>
      forall i | 0 <= i < |items|
        ensures Valid(Stable(items[i], less)) && Meaning(Stable(items[i], less)) == Meaning(items[i])
      {
        StableKeepsMeaning(items[i], less);
      }
    case Obj(entries) =>
      var sorted := Sort(entries, less);
      StableObj(v, less);
      var all := StableAll(sorted, less, v);
      hide Sort, FromEntries;
      forall i | 0 <= i < |all|
        ensures MeansMember(all[i], v)
      {
        MeaningSorted(v, sorted, i);
        StableKeepsMeaning(sorted[i].value, less);
      }
      RearrangedMeaning(v, sorted, all);
  }
}
