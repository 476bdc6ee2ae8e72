/**
  When the form of `StableValue` is canonical: exactly when the order on keys tells the names of
  every object apart, array indices aside.
*/
module CanonicalForm {
  import opened Decimal
  import opened StableValue

  ghost predicate StrictOrder(less: Order) {
    && (forall a: string :: !less(a, a))
    && (forall a: string, b: string, c: string :: less(a, b) && less(b, c) ==> less(a, c))
  }

  // What a comparison function must be for sorting to have a meaning: ties are transitive.
  ghost predicate WeakOrder(less: Order) {
    StrictOrder(less) && forall a: string, b: string, c: string :: less(a, b) ==> less(a, c) || less(c, b)
  }

  predicate AllComparable(entries: seq<Entry>, less: Order) {
    forall i, j :: 0 <= i < |entries| && 0 <= j < |entries| && entries[i].key != entries[j].key ==>
      less(entries[i].key, entries[j].key) || less(entries[j].key, entries[i].key)
  }

  predicate IsName(key: string) {
    !IsIndex(key)
  }

  // The order tells two keys apart, or need not.
  predicate Apart(a: string, b: string, less: Order) {
    a != b && IsName(a) && IsName(b) ==> less(a, b) || less(b, a)
  }

  // The order tells any two different names apart.
  predicate Comparable(entries: seq<Entry>, less: Order) {
    forall i, j :: 0 <= i < |entries| && 0 <= j < |entries| ==> Apart(entries[i].key, entries[j].key, less)
  }

  // Within every object the order tells the names apart.
  predicate Ordered(v: Json, less: Order)
    decreases v
  {
    match v
    case Leaf(_) => true
    case Arr(items) => forall i :: 0 <= i < |items| ==> Ordered(items[i], less)
    case Obj(entries) => Comparable(entries, less) && forall i :: 0 <= i < |entries| ==> Ordered(entries[i].value, less)
  }

  // ------------------------------------------------------------------ sorting by a strict order

  predicate Ascending(entries: seq<Entry>, less: Order) {
    forall i, j :: 0 <= i < j < |entries| ==> less(entries[i].key, entries[j].key)
  }

  lemma {:induction false} InsertAscends(e: Entry, sorted: seq<Entry>, less: Order)
    requires StrictOrder(less) && Ascending(sorted, less)
    requires forall i :: 0 <= i < |sorted| ==> less(e.key, sorted[i].key) || less(sorted[i].key, e.key)
    ensures Ascending(Insert(e, sorted, less), less)
  {
    if sorted == [] {
    } else if !less(sorted[0].key, e.key) {
      var r := [e] + sorted;
      forall i, j | 0 <= i < j < |r|
        ensures less(r[i].key, r[j].key)
      {
        if i == 0 && j > 1 {
          assert less(e.key, sorted[0].key) && less(sorted[0].key, sorted[j - 1].key);
        }
      }
    } else {
      var tail := Insert(e, sorted[1..], less);
      InsertAscends(e, sorted[1..], less);
      forall j | 0 <= j < |tail|
        ensures less(sorted[0].key, tail[j].key)
      {
        assert multiset(tail) == multiset([e] + sorted[1..]);
        var k := Member(tail, [e] + sorted[1..], j);
      }
    }
  }

  lemma {:induction false} SortAscends(entries: seq<Entry>, less: Order)
    requires StrictOrder(less) && Distinct(entries) && AllComparable(entries, less)
    ensures Ascending(Sort(entries, less), less)
  {
    if entries != [] {
      SortAscends(entries[1..], less);
      var sorted := Sort(entries[1..], less);
      forall i | 0 <= i < |sorted|
        ensures less(entries[0].key, sorted[i].key) || less(sorted[i].key, entries[0].key)
      {
        var k := Member(sorted, entries[1..], i);
      }
      InsertAscends(entries[0], sorted, less);
    }
  }

  // ------------------------------------------------------------------ sorting by a weak order

  predicate NoDescent(entries: seq<Entry>, less: Order) {
    forall i, j :: 0 <= i < j < |entries| ==> !less(entries[j].key, entries[i].key)
  }

  lemma NotLess(less: Order, a: string, b: string, c: string)
    requires WeakOrder(less) && !less(b, c) && (a == b || !less(a, b))
    ensures !less(a, c)
  {
  }

  lemma NotBack(less: Order, a: string, b: string)
    requires WeakOrder(less) && less(a, b)
    ensures !less(b, a)
  {
  }

  lemma {:induction false} InsertDescendsNowhere(e: Entry, sorted: seq<Entry>, less: Order)
    requires WeakOrder(less) && NoDescent(sorted, less)
    ensures NoDescent(Insert(e, sorted, less), less)
  {
    if sorted == [] {
    } else if !less(sorted[0].key, e.key) {
      forall j | 0 <= j < |sorted|
        ensures !less(sorted[j].key, e.key)
      {
        NotLess(less, sorted[j].key, sorted[0].key, e.key);
      }
    } else {
      var tail := Insert(e, sorted[1..], less);
      InsertDescendsNowhere(e, sorted[1..], less);
      forall j | 0 <= j < |tail|
        ensures !less(tail[j].key, sorted[0].key)
      {
        assert multiset(tail) == multiset([e] + sorted[1..]);
        var k := Member(tail, [e] + sorted[1..], j);
        NotBack(less, sorted[0].key, e.key);
      }
    }
  }

  lemma {:induction false} SortDescendsNowhere(entries: seq<Entry>, less: Order)
    requires WeakOrder(less)
    ensures NoDescent(Sort(entries, less), less)
  {
    if entries != [] {
      SortDescendsNowhere(entries[1..], less);
      InsertDescendsNowhere(entries[0], Sort(entries[1..], less), less);
    }
  }

  // ------------------------------------------------------------------ names and indices

  lemma TailHasKey(entries: seq<Entry>, key: string)
    requires entries != []
    ensures HasKey(entries, key) <==> entries[0].key == key || HasKey(entries[1..], key)
  {
    if HasKey(entries, key) && entries[0].key != key {
      var i := Holder(entries, key);
      assert entries[1..][i - 1].key == key;
    }
    if HasKey(entries[1..], key) {
      var i := Holder(entries[1..], key);
      assert entries[i + 1].key == key;
    }
  }

  lemma ConsHasKey(e: Entry, entries: seq<Entry>, key: string)
    ensures HasKey([e] + entries, key) <==> e.key == key || HasKey(entries, key)
  {
    assert ([e] + entries)[1..] == entries;
    TailHasKey([e] + entries, key);
  }

  lemma {:induction false} SplitKeys(entries: seq<Entry>, key: string)
    ensures HasKey(Names(entries), key) <==> HasKey(entries, key) && IsName(key)
    ensures HasKey(Indices(entries), key) <==> HasKey(entries, key) && !IsName(key)
  {
    if entries != [] {
      SplitKeys(entries[1..], key);
      TailHasKey(entries, key);
      ConsHasKey(entries[0], Names(entries[1..]), key);
      ConsHasKey(entries[0], Indices(entries[1..]), key);
      hide IsIndex, HasKey;
      var names, indices := Names(entries[1..]), Indices(entries[1..]);
      assert Names(entries) == if IsName(entries[0].key) then [entries[0]] + names else names;
      assert Indices(entries) == if IsName(entries[0].key) then indices else [entries[0]] + indices;
    }
  }

  // Every entry of the part is an entry of the whole.
  predicate Within(part: seq<Entry>, whole: seq<Entry>) {
    forall i :: 0 <= i < |part| ==> part[i] in whole
  }

  lemma {:induction false} NamesWithin(entries: seq<Entry>)
    ensures Within(Names(entries), entries) && Within(Indices(entries), entries)
  {
    hide IsIndex;
    if entries != [] {
      NamesWithin(entries[1..]);
    }
  }

  lemma {:induction false} NamesDescendNowhere(entries: seq<Entry>, less: Order)
    requires NoDescent(entries, less)
    ensures NoDescent(Names(entries), less)
  {
    hide IsIndex;
    if entries != [] {
      NamesDescendNowhere(entries[1..], less);
      NamesWithin(entries[1..]);
      forall e | e in entries[1..]
        ensures !less(e.key, entries[0].key)
      {
      }
    }
  }

  lemma {:induction false} PartsAreDistinct(entries: seq<Entry>)
    requires Distinct(entries)
    ensures Distinct(Names(entries)) && Distinct(Indices(entries))
  {
    hide IsIndex;
    if entries != [] {
      PartsAreDistinct(entries[1..]);
      NamesWithin(entries[1..]);
      hide IsName;
      DistinctFromFront(entries);
      if IsName(entries[0].key) {
        OneMoreDistinct(entries[0], Names(entries[1..]), entries[1..]);
      } else {
        OneMoreDistinct(entries[0], Indices(entries[1..]), entries[1..]);
      }
    }
  }

  lemma DistinctFromFront(entries: seq<Entry>)
    requires Distinct(entries) && entries != []
    ensures forall e :: e in entries[1..] ==> e.key != entries[0].key
  {
  }

  lemma OneMoreDistinct(e: Entry, part: seq<Entry>, whole: seq<Entry>)
    requires Distinct(part) && Within(part, whole) && forall x :: x in whole ==> x.key != e.key
    ensures Distinct([e] + part)
  {
  }

  // Names that the order tells apart come out in ascending order.
  lemma NamesAscend(entries: seq<Entry>, less: Order)
    requires NoDescent(entries, less) && Distinct(entries) && Comparable(entries, less)
    ensures Ascending(Names(entries), less)
  {
    var names := Names(entries);
    NamesDescendNowhere(entries, less);
    PartsAreDistinct(entries);
    NamesWithin(entries);
    SplitByKind(entries);
    forall i, j | 0 <= i < j < |names|
      ensures less(names[i].key, names[j].key)
    {
      assert names[i] in entries && names[j] in entries;
      assert Apart(names[i].key, names[j].key, less);
    }
  }

  lemma IndicesAscend(entries: seq<Entry>)
    requires Distinct(entries)
    ensures Ascending(Sort(Indices(entries), IndexLess()), IndexLess())
  {
    SplitByKind(entries);
    PartsAreDistinct(entries);
    SortAscends(Indices(entries), IndexLess());
  }

  // ------------------------------------------------------------------ equal forms

  // Entries with the same key are the same entry.
  predicate Agree(a: seq<Entry>, b: seq<Entry>) {
    forall x, y :: x in a && y in b && x.key == y.key ==> x == y
  }

  ghost predicate SameKeys(a: seq<Entry>, b: seq<Entry>) {
    forall k :: HasKey(a, k) <==> HasKey(b, k)
  }

  // Two ascending lists of the same keys that agree are the same list.
  lemma {:induction false} SameList(a: seq<Entry>, b: seq<Entry>, less: Order)
    requires StrictOrder(less) && Ascending(a, less) && Ascending(b, less) && SameKeys(a, b) && Agree(a, b)
    ensures a == b
  {
    if a == [] {
      assert b != [] ==> HasKey(b, b[0].key);
    } else {
      FirstKeys(a, b, less);
      assert Ascending(a[1..], less) && Ascending(b[1..], less) && Agree(a[1..], b[1..]) && a[0] == b[0];
      hide StrictOrder, Ascending, HasKey, Agree;
      forall k
        ensures HasKey(a[1..], k) <==> HasKey(b[1..], k)
      {
        KeysOfTail(a, k, less);
        KeysOfTail(b, k, less);
      }
      SameList(a[1..], b[1..], less);
      assert a == [a[0]] + a[1..] && b == [b[0]] + b[1..];
    }
  }

  lemma FirstKeys(a: seq<Entry>, b: seq<Entry>, less: Order)
    requires StrictOrder(less) && Ascending(a, less) && Ascending(b, less) && SameKeys(a, b) && a != []
    ensures b != [] && a[0].key == b[0].key
  {
    assert HasKey(a, a[0].key) && HasKey(b, a[0].key);
    assert HasKey(b, b[0].key) && HasKey(a, b[0].key);
  }

  lemma KeysOfTail(a: seq<Entry>, key: string, less: Order)
    requires StrictOrder(less) && Ascending(a, less) && a != []
    ensures HasKey(a[1..], key) <==> HasKey(a, key) && key != a[0].key
  {
    TailHasKey(a, key);
    if HasKey(a[1..], key) {
      var i := Holder(a[1..], key);
      assert less(a[0].key, a[i + 1].key);
    }
  }

  lemma AgreeWithin(a: seq<Entry>, b: seq<Entry>, partOfA: seq<Entry>, partOfB: seq<Entry>)
    requires Agree(a, b) && Within(partOfA, a) && Within(partOfB, b)
    ensures Agree(partOfA, partOfB)
  {
  }

  lemma SameNames(a: seq<Entry>, b: seq<Entry>, less: Order)
    requires StrictOrder(less) && SameKeys(a, b) && Agree(a, b)
    requires Ascending(Names(a), less) && Ascending(Names(b), less)
    ensures Names(a) == Names(b)
  {
    hide Ascending, HasKey, StrictOrder;
    NamesWithin(a);
    NamesWithin(b);
    AgreeWithin(a, b, Names(a), Names(b));
    forall k
      ensures HasKey(Names(a), k) <==> HasKey(Names(b), k)
    {
      SplitKeys(a, k);
      SplitKeys(b, k);
    }
    SameList(Names(a), Names(b), less);
  }

  lemma IndexOrderIsStrict()
    ensures StrictOrder(IndexLess())
  {
  }

  lemma SortedWithin(entries: seq<Entry>, less: Order)
    ensures Within(Sort(entries, less), entries)
  {
    var sorted := Sort(entries, less);
    forall i | 0 <= i < |sorted|
      ensures sorted[i] in entries
    {
      var j := Member(sorted, entries, i);
    }
  }

  lemma SameIndices(a: seq<Entry>, b: seq<Entry>)
    requires SameKeys(a, b) && Agree(a, b) && Distinct(a) && Distinct(b)
    ensures Sort(Indices(a), IndexLess()) == Sort(Indices(b), IndexLess())
  {
    IndexOrderIsStrict();
    IndicesAscend(a);
    IndicesAscend(b);
    hide Ascending, HasKey, StrictOrder, IsIndex, IndexLess, Distinct, Sort, Indices;
    var p, q := Sort(Indices(a), IndexLess()), Sort(Indices(b), IndexLess());
    NamesWithin(a);
    NamesWithin(b);
    SortedWithin(Indices(a), IndexLess());
    SortedWithin(Indices(b), IndexLess());
    AgreeWithin(a, b, p, q);
    forall k
      ensures HasKey(p, k) <==> HasKey(q, k)
    {
      SplitKeys(a, k);
      SplitKeys(b, k);
      SameMembers(Indices(a), p, k);
      SameMembers(Indices(b), q, k);
    }
    SameList(p, q, IndexLess());
  }

  // Entry lists without ties that agree make the same object.
  lemma SameObject(a: seq<Entry>, b: seq<Entry>, less: Order)
    requires StrictOrder(less) && SameKeys(a, b) && Agree(a, b) && Distinct(a) && Distinct(b)
    requires NoDescent(a, less) && NoDescent(b, less) && Comparable(a, less) && Comparable(b, less)
    ensures FromEntries(a) == FromEntries(b)
  {
    NamesAscend(a, less);
    NamesAscend(b, less);
    SameNames(a, b, less);
    SameIndices(a, b);
  }

  // ------------------------------------------------------------------ from meaning to form

  // The entries of the canonical form before the new object arranges them.
  function Arranged(v: Json, less: Order): seq<Entry>
    requires v.Obj?
  {
    StableObj(v, less);
    StableAll(Sort(v.entries, less), less, v)
  }

  lemma ArrangedEntries(v: Json, less: Order, i: nat) returns (j: nat)
    requires v.Obj? && i < |Arranged(v, less)|
    ensures j < |v.entries| && Arranged(v, less)[i] == Entry(v.entries[j].key, Stable(v.entries[j].value, less))
  {
    StableObj(v, less);
    j := Member(Sort(v.entries, less), v.entries, i);
  }

  // Entries whose keys are among those of the object, from the sorted list.
  lemma ArrangedKeys(v: Json, less: Order)
    requires v.Obj?
    ensures var all, sorted := Arranged(v, less), Sort(v.entries, less);
            |all| == |sorted| && forall i :: 0 <= i < |all| ==> all[i].key == sorted[i].key
  {
    StableObj(v, less);
  }

  lemma SameKeysDescendNowhere(a: seq<Entry>, b: seq<Entry>, less: Order)
    requires NoDescent(a, less) && |a| == |b| && forall i :: 0 <= i < |b| ==> b[i].key == a[i].key
    ensures NoDescent(b, less)
  {
  }

  lemma SameKeysComparable(a: seq<Entry>, b: seq<Entry>, less: Order)
    requires Comparable(a, less) && forall i :: 0 <= i < |b| ==> HasKey(a, b[i].key)
    ensures Comparable(b, less)
  {
    hide Apart;
    forall i, j | 0 <= i < |b| && 0 <= j < |b|
      ensures Apart(b[i].key, b[j].key, less)
    {
      var k := Holder(a, b[i].key);
      var l := Holder(a, b[j].key);
    }
  }

  lemma ArrangedObject(v: Json, less: Order)
    requires WeakOrder(less) && v.Obj? && Valid(v) && Comparable(v.entries, less)
    ensures Distinct(Arranged(v, less)) && NoDescent(Arranged(v, less), less) && Comparable(Arranged(v, less), less)
    ensures SameKeys(Arranged(v, less), v.entries)
    ensures Stable(v, less) == Obj(FromEntries(Arranged(v, less)))
  {
    var all := Arranged(v, less);
    assert Stable(v, less) == Obj(FromEntries(all)) by {
      StableObj(v, less);
    }
    assert Distinct(v.entries);
    hide Stable, Arranged, Sort, Comparable, Distinct, NoDescent, WeakOrder, FromEntries, Valid;
    ArrangedKeys(v, less);
    SortDescendsNowhere(v.entries, less);
    SameKeysDescendNowhere(Sort(v.entries, less), all, less);
    SameKeysThroughout(v.entries, Sort(v.entries, less), all, all);
    forall i | 0 <= i < |all|
      ensures HasKey(v.entries, all[i].key)
    {
      assert HasKey(all, all[i].key);
    }
    SameKeysComparable(v.entries, all, less);
  }

  lemma {:induction false} StableDependsOnMeaning(a: Json, b: Json, less: Order)
    requires WeakOrder(less) && Valid(a) && Valid(b) && Ordered(a, less) && Ordered(b, less)
    requires Meaning(a) == Meaning(b)
    ensures Stable(a, less) == Stable(b, less)
    decreases a
  {
    match a
    case Leaf(_) =>
    case Arr(items) =>
      assert |items| == |Meaning(a).items| == |Meaning(b).items| == |b.items|;
      forall i | 0 <= i < |items|
        ensures Stable(items[i], less) == Stable(b.items[i], less)
      {
        assert Meaning(items[i]) == Meaning(a).items[i] == Meaning(b).items[i];
        StableDependsOnMeaning(items[i], b.items[i], less);
      }
    case Obj(entries) =>
      forall k: nat, l: nat | k < |entries| && l < |b.entries| && entries[k].key == b.entries[l].key
        ensures SameStable(entries[k], b.entries[l], less)
      {
        MemberOfMeaning(a, k);
        MemberOfMeaning(b, l);
        StableDependsOnMeaning(entries[k].value, b.entries[l].value, less);
      }
      ObjectDependsOnMeaning(a, b, less);
  }

  predicate SameStable(x: Entry, y: Entry, less: Order) {
    Stable(x.value, less) == Stable(y.value, less)
  }

  // What two objects hold under one key has the same form.
  ghost predicate SameMembersStable(a: Json, b: Json, less: Order)
    requires a.Obj? && b.Obj?
  {
    forall k: nat, l: nat :: k < |a.entries| && l < |b.entries| && a.entries[k].key == b.entries[l].key ==>
      SameStable(a.entries[k], b.entries[l], less)
  }

  lemma ArrangedAgree(a: Json, b: Json, less: Order)
    requires a.Obj? && b.Obj? && SameMembersStable(a, b, less)
    ensures Agree(Arranged(a, less), Arranged(b, less))
  {
    var p, q := Arranged(a, less), Arranged(b, less);
    hide Stable, Arranged, SameMembersStable;
    forall x, y | x in p && y in q && x.key == y.key
      ensures x == y
    {
      var i :| 0 <= i < |p| && p[i] == x;
      var j :| 0 <= j < |q| && q[j] == y;
      var k := ArrangedEntries(a, less, i);
      var l := ArrangedEntries(b, less, j);
      UnderOneKey(a, b, less, k, l);
    }
  }

  lemma UnderOneKey(a: Json, b: Json, less: Order, k: nat, l: nat)
    requires a.Obj? && b.Obj? && SameMembersStable(a, b, less)
    requires k < |a.entries| && l < |b.entries| && a.entries[k].key == b.entries[l].key
    ensures Stable(a.entries[k].value, less) == Stable(b.entries[l].value, less)
  {
    hide Stable;
    assert SameStable(a.entries[k], b.entries[l], less);
  }

  lemma ObjectDependsOnMeaning(a: Json, b: Json, less: Order)
    requires WeakOrder(less) && a.Obj? && b.Obj? && Valid(a) && Valid(b)
    requires Comparable(a.entries, less) && Comparable(b.entries, less) && Meaning(a) == Meaning(b)
    requires SameMembersStable(a, b, less)
    ensures Stable(a, less) == Stable(b, less)
  {
    var p, q := Arranged(a, less), Arranged(b, less);
    assert SameKeys(a.entries, b.entries) by {
      hide *;
      forall k
        ensures HasKey(a.entries, k) <==> HasKey(b.entries, k)
      {
        KeysOfMeaning(a, k);
        KeysOfMeaning(b, k);
      }
      SameKeysOf(a.entries, b.entries);
    }
    hide *;
    ArrangedObject(a, less);
    ArrangedObject(b, less);
    ArrangedAgree(a, b, less);
    SameKeysChain(p, a.entries, b.entries, q);
    Strict(less);
    SameObject(p, q, less);
  }

  lemma SameKeysOf(a: seq<Entry>, b: seq<Entry>)
    requires forall k :: HasKey(a, k) <==> HasKey(b, k)
    ensures SameKeys(a, b)
  {
  }

  lemma SameKeysChain(a: seq<Entry>, b: seq<Entry>, c: seq<Entry>, d: seq<Entry>)
    requires SameKeys(a, b) && SameKeys(b, c) && SameKeys(d, c)
    ensures SameKeys(a, d)
  {
    hide HasKey;
  }

  lemma Strict(less: Order)
    requires WeakOrder(less)
    ensures StrictOrder(less)
  {
  }

  /** Two values have the same canonical form exactly when they differ in nothing but the order
      of object keys. */
  lemma StableIsCanonical(a: Json, b: Json, less: Order)
    requires WeakOrder(less) && Valid(a) && Valid(b) && Ordered(a, less) && Ordered(b, less)
    ensures Stable(a, less) == Stable(b, less) <==> Meaning(a) == Meaning(b)
  {
    if Meaning(a) == Meaning(b) {
      StableDependsOnMeaning(a, b, less);
    } else {
      StableKeepsMeaning(a, less);
      StableKeepsMeaning(b, less);
    }
  }

  lemma ComparableRearranged(a: seq<Entry>, b: seq<Entry>, less: Order)
    requires Comparable(a, less) && |b| <= |a|
    requires forall i :: 0 <= i < |b| ==> HasKey(a, b[i].key)
    ensures Comparable(b, less)
  {
  }

  lemma {:induction false} StableKeepsOrdered(v: Json, less: Order)
    requires Ordered(v, less)
    ensures Ordered(Stable(v, less), less)
    decreases v
  {
    match v
    case Leaf(_) =>
    case Arr(items) =>
      forall i | 0 <= i < |items|
        ensures Ordered(Stable(items[i], less), less)
      {
        StableKeepsOrdered(items[i], less);
      }
    case Obj(entries) =>
      var sorted := Sort(entries, less);
      InObject(entries, sorted);
      var all := StableAll(sorted, less, v);
      var result := FromEntries(all);
      FromEntriesRearranges(all);
      forall i | 0 <= i < |result|
        ensures HasKey(entries, result[i].key) && Ordered(result[i].value, less)
      {
        var j := Member(result, all, i);
        var k := Member(sorted, entries, j);
        StableKeepsOrdered(sorted[j].value, less);
      }
      assert |result| == |multiset(result)| == |multiset(sorted)| == |entries|;
      ComparableRearranged(entries, result, less);
  }

  /** Applying it again changes nothing. */
  lemma StableIsIdempotent(v: Json, less: Order)
    requires WeakOrder(less) && Valid(v) && Ordered(v, less)
    ensures Stable(Stable(v, less), less) == Stable(v, less)
  {
    StableKeepsMeaning(v, less);
    StableKeepsOrdered(v, less);
    StableDependsOnMeaning(Stable(v, less), v, less);
  }

  // ------------------------------------------------------------------ the order of the keys

  // Array indices by value, then the names by the order.
  predicate Before(a: string, b: string, less: Order) {
    if IsIndex(a) then IsIndex(b) ==> Value(a).value < Value(b).value else IsName(b) && less(a, b)
  }

  /** The keys of the canonical form of an object are in order. */
  lemma StableKeysAreInOrder(v: Json, less: Order)
    requires WeakOrder(less) && v.Obj? && Valid(v) && Comparable(v.entries, less)
    ensures var r := Stable(v, less).entries;
            forall i, j :: 0 <= i < j < |r| ==> Before(r[i].key, r[j].key, less)
  {
    var all := Arranged(v, less);
    ArrangedObject(v, less);
    var indices, names := Sort(Indices(all), IndexLess()), Names(all);
    NamesAscend(all, less);
    IndicesAscend(all);
    SplitByKind(all);
    forall i | 0 <= i < |indices|
      ensures IsIndex(indices[i].key)
    {
      var j := Member(indices, Indices(all), i);
    }
    assert Stable(v, less).entries == indices + names;
  }

  // ------------------------------------------------------------------ names that compare equal

  // Some entry with the first key stands before some entry with the second.
  predicate Precedes(entries: seq<Entry>, x: string, y: string) {
    exists i, j :: 0 <= i < j < |entries| && entries[i].key == x && entries[j].key == y
  }

  lemma ConsPrecedes(e: Entry, entries: seq<Entry>, x: string, y: string)
    ensures Precedes([e] + entries, x, y) <==> (e.key == x && HasKey(entries, y)) || Precedes(entries, x, y)
  {
    var all := [e] + entries;
    if Precedes(all, x, y) {
      var i, j :| 0 <= i < j < |all| && all[i].key == x && all[j].key == y;
      assert entries[j - 1].key == y;
      if i > 0 {
        assert entries[i - 1].key == x;
      }
    }
    if e.key == x && HasKey(entries, y) {
      var j := Holder(entries, y);
      assert all[0].key == x && all[j + 1].key == y;
    }
    if Precedes(entries, x, y) {
      var i, j :| 0 <= i < j < |entries| && entries[i].key == x && entries[j].key == y;
      assert all[i + 1].key == x && all[j + 1].key == y;
    }
  }

  lemma DistinctPrecedes(entries: seq<Entry>, x: string, y: string)
    requires Distinct(entries) && Precedes(entries, x, y)
    ensures !Precedes(entries, y, x)
  {
    var i, j :| 0 <= i < j < |entries| && entries[i].key == x && entries[j].key == y;
  }

  lemma {:induction false} InsertKeepsKeys(e: Entry, sorted: seq<Entry>, less: Order, key: string)
    ensures HasKey(Insert(e, sorted, less), key) <==> e.key == key || HasKey(sorted, key)
  {
    assert multiset(Insert(e, sorted, less)) == multiset([e] + sorted);
    SameMembers(Insert(e, sorted, less), [e] + sorted, key);
    ConsHasKey(e, sorted, key);
  }

  lemma {:induction false} InsertKeepsPrecedence(e: Entry, sorted: seq<Entry>, less: Order, x: string, y: string)
    requires Precedes(sorted, x, y) || (e.key == x && HasKey(sorted, y) && !less(y, x))
    ensures Precedes(Insert(e, sorted, less), x, y)
  {
    if sorted == [] {
    } else if !less(sorted[0].key, e.key) {
      ConsPrecedes(e, sorted, x, y);
    } else {
      var first, rest := sorted[0], sorted[1..];
      assert sorted == [first] + rest;
      ConsPrecedes(first, rest, x, y);
      ConsPrecedes(first, Insert(e, rest, less), x, y);
      ConsHasKey(first, rest, y);
      InsertKeepsKeys(e, rest, less, y);
      if Precedes(rest, x, y) || (e.key == x && HasKey(rest, y) && !less(y, x)) {
        InsertKeepsPrecedence(e, rest, less, x, y);
      }
    }
  }

  // The sort is stable: what the order does not put first stays behind.
  lemma {:induction false} SortKeepsPrecedence(entries: seq<Entry>, less: Order, x: string, y: string)
    requires Precedes(entries, x, y) && !less(y, x)
    ensures Precedes(Sort(entries, less), x, y)
  {
    if entries != [] {
      var first, rest := entries[0], entries[1..];
      assert entries == [first] + rest;
      ConsPrecedes(first, rest, x, y);
      if Precedes(rest, x, y) {
        SortKeepsPrecedence(rest, less, x, y);
      }
      SameMembers(rest, Sort(rest, less), y);
      InsertKeepsPrecedence(first, Sort(rest, less), less, x, y);
    }
  }

  lemma {:induction false} NamesKeepPrecedence(entries: seq<Entry>, x: string, y: string)
    requires Precedes(entries, x, y) && IsName(x) && IsName(y)
    ensures Precedes(Names(entries), x, y)
  {
    if entries != [] {
      var first, rest := entries[0], entries[1..];
      assert entries == [first] + rest;
      ConsPrecedes(first, rest, x, y);
      ConsPrecedes(first, Names(rest), x, y);
      SplitKeys(rest, y);
      assert Names(entries) == if IsName(first.key) then [first] + Names(rest) else Names(rest);
      if Precedes(rest, x, y) {
        NamesKeepPrecedence(rest, x, y);
      }
    }
  }

  lemma AppendPrecedes(a: seq<Entry>, b: seq<Entry>, x: string, y: string)
    requires Precedes(b, x, y)
    ensures Precedes(a + b, x, y)
  {
    var i, j :| 0 <= i < j < |b| && b[i].key == x && b[j].key == y;
    assert (a + b)[|a| + i].key == x && (a + b)[|a| + j].key == y;
  }

  // A name that the order does not put before another stays behind it in the canonical form.
  lemma StableKeepsPrecedence(v: Json, less: Order, x: string, y: string)
    requires v.Obj? && Precedes(v.entries, x, y) && IsName(x) && IsName(y) && !less(y, x)
    ensures Precedes(Stable(v, less).entries, x, y)
  {
    StableObj(v, less);
    var sorted, all := Sort(v.entries, less), Arranged(v, less);
    SortKeepsPrecedence(v.entries, less, x, y);
    var i, j :| 0 <= i < j < |sorted| && sorted[i].key == x && sorted[j].key == y;
    assert all[i].key == x && all[j].key == y;
    NamesKeepPrecedence(all, x, y);
    AppendPrecedes(Sort(Indices(all), IndexLess()), Names(all), x, y);
  }

  // ------------------------------------------------------------------ exactly when

  function Swapped(entries: seq<Entry>, i: nat, j: nat): seq<Entry>
    requires i < j < |entries|
  {
    entries[i := entries[j]][j := entries[i]]
  }

  lemma SwappedMeansTheSame(entries: seq<Entry>, i: nat, j: nat)
    requires i < j < |entries| && Valid(Obj(entries))
    ensures Valid(Obj(Swapped(entries, i, j))) && Meaning(Obj(Swapped(entries, i, j))) == Meaning(Obj(entries))
  {
    var r := Swapped(entries, i, j);
    var v := Obj(entries);
    forall k
      ensures HasKey(r, k) <==> HasKey(entries, k)
    {
      if HasKey(entries, k) {
        var n := Holder(entries, k);
        assert r[if n == i then j else if n == j then i else n].key == k;
      }
      if HasKey(r, k) {
        var n := Holder(r, k);
        assert entries[if n == i then j else if n == j then i else n].key == k;
      }
    }
    forall n | 0 <= n < |r|
      ensures MeansMember(r[n], v)
    {
      MemberOfMeaning(v, if n == i then j else if n == j then i else n);
    }
    SameMeaning(v, r);
  }

  /** Two different names of an object that the order cannot tell apart keep the order in which
      they were added, so swapping them changes the form. */
  lemma TiesKeepInsertionOrder(entries: seq<Entry>, i: nat, j: nat, less: Order)
    requires Valid(Obj(entries)) && i < j < |entries| && !Apart(entries[i].key, entries[j].key, less)
    ensures Stable(Obj(Swapped(entries, i, j)), less) != Stable(Obj(entries), less)
  {
    var v, w := Obj(entries), Obj(Swapped(entries, i, j));
    var x, y := entries[i].key, entries[j].key;
    assert w.entries[i].key == y && w.entries[j].key == x;
    StableKeepsPrecedence(v, less, x, y);
    StableKeepsPrecedence(w, less, y, x);
    StableKeepsMeaning(v, less);
    DistinctPrecedes(Stable(v, less).entries, x, y);
  }

  // A value that means the same and has another form.
  ghost predicate Differs(v: Json, w: Json, less: Order)
    requires Valid(v)
  {
    Valid(w) && Meaning(w) == Meaning(v) && Stable(w, less) != Stable(v, less)
  }

  lemma ItemDiffers(items: seq<Json>, i: nat, w: Json, less: Order)
    requires i < |items| && Valid(Arr(items)) && Differs(items[i], w, less)
    ensures Differs(Arr(items), Arr(items[i := w]), less)
  {
    assert Stable(Arr(items[i := w]), less).items[i] == Stable(w, less);
    assert Stable(Arr(items), less).items[i] == Stable(items[i], less);
  }

  // What the canonical form of an object holds under a key.
  lemma HoldsStable(v: Json, less: Order, n: nat)
    requires v.Obj? && Valid(v) && n < |v.entries|
    ensures Entry(v.entries[n].key, Stable(v.entries[n].value, less)) in Stable(v, less).entries
  {
    StableObj(v, less);
    var sorted, all := Sort(v.entries, less), Arranged(v, less);
    var i := Member(v.entries, sorted, n);
    FromEntriesRearranges(all);
    var k := Member(all, FromEntries(all), i);
  }

  function Replaced(entries: seq<Entry>, i: nat, w: Json): seq<Entry>
    requires i < |entries|
  {
    entries[i := Entry(entries[i].key, w)]
  }

  lemma ReplacedMeansTheSame(entries: seq<Entry>, i: nat, w: Json)
    requires i < |entries| && Valid(Obj(entries)) && Valid(w) && Meaning(w) == Meaning(entries[i].value)
    ensures Valid(Obj(Replaced(entries, i, w))) && Meaning(Obj(Replaced(entries, i, w))) == Meaning(Obj(entries))
  {
    var v, r := Obj(entries), Replaced(entries, i, w);
    assert forall n :: 0 <= n < |entries| ==> Valid(entries[n].value);
    hide Meaning, Valid;
    forall n | 0 <= n < |r|
      ensures MeansMember(r[n], v)
    {
      MemberOfMeaning(v, n);
    }
    hide MeansMember;
    ReplacedKeys(entries, i, w);
    SameMeaning(v, r);
  }

  lemma ReplacedKeys(entries: seq<Entry>, i: nat, w: Json)
    requires i < |entries| && Valid(Obj(entries))
    ensures Distinct(Replaced(entries, i, w)) && SameKeys(Replaced(entries, i, w), entries)
  {
    var r := Replaced(entries, i, w);
    assert forall n :: 0 <= n < |r| ==> r[n].key == entries[n].key;
  }

  // An object with distinct keys holds one value under each.
  lemma OneValue(entries: seq<Entry>, x: Entry, y: Entry)
    requires Distinct(entries) && x in entries && y in entries && x.key == y.key
    ensures x == y
  {
    var i :| 0 <= i < |entries| && entries[i] == x;
    var j :| 0 <= j < |entries| && entries[j] == y;
  }

  lemma MemberDiffers(entries: seq<Entry>, i: nat, w: Json, less: Order)
    requires i < |entries| && Valid(Obj(entries)) && Differs(entries[i].value, w, less)
    ensures Differs(Obj(entries), Obj(Replaced(entries, i, w)), less)
  {
    var v, r := Obj(entries), Obj(Replaced(entries, i, w));
    ReplacedMeansTheSame(entries, i, w);
    HoldsStable(v, less, i);
    HoldsStable(r, less, i);
    StableKeepsMeaning(v, less);
    var key := entries[i].key;
    hide Meaning, Stable;
    if Stable(r, less) == Stable(v, less) {
      OneValue(Stable(v, less).entries, Entry(key, Stable(entries[i].value, less)), Entry(key, Stable(w, less)));
    }
  }

  // A value whose names are not all told apart has a twin with another form.
  lemma {:induction false} Twin(v: Json, less: Order) returns (w: Json)
    requires Valid(v) && !Ordered(v, less)
    ensures Differs(v, w, less)
    decreases v
  {
    match v
    case Leaf(_) =>
      w := v;
    case Arr(items) =>
      var i :| 0 <= i < |items| && !Ordered(items[i], less);
      var other := Twin(items[i], less);
      ItemDiffers(items, i, other, less);
      w := Arr(items[i := other]);
    case Obj(entries) =>
      if Comparable(entries, less) {
        var i :| 0 <= i < |entries| && !Ordered(entries[i].value, less);
        var other := Twin(entries[i].value, less);
        MemberDiffers(entries, i, other, less);
        w := Obj(Replaced(entries, i, other));
      } else {
        var i, j :| 0 <= i < |entries| && 0 <= j < |entries| && !Apart(entries[i].key, entries[j].key, less);
        var first, second := if i < j then i else j, if i < j then j else i;
        SwappedMeansTheSame(entries, first, second);
        TiesKeepInsertionOrder(entries, first, second, less);
        w := Obj(Swapped(entries, first, second));
      }
  }

  // Being told apart is a matter of the keys that a value has.
  lemma {:induction false} OrderedDependsOnMeaning(a: Json, b: Json, less: Order)
    requires Valid(a) && Valid(b) && Meaning(a) == Meaning(b) && Ordered(a, less)
    ensures Ordered(b, less)
    decreases a
  {
    match a
    case Leaf(_) =>
    case Arr(items) =>
      assert |items| == |Meaning(a).items| == |Meaning(b).items| == |b.items|;
      forall i | 0 <= i < |items|
        ensures Ordered(b.items[i], less)
      {
        assert Meaning(items[i]) == Meaning(a).items[i] == Meaning(b).items[i];
        OrderedDependsOnMeaning(items[i], b.items[i], less);
      }
    case Obj(entries) =>
      hide Meaning, IsIndex;
      forall i | 0 <= i < |b.entries|
        ensures Ordered(b.entries[i].value, less)
        ensures HasKey(entries, b.entries[i].key)
      {
        var k := Counterpart(a, b, i);
        OrderedDependsOnMeaning(entries[k].value, b.entries[i].value, less);
      }
      forall i, j | 0 <= i < |b.entries| && 0 <= j < |b.entries|
        ensures Apart(b.entries[i].key, b.entries[j].key, less)
      {
        var k := Holder(entries, b.entries[i].key);
        var l := Holder(entries, b.entries[j].key);
        assert Apart(entries[k].key, entries[l].key, less);
      }
  }

  lemma Counterpart(a: Json, b: Json, i: nat) returns (k: nat)
    requires a.Obj? && b.Obj? && Valid(a) && Valid(b) && Meaning(a) == Meaning(b) && i < |b.entries|
    ensures k < |a.entries| && a.entries[k].key == b.entries[i].key
    ensures Meaning(a.entries[k].value) == Meaning(b.entries[i].value)
  {
    MemberOfMeaning(b, i);
    KeysOfMeaning(a, b.entries[i].key);
    k := Holder(a.entries, b.entries[i].key);
    MemberOfMeaning(a, k);
  }

  /** The exact condition: all values that mean the same as this one have one canonical form if
      and only if, within every one of its objects, the order tells the names apart. */
  lemma CanonicalExactlyWhen(v: Json, less: Order)
    requires WeakOrder(less) && Valid(v)
    ensures Ordered(v, less) <==> !(exists w: Json :: Differs(v, w, less))
  {
    if Ordered(v, less) {
      forall w: Json
        ensures !Differs(v, w, less)
      {
        if Valid(w) && Meaning(w) == Meaning(v) {
          OrderedDependsOnMeaning(v, w, less);
          StableDependsOnMeaning(v, w, less);
        }
      }
    } else {
      var w := Twin(v, less);
    }
  }
}
