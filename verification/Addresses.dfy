/** Addresses, bindings between them, and the order in which bindings are listed. */
module Addresses {
  import opened Ranging
  import opened Sorting

  datatype Kind = Queue | Topic | Fanout | Direct | Temporary | OtherKind

  datatype Address = Address(
    name: string,
    kind: Kind,
    maxLength: nat,
    defaultTtl: int,
    deadLetter: string,
    paused: bool,
    version: nat)

  datatype Binding = Binding(
    id: string,
    source: string,
    destination: string,
    routingKey: string,
    filter: map<string, string>,
    priority: int)

  /** Every binding is stored under its own id. */
  ghost predicate Keyed(bindings: map<string, Binding>) {
    forall k :: k in bindings ==> bindings[k].id == k
  }

  // ---------------------------------------------------------------- order

  predicate LexLess(a: string, b: string) {
    b != [] && (a == [] || a[0] < b[0] || (a[0] == b[0] && LexLess(a[1..], b[1..])))
  }

  lemma {:induction false} LexTotal(a: string, b: string)
    ensures a == b || LexLess(a, b) || LexLess(b, a)
    ensures LexLess(a, b) ==> !LexLess(b, a)
  {
    if a != [] && b != [] && a[0] == b[0] {
      LexTotal(a[1..], b[1..]);
      if a[1..] == b[1..] {
        assert a == [a[0]] + a[1..] && b == [b[0]] + b[1..];
      }
    }
  }

  lemma {:induction false} LexTransitive(a: string, b: string, c: string)
    ensures !LexLess(a, b) && !LexLess(b, c) ==> !LexLess(a, c)
  {
    if a != [] && b != [] && c != [] && a[0] == b[0] == c[0] {
      LexTransitive(a[1..], b[1..], c[1..]);
    }
  }

  /** Where two strings first differ, one ends or has the smaller character: that is the lesser. */
  lemma {:induction false} LexLessExactlyWhen(a: string, b: string, n: nat)
    requires n <= |a| && n <= |b| && a[..n] == b[..n] && (n == |a| || n == |b| || a[n] != b[n])
    ensures LexLess(a, b) <==> n < |b| && (n == |a| || a[n] < b[n])
    decreases n
  {
    if n > 0 {
      assert a[0] == a[..n][0] == b[0];
      assert a[1..][..n - 1] == a[..n][1..] && b[1..][..n - 1] == b[..n][1..];
      LexLessExactlyWhen(a[1..], b[1..], n - 1);
    }
  }

  /** Higher priority first; equal priorities by id. */
  predicate Before(x: Binding, y: Binding) {
    if x.priority == y.priority then LexLess(x.id, y.id) else x.priority > y.priority
  }

  lemma {:induction false} BeforeIsOrder()
    ensures StrictWeakOrder(Before)
  {
    hide LexLess;
    forall x: Binding, y: Binding | Before(x, y)
      ensures !Before(y, x)
    {
      LexTotal(x.id, y.id);
    }
    forall x: Binding, y: Binding, z: Binding | !Before(x, y) && !Before(y, z)
      ensures !Before(x, z)
    {
      LexTransitive(x.id, y.id, z.id);
    }
  }

  // ---------------------------------------------------------------- listing

  predicate Listed(b: Binding, source: string) {
    source == "" || b.source == source
  }

  /** The listing of a source: its bindings, each once, in order. */
  ghost predicate IsListing(bindings: map<string, Binding>, source: string, list: seq<Binding>) {
    && (forall b :: b in list ==> b.id in bindings && bindings[b.id] == b && Listed(b, source))
    && (forall k :: k in bindings && Listed(bindings[k], source) ==> bindings[k] in list)
    && Distinct(list)
    && Ordered(list, Before)
  }

  method ListBindings(bindings: map<string, Binding>, source: string) returns (list: seq<Binding>)
    requires Keyed(bindings)
    ensures IsListing(bindings, source, list)
    ensures forall b :: b in list <==> b.id in bindings && bindings[b.id] == b && (source == "" || b.source == source)
    ensures forall i, j :: 0 <= i < j < |list| ==>
              list[i].priority > list[j].priority || (list[i].priority == list[j].priority && LexLess(list[i].id, list[j].id))
  {
    hide LexLess, Distinct, Ordered, Before, Listed, StrictWeakOrder;
    var out := FilterBindings(bindings, source);
    list := Sort(out, Before);
    BeforeIsOrder();
    SortOrdered(out, Before);
    SortMembers(out, Before);
    SortDistinct(out, list);
    ListingStrict(bindings, source, list);
    ListingMembers(bindings, source, list);
  }

  lemma {:induction false} ListingMembers(bindings: map<string, Binding>, source: string, list: seq<Binding>)
    requires Keyed(bindings) && IsListing(bindings, source, list)
    ensures forall b :: b in list <==> b.id in bindings && bindings[b.id] == b && (source == "" || b.source == source)
  {
    hide Before;
  }

  /** The bindings of a source in the order the map gives them. */
  method FilterBindings(bindings: map<string, Binding>, source: string) returns (out: seq<Binding>)
    requires Keyed(bindings)
    ensures forall b :: b in out ==> b.id in bindings && bindings[b.id] == b && Listed(b, source)
    ensures forall k :: k in bindings && Listed(bindings[k], source) ==> bindings[k] in out
    ensures Distinct(out)
  {
    hide Listed;
    var order := Range(bindings.Keys);
    out := [];
    for i := 0 to |order|
      invariant forall b :: b in out ==> b.id in bindings && bindings[b.id] == b && Listed(b, source)
      invariant forall b :: b in out ==> b.id in order[..i]
      invariant forall j :: 0 <= j < i && Listed(bindings[order[j]], source) ==> bindings[order[j]] in out
      invariant Distinct(out)
    {
      var b := bindings[order[i]];
      if Listed(b, source) {
        assert order[i] !in order[..i];
        out := out + [b];
      }
    }
  }

  lemma {:induction false} ListingStrict(bindings: map<string, Binding>, source: string, list: seq<Binding>)
    requires IsListing(bindings, source, list)
    ensures forall i, j :: 0 <= i < j < |list| ==>
              list[i].priority > list[j].priority || (list[i].priority == list[j].priority && LexLess(list[i].id, list[j].id))
  {
    hide LexLess;
    forall i, j | 0 <= i < j < |list|
      ensures list[i].priority > list[j].priority || (list[i].priority == list[j].priority && LexLess(list[i].id, list[j].id))
    {
      assert !Before(list[j], list[i]) && list[i] in list && list[j] in list;
      LexTotal(list[i].id, list[j].id);
    }
  }

  lemma {:induction false} DistinctCount<T>(s: seq<T>)
    ensures Distinct(s) <==> forall x :: multiset(s)[x] <= 1
  {
    if s != [] {
      var last, front := s[|s| - 1], s[..|s| - 1];
      assert s == front + [last];
      DistinctCount(front);
      if Distinct(s) {
        forall x
          ensures multiset(s)[x] <= 1
        {
          if x == last {
            assert last !in front;
            assert last !in multiset(front);
          }
        }
      } else {
        if Distinct(front) {
          assert last in front;
          assert last in multiset(front);
          assert multiset(s)[last] >= 2;
        } else {
          var x :| multiset(front)[x] > 1;
          assert multiset(s)[x] >= multiset(front)[x];
        }
      }
    }
  }

  lemma {:induction false} SortDistinct<T>(s: seq<T>, t: seq<T>)
    requires Distinct(s) && multiset(s) == multiset(t)
    ensures Distinct(t)
  {
    DistinctCount(s);
    DistinctCount(t);
  }

  /** The iteration order of the map does not show: there is only one listing. */
  lemma {:induction false} ListingUnique(bindings: map<string, Binding>, source: string, s: seq<Binding>, t: seq<Binding>)
    requires IsListing(bindings, source, s) && IsListing(bindings, source, t)
    ensures s == t
  {
    assert forall b :: b in s <==> b in t;
    assert forall x, y :: x in s && y in s && x.id == y.id ==> x == y;
    OrderedUnique(s, t);
  }

  lemma SomeMember<T>(t: seq<T>)
    ensures t != [] ==> exists x :: x in t
  {
    if t != [] {
      assert t[0] in t;
    }
  }

  lemma {:induction false} OrderedUnique(s: seq<Binding>, t: seq<Binding>)
    requires forall b :: b in s <==> b in t
    requires forall x, y :: x in s && y in s && x.id == y.id ==> x == y
    requires Distinct(s) && Distinct(t) && Ordered(s, Before) && Ordered(t, Before)
    ensures s == t
  {
    hide LexLess;
    if s == [] {
      SomeMember(t);
    } else {
      assert s[0] in t && t[0] in s;
      var x, y := s[0], t[0];
      if x != y {
        assert !Before(y, x) && !Before(x, y);
        LexTotal(x.id, y.id);
        assert false;
      }
      forall b
        ensures b in s[1..] <==> b in t[1..]
      {
        assert b in s <==> b == s[0] || b in s[1..];
        assert b in t <==> b == t[0] || b in t[1..];
      }
      OrderedUnique(s[1..], t[1..]);
      assert s == [s[0]] + s[1..] && t == [t[0]] + t[1..];
    }
  }
}
