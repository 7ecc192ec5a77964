/** Sorted selections from a keyed collection, the shape of every listing in
    the scheduling core: keep the records a filter accepts, then order them
    by a sort key. Ties between equal sort keys may come out in any order,
    as they do from a MongoDB `sort`. */
module Ordering {

  /** A record together with its identifier (MongoDB's `_id`). */
  datatype Keyed<T> = Keyed(id: nat, val: T)

  /** Any two values are comparable one way or the other: a sort order that
      may have ties. */
  ghost predicate Total<T(!new)>(le: (T, T) -> bool) {
    forall x, y :: le(x, y) || le(y, x)
  }

  ghost predicate Transitive<T(!new)>(le: (T, T) -> bool) {
    forall x, y, z :: le(x, y) && le(y, z) ==> le(x, z)
  }

  /** Each element may precede its successor. */
  predicate Sorted<T>(le: (T, T) -> bool, s: seq<T>) {
    forall i :: 0 <= i < |s| - 1 ==> le(s[i], s[i + 1])
  }

  predicate DistinctIds<T>(s: seq<Keyed<T>>) {
    forall i, j :: 0 <= i < j < |s| ==> s[i].id != s[j].id
  }

  /** Under a transitive order, neighbours in order means every pair in
      order. */
  lemma {:induction false} SortedPairwise<T(!new)>(le: (T, T) -> bool, s: seq<T>)
    requires Transitive(le) && Sorted(le, s)
    ensures forall i, j :: 0 <= i < j < |s| ==> le(s[i], s[j])
  {
    if |s| > 1 {
      SortedPairwise(le, s[1..]);
      forall i, j | 0 <= i < j < |s|
        ensures le(s[i], s[j])
      {
        if i > 0 {
          assert s[i] == s[1..][i - 1] && s[j] == s[1..][j - 1];
        } else if j > 1 {
          assert le(s[0], s[1]) && le(s[1..][0], s[1..][j - 1]);
        }
      }
    }
  }

  /** The first position whose element `x` may precede. */
  function InsertionPoint<T>(le: (T, T) -> bool, x: T, s: seq<T>): (p: nat)
    ensures p <= |s|
    ensures forall i :: 0 <= i < p ==> !le(x, s[i])
    ensures p < |s| ==> le(x, s[p])
  {
    if s == [] || le(x, s[0]) then 0 else 1 + InsertionPoint(le, x, s[1..])
  }

  /** Putting `x` where `InsertionPoint` says keeps a sequence sorted. */
  lemma SpliceSorted<T(!new)>(le: (T, T) -> bool, x: T, s: seq<T>, p: nat)
    requires Total(le) && Sorted(le, s)
    requires p <= |s| && (forall i :: 0 <= i < p ==> !le(x, s[i])) && (p < |s| ==> le(x, s[p]))
    ensures Sorted(le, s[..p] + [x] + s[p..])
  {
    var r := s[..p] + [x] + s[p..];
    forall i | 0 <= i < |r| - 1
      ensures le(r[i], r[i + 1])
    {
      if i + 1 < p {
        assert r[i] == s[i] && r[i + 1] == s[i + 1];
      } else if i + 1 == p {
        assert r[i] == s[i] && !le(x, s[i]);
      } else if i > p {
        assert r[i] == s[i - 1] && r[i + 1] == s[i];
      }
    }
  }

  lemma SpliceMultiset<T>(x: T, s: seq<T>, p: nat)
    requires p <= |s|
    ensures multiset(s[..p] + [x] + s[p..]) == multiset(s) + multiset{x}
  {
    calc {
      multiset(s[..p] + [x] + s[p..]);
      multiset(s[..p]) + multiset{x} + multiset(s[p..]);
      { assert s == s[..p] + s[p..]; }
      multiset(s) + multiset{x};
    }
  }

  /** Puts `x` into a sorted sequence, keeping it sorted. */
  function Insert<T(!new)>(le: (T, T) -> bool, x: T, s: seq<T>): (r: seq<T>)
    requires Total(le) && Sorted(le, s)
    ensures Sorted(le, r)
    ensures multiset(r) == multiset(s) + multiset{x}
  {
    var p := InsertionPoint(le, x, s);
    SpliceSorted(le, x, s, p);
    SpliceMultiset(x, s, p);
    s[..p] + [x] + s[p..]
  }

  /** Splicing in a record whose id is new keeps the ids distinct. */
  lemma SpliceKeepsIdsDistinct<T>(s: seq<Keyed<T>>, p: nat, x: Keyed<T>)
    requires p <= |s| && DistinctIds(s)
    requires forall i :: 0 <= i < |s| ==> s[i].id != x.id
    ensures DistinctIds(s[..p] + [x] + s[p..])
  {
    var r := s[..p] + [x] + s[p..];
    forall i, j | 0 <= i < j < |r|
      ensures r[i].id != r[j].id
    {
      var si := if i < p then i else i - 1;
      var sj := if j < p then j else j - 1;
      if i == p {
        assert r[j] == s[sj];
      } else if j == p {
        assert r[i] == s[si];
      } else {
        assert r[i] == s[si] && r[j] == s[sj] && si < sj;
      }
    }
  }

  /** The members after an insertion are the old ones and the new one. */
  lemma InsertMembers<T(!new)>(le: (T, T) -> bool, x: T, s: seq<T>)
    requires Total(le) && Sorted(le, s)
    ensures forall e :: e in Insert(le, x, s) <==> e in s || e == x
  {
    var r := Insert(le, x, s);
    forall e
      ensures e in r <==> e in s || e == x
    {
      assert e in r <==> e in multiset(r);
      assert e in s <==> e in multiset(s);
    }
  }

  /** `r` holds, each once, every record of `m` outside `todo` that `keep`
      accepts, and nothing else. */
  ghost predicate SelectedOutside<T>(m: map<nat, T>, keep: T -> bool, todo: set<nat>, r: seq<Keyed<T>>) {
    && (forall e :: e in r ==> e.id in m && e.id !in todo && e.val == m[e.id] && keep(e.val))
    && (forall k :: k in m && k !in todo && keep(m[k]) ==> Keyed(k, m[k]) in r)
    && DistinctIds(r)
  }

  /** One step of the selection: taking `k` out of `todo`, and inserting
      its record when `keep` accepts it. */
  lemma SelectionStep<T(!new)>(
    m: map<nat, T>, keep: T -> bool, le: (Keyed<T>, Keyed<T>) -> bool,
    todo: set<nat>, r: seq<Keyed<T>>, k: nat)
    requires Total(le) && Sorted(le, r) && SelectedOutside(m, keep, todo, r)
    requires k in todo && todo <= m.Keys
    ensures keep(m[k]) ==>
      SelectedOutside(m, keep, todo - {k}, Insert(le, Keyed(k, m[k]), r))
    ensures !keep(m[k]) ==> SelectedOutside(m, keep, todo - {k}, r)
  {
    if keep(m[k]) {
      var x := Keyed(k, m[k]);
      SpliceKeepsIdsDistinct(r, InsertionPoint(le, x, r), x);
      InsertMembers(le, x, r);
      var r' := Insert(le, x, r);
      forall e | e in r'
        ensures e.id in m && e.id !in todo - {k} && e.val == m[e.id] && keep(e.val)
      {
      }
      forall j | j in m && j !in todo - {k} && keep(m[j])
        ensures Keyed(j, m[j]) in r'
      {
      }
    }
  }

  /** Every record of `m` that `keep` accepts, each exactly once, sorted by
      `le`. */
  method SortedSelection<T(!new)>(m: map<nat, T>, keep: T -> bool, le: (Keyed<T>, Keyed<T>) -> bool)
    returns (r: seq<Keyed<T>>)
    requires Total(le)
    ensures forall i :: 0 <= i < |r| ==> r[i].id in m && r[i].val == m[r[i].id] && keep(r[i].val)
    ensures forall k :: k in m && keep(m[k]) ==> Keyed(k, m[k]) in r
    ensures DistinctIds(r)
    ensures Sorted(le, r)
  {
    r := [];
    assert SelectedOutside(m, keep, m.Keys, r);
    var todo := m.Keys;
    while todo != {}
      invariant todo <= m.Keys
      invariant SelectedOutside(m, keep, todo, r)
      invariant Sorted(le, r)
      decreases todo
    {
      var k :| k in todo;
      SelectionStep(m, keep, le, todo, r, k);
      if keep(m[k]) {
        r := Insert(le, Keyed(k, m[k]), r);
      }
      todo := todo - {k};
    }
  }
}
