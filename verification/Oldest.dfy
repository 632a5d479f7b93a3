/** Taking the oldest of a set of rows, as `ORDER BY created_at LIMIT n` does; ties fall either way. */
module Oldest {
  type Time = int

  predicate NotYounger(created: map<nat, Time>, i: nat, j: nat) {
    i in created && j in created && created[i] <= created[j]
  }

  /** As many of the candidates as the limit allows, none younger than one left out. */
  ghost predicate OldestOf(created: map<nat, Time>, candidates: set<nat>, limit: nat, ids: set<nat>) {
    && ids <= candidates
    && |ids| == (if |candidates| < limit then |candidates| else limit)
    && forall i, j :: i in ids && j in candidates && j !in ids ==> NotYounger(created, i, j)
  }

  function IdSet(ids: seq<nat>): set<nat> {
    set id | id in ids
  }

  predicate Distinct(ids: seq<nat>) {
    forall i, j :: 0 <= i < j < |ids| ==> ids[i] != ids[j]
  }

  lemma IdSetGrows(ids: seq<nat>, id: nat)
    ensures IdSet(ids + [id]) == IdSet(ids) + {id}
  {
  }

  lemma {:induction false} DistinctSize(ids: seq<nat>)
    requires Distinct(ids)
    ensures |IdSet(ids)| == |ids|
  {
    if ids != [] {
      var last := |ids| - 1;
      DistinctSize(ids[..last]);
      assert ids == ids[..last] + [ids[last]];
      IdSetGrows(ids[..last], ids[last]);
    }
  }

  predicate IsOldest(created: map<nat, Time>, ids: set<nat>, id: nat) {
    id in ids && forall j :: j in ids ==> NotYounger(created, id, j)
  }

  lemma {:induction false} OldestExists(created: map<nat, Time>, ids: set<nat>)
    requires ids != {} && ids <= created.Keys
    ensures exists id :: IsOldest(created, ids, id)
  {
    var x :| x in ids;
    var others := ids - {x};
    assert forall j :: j in ids ==> j == x || j in others;
    if others == {} {
      assert IsOldest(created, ids, x);
    } else {
      OldestExists(created, others);
      var y :| IsOldest(created, others, y);
      assert IsOldest(created, ids, if NotYounger(created, x, y) then x else y);
    }
  }

  method Pick(created: map<nat, Time>, candidates: set<nat>, limit: nat) returns (ids: seq<nat>)
    requires candidates <= created.Keys
    ensures Distinct(ids) && OldestOf(created, candidates, limit, IdSet(ids))
  {
    ids := [];
    var rest := candidates;
    while rest != {} && |ids| < limit
      invariant Distinct(ids) && |ids| <= limit && |ids| + |rest| == |candidates|
      invariant rest <= candidates && IdSet(ids) == candidates - rest
      invariant forall i, j :: i in candidates - rest && j in rest ==> NotYounger(created, i, j)
      decreases |rest|
    {
      OldestExists(created, rest);
      var id :| IsOldest(created, rest, id);
      assert id !in IdSet(ids);
      IdSetGrows(ids, id);
      ids := ids + [id];
      rest := rest - {id};
    }
    DistinctSize(ids);
  }

  function Smaller(a: int, b: int): int {
    if a < b then a else b
  }

  /** Candidates that are older than all the others are taken first. */
  lemma EarlyOnesComeFirst(created: map<nat, Time>, candidates: set<nat>, limit: nat, ids: set<nat>, early: set<nat>)
    requires OldestOf(created, candidates, limit, ids) && early <= candidates
    requires forall i, j :: i in early && j in candidates && j !in early ==> !NotYounger(created, j, i)
    ensures |ids * early| == Smaller(|early|, limit)
  {
    if early <= ids {
      assert ids * early == early;
      SubsetSize(early, ids);
    } else {
      var e :| e in early && e !in ids;
      assert forall i :: i in ids ==> NotYounger(created, i, e);
      assert ids <= early && ids * early == ids;
      SubsetSmaller(ids, candidates, e);
      SubsetSize(ids, early);
    }
  }

  /** With distinct creation times the choice is forced. */
  lemma OldestIsUnique(created: map<nat, Time>, candidates: set<nat>, limit: nat, a: set<nat>, b: set<nat>)
    requires OldestOf(created, candidates, limit, a) && OldestOf(created, candidates, limit, b)
    requires forall i, j :: i in candidates && j in candidates && i in created && j in created && i != j ==> created[i] != created[j]
    ensures a == b
  {
    if a != b {
      var i, j := Difference(a, b);
    }
  }

  lemma Difference(a: set<nat>, b: set<nat>) returns (i: nat, j: nat)
    requires |a| == |b| && a != b
    ensures i in a && i !in b && j in b && j !in a
  {
    if a <= b {
      var x :| x in b && x !in a;
      SubsetSmaller(a, b, x);
    } else if b <= a {
      var x :| x in a && x !in b;
      SubsetSmaller(b, a, x);
    }
    i :| i in a && i !in b;
    j :| j in b && j !in a;
  }

  lemma SubsetSmaller(small: set<nat>, large: set<nat>, x: nat)
    requires small <= large && x in large && x !in small
    ensures |small| < |large|
  {
    SubsetSize(small, large - {x});
  }

  lemma {:induction false} SubsetSize(small: set<nat>, large: set<nat>)
    requires small <= large
    ensures |small| <= |large|
  {
    if small != {} {
      var x :| x in small;
      SubsetSize(small - {x}, large - {x});
    }
  }

  lemma SameSize(a: set<nat>, b: set<nat>)
    requires a <= b && |a| == |b|
    ensures a == b
  {
    if x :| x in b && x !in a {
      SubsetSmaller(a, b, x);
    }
  }
}
