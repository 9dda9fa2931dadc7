/** Writing one snapshot and everything it depends on into a job's workspace. */
module Materialization {
  import opened Snapshots

  ghost predicate Distinct(s: seq<Id>) {
    forall j, k :: 0 <= j < k < |s| ==> s[j] != s[k]
  }

  /** Every row comes after everything it depends on. */
  ghost predicate Finished(table: Table, order: seq<Id>) {
    && Distinct(order)
    && forall k, j :: 0 <= k < |order| && Edge(table, order[k], j) ==> j in order[..k]
  }

  /** What is written: the rows whose subtree is finished, and those still open above. */
  ghost predicate Tracks(table: Table, root: Id, written: seq<Id>, ids: set<Id>, names: map<string, Id>,
                         order: seq<Id>, open: seq<Id>) {
    && Distinct(written)
    && (forall w :: w in written <==> w in ids)
    && (forall w :: w in ids <==> w in order || w in open)
    && (forall w :: w in order ==> w !in open)
    && (forall w :: w in ids ==>
          Reaches(table, root, w) && IsRow(table, w) && table[w].name in names && names[table[w].name] == w)
    && (forall n :: n in names ==> names[n] in ids && IsRow(table, names[n]) && table[names[n]].name == n)
    && (forall w :: w in order ==> Sound(table, w))
    && Finished(table, order)
  }

  ghost predicate ActiveNames(table: Table, open: seq<Id>, active: set<string>) {
    && (forall k :: 0 <= k < |open| ==> IsRow(table, open[k]) && table[open[k]].name in active)
    && (forall n :: n in active ==> exists k :: 0 <= k < |open| && IsRow(table, open[k]) && table[open[k]].name == n)
  }

  lemma {:induction false} NewActive(table: Table, open: seq<Id>, active: set<string>, i: Id)
    requires ActiveNames(table, open, active) && IsRow(table, i)
    ensures ActiveNames(table, open + [i], active + {table[i].name})
  {
    var longer := open + [i];
    forall n | n in active + {table[i].name}
      ensures exists k :: 0 <= k < |longer| && IsRow(table, longer[k]) && table[longer[k]].name == n
    {
      if n in active {
        var k :| 0 <= k < |open| && IsRow(table, open[k]) && table[open[k]].name == n;
        assert longer[k] == open[k];
      } else {
        assert longer[|open|] == i;
      }
    }
  }

  lemma {:induction false} ActiveNameRepeats(table: Table, open: seq<Id>, active: set<string>, i: Id)
    requires IsPath(table, open + [i]) && ActiveNames(table, open, active) && IsRow(table, i) && table[i].name in active
    ensures !Materializable(table, (open + [i])[0])
  {
    var k :| 0 <= k < |open| && IsRow(table, open[k]) && table[open[k]].name == table[i].name;
    RepeatedName(table, open + [i], k, |open|);
  }

  lemma {:induction false} Opened(table: Table, root: Id, written: seq<Id>, ids: set<Id>, names: map<string, Id>,
      order: seq<Id>, open: seq<Id>, i: Id)
    requires Tracks(table, root, written, ids, names, order, open)
    requires Reaches(table, root, i) && IsRow(table, i) && i !in ids
    requires table[i].name !in names
    ensures Tracks(table, root, written + [i], ids + {i}, names[table[i].name := i], order, open + [i])
  {
  }

  /** Once everything it depends on is finished, an open row is finished. */
  lemma {:induction false} Closed(table: Table, root: Id, written: seq<Id>, ids: set<Id>, names: map<string, Id>,
      order: seq<Id>, open: seq<Id>, i: Id)
    requires Tracks(table, root, written, ids, names, order, open + [i]) && i !in open
    requires Sound(table, i) && forall j :: Edge(table, i, j) ==> j in order
    ensures Tracks(table, root, written, ids, names, order + [i], open)
  {
    FinishedGrows(table, order, i);
  }

  lemma {:induction false} FinishedGrows(table: Table, order: seq<Id>, i: Id)
    requires Finished(table, order) && i !in order && forall j :: Edge(table, i, j) ==> j in order
    ensures Finished(table, order + [i])
  {
    var longer := order + [i];
    forall k, j | 0 <= k < |longer| && Edge(table, longer[k], j)
      ensures j in longer[..k]
    {
      if k < |order| {
        assert longer[..k] == order[..k];
      } else {
        assert longer[..k] == order;
      }
    }
  }

  /** A row that is written and not open above is finished. */
  lemma {:induction false} WrittenIsFinished(table: Table, root: Id, written: seq<Id>, ids: set<Id>,
      names: map<string, Id>, order: seq<Id>, open: seq<Id>, active: set<string>, i: Id)
    requires Tracks(table, root, written, ids, names, order, open) && ActiveNames(table, open, active)
    requires i in ids && IsRow(table, i) && table[i].name !in active
    ensures i in order
  {
  }

  lemma {:induction false} NameIsTaken(table: Table, root: Id, written: seq<Id>, ids: set<Id>, names: map<string, Id>,
      order: seq<Id>, open: seq<Id>, i: Id)
    requires Tracks(table, root, written, ids, names, order, open) && Reaches(table, root, i) && IsRow(table, i)
    requires table[i].name in names && names[table[i].name] != i
    ensures !Materializable(table, root)
  {
    SharedNameFails(table, root, i, names[table[i].name]);
  }

  /** The first `n` dependencies of `i` are usable and in `order`. */
  ghost predicate Reached(table: Table, i: Id, dependencies: seq<Dependency>, n: nat, order: seq<Id>)
    requires IsRow(table, i) && n <= |dependencies|
  {
    forall k :: 0 <= k < n ==> Usable(table, i, dependencies[k]) && Child(table, i, dependencies[k]).value in order
  }

  lemma {:induction false} OneMoreReached(table: Table, i: Id, dependencies: seq<Dependency>, n: nat, order: seq<Id>,
      order': seq<Id>)
    requires IsRow(table, i) && n < |dependencies| && Reached(table, i, dependencies, n, order)
    requires Usable(table, i, dependencies[n]) && Child(table, i, dependencies[n]).value in order'
    requires forall w :: w in order ==> w in order'
    ensures Reached(table, i, dependencies, n + 1, order')
  {
  }

  lemma {:induction false} WayToChild(table: Table, root: Id, open: seq<Id>, i: Id, d: Dependency)
    requires Joins(table, open, root, i) && IsRow(table, i) && d in DependenciesOf(table[i]) && Usable(table, i, d)
    ensures Joins(table, open + [Child(table, i, d).value], root, Child(table, i, d).value)
  {
    assert Edge(table, i, Child(table, i, d).value);
    PathExtends(table, open, Child(table, i, d).value);
  }

  lemma {:induction false} UnusableFails(table: Table, root: Id, open: seq<Id>, i: Id, d: Dependency)
    requires Joins(table, open, root, i) && IsRow(table, i) && d in DependenciesOf(table[i]) && !Usable(table, i, d)
    ensures !Materializable(table, root)
  {
    assert Reaches(table, root, i);
    UnsoundFails(table, root, i);
  }

  lemma {:induction false} AllReached(table: Table, i: Id, order: seq<Id>)
    requires IsRow(table, i) && table[i].intact && !table[i].dependencies.Null?
    requires Reached(table, i, DependenciesOf(table[i]), |DependenciesOf(table[i])|, order)
    ensures Sound(table, i) && forall j :: Edge(table, i, j) ==> j in order
  {
  }

  class Workspace {
    var written: seq<Id>
    var ids: set<Id>
    var names: map<string, Id>
    ghost var order: seq<Id>

    constructor ()
      ensures written == [] && ids == {} && names == map[] && order == []
    {
      written, ids, names, order := [], {}, map[], [];
    }

    /** What this call promises: on success `i` is finished and all that was stays so;
        a failure is not accidental. */
    ghost predicate Progress(table: Table, root: Id, open: seq<Id>, before: seq<Id>)
      reads this
    {
      Tracks(table, root, written, ids, names, order, open) && forall w :: w in before ==> w in order
    }

    /** The depth-first walk.  `open` is the way from the root to `i`. */
    method Materialize(table: Table, ghost root: Id, i: Id, active: set<string>, ghost open: seq<Id>) returns (ok: bool)
      requires Joins(table, open + [i], root, i)
      requires ActiveNames(table, open, active)
      requires Tracks(table, root, written, ids, names, order, open)
      modifies this
      ensures ok ==> Progress(table, root, open, old(order)) && i in order
      ensures !ok ==> !Materializable(table, root)
      decreases Names(table) - active, 1
    {
      var row := table[i];
      if row.name in active {
        ActiveNameRepeats(table, open, active, i);
        return false;
      }
      assert Reaches(table, root, i);
      if row.name in names && names[row.name] != i {
        NameIsTaken(table, root, written, ids, names, order, open, i);
        return false;
      }
      if i in ids {
        WrittenIsFinished(table, root, written, ids, names, order, open, active, i);
        return true;
      }
      if !row.intact {
        UnsoundFails(table, root, i);
        return false;
      }
      Opened(table, root, written, ids, names, order, open, i);
      written, ids, names := written + [i], ids + {i}, names[row.name := i];
      if row.dependencies.Null? {
        UnsoundFails(table, root, i);
        return false;
      }
      NewActive(table, open, active, i);
      ok := MaterializeDependencies(table, root, i, active + {row.name}, open + [i]);
      if ok {
        AllReached(table, i, order);
        Closed(table, root, written, ids, names, order, open, i);
        order := order + [i];
      }
    }

    method MaterializeDependencies(table: Table, ghost root: Id, i: Id, active: set<string>, ghost open: seq<Id>)
      returns (ok: bool)
      requires Joins(table, open, root, i) && IsRow(table, i)
      requires ActiveNames(table, open, active)
      requires Tracks(table, root, written, ids, names, order, open)
      modifies this
      ensures ok ==> Progress(table, root, open, old(order))
      ensures ok ==> Reached(table, i, DependenciesOf(table[i]), |DependenciesOf(table[i])|, order)
      ensures !ok ==> !Materializable(table, root)
      decreases Names(table) - active, 2
    {
      var dependencies := DependenciesOf(table[i]);
      ghost var before := order;
      ok := true;
      var n := 0;
      while n < |dependencies|
        invariant n <= |dependencies|
        invariant Progress(table, root, open, before)
        invariant Reached(table, i, dependencies, n, order)
      {
        var d := dependencies[n];
        if !Usable(table, i, d) {
          UnusableFails(table, root, open, i, d);
          return false;
        }
        WayToChild(table, root, open, i, d);
        ghost var sofar := order;
        ok := Materialize(table, root, Child(table, i, d).value, active, open);
        if !ok {
          return;
        }
        OneMoreReached(table, i, dependencies, n, sofar, order);
        n := n + 1;
      }
      ok := true;
    }
  }

  // ---- What a finished walk means ----

  /** Along a path the positions in a finished order fall, step by step. */
  lemma {:induction false} PositionsFall(table: Table, order: seq<Id>, path: seq<Id>, r: nat) returns (last: nat)
    requires Finished(table, order) && IsPath(table, path) && r < |order| && order[r] == path[0]
    ensures last < |order| && order[last] == path[|path| - 1] && last <= r && (|path| > 1 ==> last < r)
    decreases |path|
  {
    last := r;
    if |path| > 1 {
      assert Edge(table, path[0], path[1]);
      assert path[1] in order[..r];
      var next :| 0 <= next < r && order[next] == path[1];
      Subpath(table, path, 1, |path| - 1);
      assert path[1..|path|] == path[1..];
      last := PositionsFall(table, order, path[1..], next);
    }
  }

  lemma {:induction false} ReachableIsFinished(table: Table, order: seq<Id>, root: Id, j: Id)
    requires Finished(table, order) && root in order && Reaches(table, root, j)
    ensures j in order
  {
    var path :| Joins(table, path, root, j);
    var r :| 0 <= r < |order| && order[r] == root;
    var last := PositionsFall(table, order, path, r);
  }

  lemma {:induction false} FinishedIsAcyclic(table: Table, order: seq<Id>, j: Id)
    requires Finished(table, order) && j in order
    ensures !OnCycle(table, j)
  {
    if OnCycle(table, j) {
      var path :| |path| > 1 && Joins(table, path, j, j);
      var r :| 0 <= r < |order| && order[r] == j;
      var last := PositionsFall(table, order, path, r);
      assert false;
    }
  }

  /** A walk that comes back with nothing open has written exactly what is reachable, and
      there was nothing against writing it. */
  lemma {:induction false} FinishedWalk(table: Table, root: Id, written: seq<Id>, ids: set<Id>,
      names: map<string, Id>, order: seq<Id>)
    requires Tracks(table, root, written, ids, names, order, []) && root in order
    ensures forall j :: j in written <==> Reaches(table, root, j)
    ensures Materializable(table, root)
  {
    forall j | Reaches(table, root, j)
      ensures j in order && !OnCycle(table, j)
    {
      ReachableIsFinished(table, order, root, j);
      FinishedIsAcyclic(table, order, j);
    }
  }

  /** Of what can be materialized, no dependency path repeats a name. */
  lemma {:induction false} NoNameRepeats(table: Table, path: seq<Id>, j: nat, k: nat)
    requires IsPath(table, path) && Materializable(table, path[0]) && j < k < |path|
    ensures table[path[j]].name != table[path[k]].name
  {
    if table[path[j]].name == table[path[k]].name {
      RepeatedName(table, path, j, k);
    }
  }
}
