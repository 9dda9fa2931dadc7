/** Materializing the snapshot a job was stamped with, and why later snapshots cannot
    change what the job runs. */
module SnapshotExecution {
  import opened Results
  import opened Snapshots
  import opened Materialization
  import opened ExecutionHash
  import opened HashIdentity

  /** The row created last among those with the content hash. */
  function Latest(table: Table, contentHash: string): (found: Option<Id>)
    ensures found.Some? ==> IsRow(table, found.value) && table[found.value].contentHash == contentHash
  {
    if table == [] then None else
      var n := |table| - 1;
      if table[n].contentHash == contentHash then Some(n) else Latest(table[..n], contentHash)
  }

  /** The row that a job's reference names, if it is the right skill's. */
  function Referenced(table: Table, name: string, contentHash: Option<string>, id: Option<Id>): (found: Option<Id>)
    ensures found.Some? ==> IsRow(table, found.value)
  {
    var row := match id
      case Some(i) => if IsRow(table, i) then Some(i) else None
      case None => match contentHash case Some(h) => Latest(table, h) case None => None;
    if row.None? || table[row.value].name != name then None
    else if contentHash.Some? && table[row.value].contentHash != contentHash.value then None
    else row
  }

  lemma {:induction false} LatestIs(table: Table, contentHash: string, i: Id)
    ensures Latest(table, contentHash) == Some(i) <==>
              && IsRow(table, i) && table[i].contentHash == contentHash
              && forall j :: i < j < |table| ==> table[j].contentHash != contentHash
  {
    if table != [] {
      var n := |table| - 1;
      LatestIs(table[..n], contentHash, i);
    }
  }

  /** A reference is to the row of the id, or else to the newest row of the content hash; it
      must have the job's skill name, and the hash if one is given. */
  lemma {:induction false} ReferenceIs(table: Table, name: string, contentHash: Option<string>, id: Option<Id>, i: Id)
    ensures Referenced(table, name, contentHash, id) == Some(i) <==>
              && IsRow(table, i) && table[i].name == name
              && (contentHash.Some? ==> table[i].contentHash == contentHash.value)
              && (match id
                  case Some(asked) => i == asked
                  case None =>
                    contentHash.Some? && forall j :: i < j < |table| ==> table[j].contentHash != contentHash.value)
  {
    if id.None? && contentHash.Some? {
      LatestIs(table, contentHash.value, i);
    }
  }

  /** Writes a workspace exactly when the reference resolves, the execution hash is the
      stamped one and nothing reachable is at fault; then writes all that is reachable. */
  method MaterializeSnapshot(digest: Payload -> Hash, table: Table, name: string, contentHash: Option<string>,
      id: Option<Id>, executionHash: Option<Hash>)
    returns (written: Result<seq<Id>>)
    ensures var root := Referenced(table, name, contentHash, id);
            written.Success? <==>
              && root.Some? && Materializable(table, root.value)
              && (executionHash.Some? ==> WorkerHash(digest, table, root.value, {}) == Success(executionHash.value))
    ensures written.Success? ==> Distinct(written.value)
    ensures written.Success? ==>
              forall j :: j in written.value <==> Reaches(table, Referenced(table, name, contentHash, id).value, j)
  {
    var root := Referenced(table, name, contentHash, id);
    if root.None? {
      return Failure(Rejected);
    }
    SelfReaches(table, root.value);
    if !table[root.value].intact {
      UnsoundFails(table, root.value, root.value);
      return Failure(Rejected);
    }
    if executionHash.Some? && WorkerHash(digest, table, root.value, {}) != Success(executionHash.value) {
      return Failure(Rejected);
    }
    var workspace := new Workspace();
    assert [] + [root.value] == [root.value];
    var ok := workspace.Materialize(table, root.value, root.value, {}, []);
    if !ok {
      return Failure(Rejected);
    }
    FinishedWalk(table, root.value, workspace.written, workspace.ids, workspace.names, workspace.order);
    return Success(workspace.written);
  }

  // ---- Pinned dependencies ----

  /** Every dependency is pinned to a row that is there. */
  ghost predicate Pinned(table: Table) {
    forall i, d :: 0 <= i < |table| && d in DependenciesOf(table[i]) ==> PinnedTo(table, i, d)
  }

  predicate PinnedTo(table: Table, i: Id, d: Dependency)
    requires IsRow(table, i)
  {
    d.name.Some? ==> d.name.value in table[i].pinned && IsRow(table, table[i].pinned[d.name.value])
  }

  lemma {:induction false} PinnedChild(table: Table, more: Table, i: Id, d: Dependency)
    requires IsRow(table, i) && PinnedTo(table, i, d)
    ensures Child(table + more, i, d) == Child(table, i, d)
  {
  }

  lemma {:induction false} PinnedEdges(table: Table, more: Table, i: Id, j: Id)
    requires Pinned(table) && IsRow(table, i)
    ensures Edge(table + more, i, j) <==> Edge(table, i, j)
  {
    assert (table + more)[i] == table[i];
    forall d | d in DependenciesOf(table[i])
      ensures Child(table + more, i, d) == Child(table, i, d)
    {
      assert PinnedTo(table, i, d);
      PinnedChild(table, more, i, d);
    }
  }

  /** A path that starts among the old rows stays among them. */
  lemma {:induction false} PinnedPath(table: Table, more: Table, path: seq<Id>, a: Id, b: Id)
    requires Pinned(table) && IsRow(table, a)
    ensures Joins(table + more, path, a, b) <==> Joins(table, path, a, b)
    decreases |path|
  {
    if |path| > 1 && path[0] == a {
      var rest := path[1..];
      PinnedEdges(table, more, a, path[1]);
      if Edge(table, a, path[1]) {
        EdgeIsRow(table, a, path[1]);
        PinnedPath(table, more, rest, path[1], b);
        PathSplits(table, path);
        PathSplits(table + more, path);
      } else {
        assert path[1] == path[0 + 1];
      }
    }
  }

  lemma {:induction false} PathSplits(table: Table, path: seq<Id>)
    requires |path| > 1
    ensures IsPath(table, path) <==> IsRow(table, path[0]) && Edge(table, path[0], path[1]) && IsPath(table, path[1..])
  {
    var rest := path[1..];
    if IsPath(table, path) {
      Subpath(table, path, 1, |path| - 1);
      assert path[1..|path|] == rest;
    }
    if IsRow(table, path[0]) && Edge(table, path[0], path[1]) && IsPath(table, rest) {
      forall k | 0 <= k < |path|
        ensures IsRow(table, path[k])
      {
        assert k > 0 ==> path[k] == rest[k - 1];
      }
      forall k | 0 <= k < |path| - 1
        ensures Edge(table, path[k], path[k + 1])
      {
        if k > 0 {
          assert Edge(table, rest[k - 1], rest[k]);
        }
      }
    }
  }

  lemma {:induction false} PinnedReaches(table: Table, more: Table, a: Id, b: Id)
    requires Pinned(table) && IsRow(table, a)
    ensures Reaches(table + more, a, b) <==> Reaches(table, a, b)
  {
    if Reaches(table, a, b) {
      var path :| Joins(table, path, a, b);
      PinnedPath(table, more, path, a, b);
    }
    if Reaches(table + more, a, b) {
      var path :| Joins(table + more, path, a, b);
      PinnedPath(table, more, path, a, b);
    }
  }

  lemma {:induction false} PinnedTree(table: Table, more: Table, i: Id, active: set<string>)
    requires Pinned(table) && IsRow(table, i)
    ensures TreeOf(table + more, i, active) == TreeOf(table, i, active)
    decreases Names(table) - active, 0
  {
    assert (table + more)[i] == table[i];
    if table[i].name !in active {
      PinnedBranches(table, more, i, DependenciesOf(table[i]), active + {table[i].name});
    }
  }

  lemma {:induction false} PinnedBranches(table: Table, more: Table, i: Id, dependencies: seq<Dependency>,
      active: set<string>)
    requires Pinned(table) && IsRow(table, i) && forall d :: d in dependencies ==> d in DependenciesOf(table[i])
    ensures BranchesOf(table + more, i, dependencies, active) == BranchesOf(table, i, dependencies, active)
    decreases Names(table) - active, |dependencies| + 1
  {
    if dependencies != [] {
      var d := dependencies[0];
      assert PinnedTo(table, i, d);
      PinnedChild(table, more, i, d);
      var child := Child(table, i, d);
      if child.Some? {
        assert (table + more)[child.value] == table[child.value];
        PinnedTree(table, more, child.value, active);
        PinnedBranches(table, more, i, dependencies[1..], active);
      }
    }
  }

  lemma {:induction false} PinnedSound(table: Table, more: Table, i: Id)
    requires Pinned(table) && IsRow(table, i)
    ensures Sound(table + more, i) <==> Sound(table, i)
  {
    assert (table + more)[i] == table[i];
    forall d | d in DependenciesOf(table[i])
      ensures Usable(table + more, i, d) <==> Usable(table, i, d)
    {
      assert PinnedTo(table, i, d);
      PinnedChild(table, more, i, d);
    }
  }

  lemma {:induction false} PinnedCycles(table: Table, more: Table, i: Id)
    requires Pinned(table) && IsRow(table, i)
    ensures OnCycle(table + more, i) <==> OnCycle(table, i)
  {
    if OnCycle(table, i) {
      var path :| |path| > 1 && Joins(table, path, i, i);
      PinnedPath(table, more, path, i, i);
    }
    if OnCycle(table + more, i) {
      var path :| |path| > 1 && Joins(table + more, path, i, i);
      PinnedPath(table, more, path, i, i);
    }
  }

  lemma {:induction false} ReachedIsRow(table: Table, a: Id, b: Id)
    requires Reaches(table, a, b)
    ensures IsRow(table, a) && IsRow(table, b)
  {
    var path :| Joins(table, path, a, b);
  }

  /** Snapshots recorded later change neither what a stamped job materializes, nor
      whether it can, nor its execution hash. */
  lemma {:induction false} LaterSnapshotsChangeNothing(digest: Payload -> Hash, table: Table, more: Table, root: Id)
    requires Pinned(table) && IsRow(table, root)
    ensures forall j :: Reaches(table + more, root, j) <==> Reaches(table, root, j)
    ensures Materializable(table + more, root) <==> Materializable(table, root)
    ensures WorkerHash(digest, table + more, root, {}) == WorkerHash(digest, table, root, {})
  {
    forall j
      ensures Reaches(table + more, root, j) <==> Reaches(table, root, j)
    {
      PinnedReaches(table, more, root, j);
    }
    forall j: Id | Reaches(table, root, j)
      ensures IsRow(table, j) && (table + more)[j] == table[j]
      ensures Sound(table + more, j) <==> Sound(table, j)
      ensures OnCycle(table + more, j) <==> OnCycle(table, j)
    {
      ReachedIsRow(table, root, j);
      PinnedSound(table, more, j);
      PinnedCycles(table, more, j);
    }
    PinnedTree(table, more, root, {});
    HashIsOfNormalTree(digest, table, root, {});
    HashIsOfNormalTree(digest, table + more, root, {});
  }
}
