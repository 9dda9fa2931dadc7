/** The dependency-aware identity of a snapshot, computed once by the API and once by
    the worker. */
module ExecutionHash {
  import opened CodePointOrder
  import opened Results
  import opened Snapshots

  type Hash = string

  datatype Component = Component(id: string, contentHash: string, executionHash: Hash)

  /** What is serialized and digested. */
  datatype Payload = Payload(contentHash: string, dependencies: seq<Component>)

  predicate KeyPrecedes(a: Component, b: Component) {
    if a.id != b.id then Precedes(a.id, b.id) else Precedes(a.contentHash, b.contentHash)
  }

  function InsertComponent(x: Component, s: seq<Component>): seq<Component> {
    if s == [] then [x]
    else if KeyPrecedes(x, s[0]) then [x] + s
    else [s[0]] + InsertComponent(x, s[1..])
  }

  /** The stable sort by name and content hash. */
  function SortComponents(s: seq<Component>): seq<Component> {
    if s == [] then [] else InsertComponent(s[0], SortComponents(s[1..]))
  }

  // ---- The API's hash ----

  function ApiHash(digest: Payload -> Hash, table: Table, i: Id, active: set<string>): Result<Hash>
    requires IsRow(table, i)
    decreases Names(table) - active, 0
  {
    var row := table[i];
    if row.name in active || row.dependencies.Null? then Failure(Rejected) else
      match ApiComponents(digest, table, i, DependenciesOf(row), active + {row.name})
      case Failure(e) => Failure(e)
      case Success(components) => Success(digest(Payload(row.contentHash, SortComponents(components))))
  }

  function ApiComponents(digest: Payload -> Hash, table: Table, i: Id, dependencies: seq<Dependency>,
      active: set<string>)
    : Result<seq<Component>>
    requires IsRow(table, i)
    decreases Names(table) - active, |dependencies| + 1
  {
    if dependencies == [] then Success([]) else
      match Child(table, i, dependencies[0])
      case None => Failure(Rejected)
      case Some(j) =>
        match ApiHash(digest, table, j, active)
        case Failure(e) => Failure(e)
        case Success(h) =>
          match ApiComponents(digest, table, i, dependencies[1..], active)
          case Failure(e) => Failure(e)
          case Success(rest) => Success([Component(table[j].name, table[j].contentHash, h)] + rest)
  }

  // ---- The worker's hash: a null list of dependencies is an empty one ----

  function WorkerHash(digest: Payload -> Hash, table: Table, i: Id, active: set<string>): Result<Hash>
    requires IsRow(table, i)
    decreases Names(table) - active, 0
  {
    var row := table[i];
    if row.name in active then Failure(Rejected) else
      match WorkerComponents(digest, table, i, DependenciesOf(row), active + {row.name})
      case Failure(e) => Failure(e)
      case Success(components) => Success(digest(Payload(row.contentHash, SortComponents(components))))
  }

  function WorkerComponents(digest: Payload -> Hash, table: Table, i: Id, dependencies: seq<Dependency>,
      active: set<string>)
    : Result<seq<Component>>
    requires IsRow(table, i)
    decreases Names(table) - active, |dependencies| + 1
  {
    if dependencies == [] then Success([]) else
      match Child(table, i, dependencies[0])
      case None => Failure(Rejected)
      case Some(j) =>
        match WorkerHash(digest, table, j, active)
        case Failure(e) => Failure(e)
        case Success(h) =>
          match WorkerComponents(digest, table, i, dependencies[1..], active)
          case Failure(e) => Failure(e)
          case Success(rest) => Success([Component(table[j].name, table[j].contentHash, h)] + rest)
  }

  // ---- Agreement ----

  ghost predicate ListsOnly(table: Table, root: Id) {
    forall j: Id :: Reaches(table, root, j) && IsRow(table, j) ==> !table[j].dependencies.Null?
  }

  lemma {:induction false} SelfReaches(table: Table, i: Id)
    requires IsRow(table, i)
    ensures Reaches(table, i, i)
  {
    assert Joins(table, [i], i, i);
  }

  lemma {:induction false} ReachesThrough(table: Table, i: Id, j: Id, k: Id)
    requires IsRow(table, i) && Edge(table, i, j) && Reaches(table, j, k)
    ensures Reaches(table, i, k)
  {
    var path :| Joins(table, path, j, k);
    var longer := [i] + path;
    forall m | 0 <= m < |longer| - 1
      ensures Edge(table, longer[m], longer[m + 1])
    {
      if m > 0 {
        assert Edge(table, path[m - 1], path[m]);
      }
    }
    assert Joins(table, longer, i, k);
  }

  lemma {:induction false} ListsOnlyBelow(table: Table, i: Id, j: Id)
    requires IsRow(table, i) && Edge(table, i, j) && ListsOnly(table, i)
    ensures ListsOnly(table, j)
  {
    forall k: Id | Reaches(table, j, k) && IsRow(table, k)
      ensures !table[k].dependencies.Null?
    {
      ReachesThrough(table, i, j, k);
    }
  }

  /** With lists throughout, the two hashes agree, in value and in failure. */
  lemma {:induction false} HashesAgree(digest: Payload -> Hash, table: Table, i: Id, active: set<string>)
    requires IsRow(table, i) && ListsOnly(table, i)
    ensures ApiHash(digest, table, i, active) == WorkerHash(digest, table, i, active)
    decreases Names(table) - active, 0
  {
    SelfReaches(table, i);
    if table[i].name !in active {
      ComponentsAgree(digest, table, i, DependenciesOf(table[i]), active + {table[i].name});
    }
  }

  lemma {:induction false} ComponentsAgree(digest: Payload -> Hash, table: Table, i: Id,
      dependencies: seq<Dependency>, active: set<string>)
    requires IsRow(table, i) && ListsOnly(table, i)
    requires forall d :: d in dependencies ==> d in DependenciesOf(table[i])
    ensures ApiComponents(digest, table, i, dependencies, active) ==
              WorkerComponents(digest, table, i, dependencies, active)
    decreases Names(table) - active, |dependencies| + 1
  {
    if dependencies != [] {
      var child := Child(table, i, dependencies[0]);
      if child.Some? {
        assert Edge(table, i, child.value);
        ListsOnlyBelow(table, i, child.value);
        HashesAgree(digest, table, child.value, active);
        ComponentsAgree(digest, table, i, dependencies[1..], active);
      }
    }
  }

  /** What the API hashes has lists throughout, and the worker hashes it the same. */
  lemma {:induction false} ApiHashNeedsLists(digest: Payload -> Hash, table: Table, i: Id, active: set<string>,
      path: seq<Id>)
    requires IsRow(table, i) && ApiHash(digest, table, i, active).Success?
    requires IsPath(table, path) && path[0] == i
    ensures !table[path[|path| - 1]].dependencies.Null?
    decreases Names(table) - active, 0
  {
    if |path| > 1 {
      assert Edge(table, path[0], path[1]);
      var d :| d in DependenciesOf(table[i]) && Child(table, i, d) == Some(path[1]);
      ComponentsNeedHashes(digest, table, i, DependenciesOf(table[i]), active + {table[i].name}, d);
      Subpath(table, path, 1, |path| - 1);
      assert path[1..|path|] == path[1..];
      ApiHashNeedsLists(digest, table, path[1], active + {table[i].name}, path[1..]);
    }
  }

  lemma {:induction false} ComponentsNeedHashes(digest: Payload -> Hash, table: Table, i: Id,
      dependencies: seq<Dependency>, active: set<string>, d: Dependency)
    requires IsRow(table, i) && d in dependencies && ApiComponents(digest, table, i, dependencies, active).Success?
    ensures Child(table, i, d).Some? && ApiHash(digest, table, Child(table, i, d).value, active).Success?
  {
    if d != dependencies[0] {
      ComponentsNeedHashes(digest, table, i, dependencies[1..], active, d);
    }
  }

  /** The API accepts exactly what the worker accepts with no null among what it reaches. */
  lemma {:induction false} ApiAcceptsIff(digest: Payload -> Hash, table: Table, i: Id)
    requires IsRow(table, i)
    ensures ApiHash(digest, table, i, {}).Success? <==> WorkerHash(digest, table, i, {}).Success? && ListsOnly(table, i)
    ensures ApiHash(digest, table, i, {}).Success? ==> WorkerHash(digest, table, i, {}) == ApiHash(digest, table, i, {})
  {
    if ApiHash(digest, table, i, {}).Success? {
      forall j: Id | Reaches(table, i, j) && IsRow(table, j)
        ensures !table[j].dependencies.Null?
      {
        var path :| Joins(table, path, i, j);
        ApiHashNeedsLists(digest, table, i, {}, path);
      }
    }
    if ListsOnly(table, i) {
      HashesAgree(digest, table, i, {});
    }
  }

  /** A row whose one dependency has a null list. */
  function NullBelow(): (table: Table)
    ensures |table| == 2
  {
    [Snapshot("root", 1, "root files", true, Listed([Dependency(Some("a"), Unpinned)]), map[]),
     Snapshot("a", 1, "a files", true, Null, map[])]
  }

  /** The worker hashes it, the API does not. */
  lemma {:induction false} NullDivides(digest: Payload -> Hash)
    ensures WorkerHash(digest, NullBelow(), 0, {}).Success?
    ensures ApiHash(digest, NullBelow(), 0, {}).Failure?
  {
    var table, d := NullBelow(), Dependency(Some("a"), Unpinned);
    assert "a"[0] == 'a' && "root"[0] == 'r';
    assert Matches(table[1], "a", Unpinned) && Child(table, 0, d) == Some(1);
    var only := DependenciesOf(table[0]);
    assert only[0] == d && only[1..] == [];
    assert WorkerComponents(digest, table, 1, [], {"root", "a"}) == Success([]);
    assert {} + {"root"} == {"root"} && {"root"} + {"a"} == {"root", "a"};
    assert WorkerHash(digest, table, 1, {"root"}).Success?;
    assert WorkerComponents(digest, table, 0, only[1..], {"root"}) == Success([]);
    assert WorkerComponents(digest, table, 0, only, {"root"}).Success?;
    assert ApiHash(digest, table, 1, {"root"}).Failure?;
    assert ApiComponents(digest, table, 0, only, {"root"}).Failure?;
  }

  // ---- What can be materialized can be hashed ----

  lemma {:induction false} MaterializableHashes(digest: Payload -> Hash, table: Table, i: Id, active: set<string>,
      open: seq<Id>)
    requires IsPath(table, open + [i]) && Materializable(table, (open + [i])[0]) && IsRow(table, i)
    requires forall n :: n in active ==>
               exists k :: 0 <= k < |open| && IsRow(table, open[k]) && table[open[k]].name == n
    ensures WorkerHash(digest, table, i, active).Success?
    decreases Names(table) - active, 0
  {
    assert (open + [i])[|open|] == i;
    if table[i].name in active {
      var k :| 0 <= k < |open| && IsRow(table, open[k]) && table[open[k]].name == table[i].name;
      RepeatedName(table, open + [i], k, |open|);
    } else {
      var longer := open + [i];
      forall n | n in active + {table[i].name}
        ensures exists k :: 0 <= k < |longer| && IsRow(table, longer[k]) && table[longer[k]].name == n
      {
        if n in active {
          var k :| 0 <= k < |open| && IsRow(table, open[k]) && table[open[k]].name == n;
          assert longer[k] == open[k];
        }
      }
      PathReaches(table, longer, |open|);
      MaterializableComponents(digest, table, i, DependenciesOf(table[i]), active + {table[i].name}, longer);
    }
  }

  lemma {:induction false} MaterializableComponents(digest: Payload -> Hash, table: Table, i: Id,
      dependencies: seq<Dependency>, active: set<string>, open: seq<Id>)
    requires IsPath(table, open) && open[|open| - 1] == i && Materializable(table, open[0]) && Sound(table, i)
    requires forall d :: d in dependencies ==> d in DependenciesOf(table[i])
    requires forall n :: n in active ==>
               exists k :: 0 <= k < |open| && IsRow(table, open[k]) && table[open[k]].name == n
    ensures WorkerComponents(digest, table, i, dependencies, active).Success?
    decreases Names(table) - active, |dependencies| + 1
  {
    if dependencies != [] {
      var d := dependencies[0];
      assert Usable(table, i, d);
      var j := Child(table, i, d).value;
      assert Edge(table, i, j);
      PathExtends(table, open, j);
      MaterializableHashes(digest, table, j, active, open);
      MaterializableComponents(digest, table, i, dependencies[1..], active, open);
    }
  }
}
