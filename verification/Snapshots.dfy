/** Skill snapshots and how a snapshot's declared dependencies resolve to others. */
module Snapshots {
  import opened Results

  type Id = nat

  /** `Unpinned` for a bare name or no version; `Malformed` for one that is no number. */
  datatype Version = Unpinned | Exactly(number: int) | Malformed

  datatype Dependency = Dependency(name: Option<string>, version: Version)

  /** The manifest's `dependencies`: no such key, `null`, or a list. */
  datatype Dependencies = Absent | Null | Listed(list: seq<Dependency>)

  /** `intact` when the stored bytes have the stored hash; `pinned` is by dependency name. */
  datatype Snapshot = Snapshot(
    name: string, version: int, contentHash: string, intact: bool, dependencies: Dependencies, pinned: map<string, Id>)

  /** The snapshots table; a row's id is its position. */
  type Table = seq<Snapshot>

  predicate IsRow(table: Table, i: Id) {
    i < |table|
  }

  function Names(table: Table): (names: set<string>)
    ensures forall i :: 0 <= i < |table| ==> table[i].name in names
  {
    set i | 0 <= i < |table| :: table[i].name
  }

  predicate Matches(row: Snapshot, name: string, version: Version) {
    row.name == name && !version.Malformed? && (version.Exactly? ==> row.version == version.number)
  }

  /** The newest row of the name, of the version if one is asked for. */
  function Newest(table: Table, name: string, version: Version): (found: Option<Id>)
    ensures found.Some? ==> IsRow(table, found.value) && Matches(table[found.value], name, version)
    ensures found.Some? ==> forall i :: 0 <= i < |table| && Matches(table[i], name, version) ==>
                              table[i].version <= table[found.value].version
    ensures found.None? ==> forall i :: 0 <= i < |table| ==> !Matches(table[i], name, version)
  {
    if table == [] then None else
      var n := |table| - 1;
      var front := Newest(table[..n], name, version);
      if Matches(table[n], name, version) && (front.None? || table[front.value].version <= table[n].version) then
        Some(n)
      else front
  }

  /** The row a dependency of `i` stands for: the pinned one, else the newest; it must
      have the dependency's name. */
  function Child(table: Table, i: Id, d: Dependency): (found: Option<Id>)
    requires IsRow(table, i)
    ensures found.Some? ==> IsRow(table, found.value) && d.name == Some(table[found.value].name)
  {
    if d.name.None? then None
    else if d.name.value in table[i].pinned then
      var j := table[i].pinned[d.name.value];
      if IsRow(table, j) && table[j].name == d.name.value then Some(j) else None
    else Newest(table, d.name.value, d.version)
  }

  function DependenciesOf(row: Snapshot): seq<Dependency> {
    if row.dependencies.Listed? then row.dependencies.list else []
  }

  // ---- Reachability ----

  ghost predicate Edge(table: Table, i: Id, j: Id) {
    IsRow(table, i) && exists d :: d in DependenciesOf(table[i]) && Child(table, i, d) == Some(j)
  }

  ghost predicate IsPath(table: Table, path: seq<Id>) {
    && path != [] && (forall k :: 0 <= k < |path| ==> IsRow(table, path[k]))
    && (forall k :: 0 <= k < |path| - 1 ==> Edge(table, path[k], path[k + 1]))
  }

  ghost predicate Joins(table: Table, path: seq<Id>, a: Id, b: Id) {
    IsPath(table, path) && path[0] == a && path[|path| - 1] == b
  }

  ghost predicate Reaches(table: Table, a: Id, b: Id) {
    exists path :: Joins(table, path, a, b)
  }

  ghost predicate OnCycle(table: Table, a: Id) {
    exists path :: |path| > 1 && Joins(table, path, a, a)
  }

  lemma {:induction false} PathExtends(table: Table, path: seq<Id>, b: Id)
    requires IsPath(table, path) && IsRow(table, b) && Edge(table, path[|path| - 1], b)
    ensures Joins(table, path + [b], path[0], b)
  {
    var longer := path + [b];
    forall k | 0 <= k < |longer| - 1
      ensures Edge(table, longer[k], longer[k + 1])
    {
      if k < |path| - 1 {
        assert Edge(table, path[k], path[k + 1]);
      }
    }
  }

  lemma {:induction false} PathReaches(table: Table, path: seq<Id>, k: nat)
    requires IsPath(table, path) && k < |path|
    ensures Reaches(table, path[0], path[k])
  {
    var prefix := path[..k + 1];
    assert forall m :: 0 <= m < |prefix| - 1 ==> Edge(table, path[m], path[m + 1]);
    assert Joins(table, prefix, path[0], path[k]);
  }

  lemma {:induction false} EdgeIsRow(table: Table, i: Id, j: Id)
    requires Edge(table, i, j)
    ensures IsRow(table, j)
  {
    var d :| d in DependenciesOf(table[i]) && Child(table, i, d) == Some(j);
  }

  // ---- When a snapshot can be materialized ----

  predicate VersionFits(table: Table, d: Dependency, j: Id)
    requires IsRow(table, j)
  {
    !d.version.Malformed? && (d.version.Exactly? ==> table[j].version == d.version.number)
  }

  predicate Usable(table: Table, i: Id, d: Dependency)
    requires IsRow(table, i)
  {
    var child := Child(table, i, d);
    d.name.Some? && d.name.value != "" && child.Some? && VersionFits(table, d, child.value)
  }

  /** The row alone gives no reason to fail. */
  ghost predicate Sound(table: Table, i: Id) {
    && IsRow(table, i) && table[i].intact && !table[i].dependencies.Null?
    && (forall d :: d in DependenciesOf(table[i]) ==> Usable(table, i, d))
  }

  /** Everything reachable is sound, has a name of its own, and is on no cycle. */
  ghost predicate Materializable(table: Table, root: Id) {
    && (forall j :: Reaches(table, root, j) ==> Sound(table, j))
    && (forall j: Id, k: Id ::
          && Reaches(table, root, j) && Reaches(table, root, k) && IsRow(table, j) && IsRow(table, k)
          && table[j].name == table[k].name ==>
            j == k)
    && (forall j :: Reaches(table, root, j) ==> !OnCycle(table, j))
  }

  /** A dependency is the pinned row, and only that, if one is pinned; else the newest row
      of its name, and of its version if it gives one. */
  lemma {:induction false} ChildIs(table: Table, i: Id, d: Dependency, j: Id)
    requires IsRow(table, i) && Child(table, i, d) == Some(j)
    ensures IsRow(table, j) && d.name == Some(table[j].name)
    ensures table[j].name in table[i].pinned ==> j == table[i].pinned[table[j].name]
    ensures table[j].name !in table[i].pinned ==>
              && !d.version.Malformed? && (d.version.Exactly? ==> table[j].version == d.version.number)
              && forall k :: 0 <= k < |table| && table[k].name == table[j].name &&
                             (d.version.Exactly? ==> table[k].version == d.version.number) ==>
                   table[k].version <= table[j].version
  {
    if table[j].name !in table[i].pinned {
      assert Newest(table, d.name.value, d.version) == Some(j);
      forall k | 0 <= k < |table| && table[k].name == table[j].name &&
                 (d.version.Exactly? ==> table[k].version == d.version.number)
        ensures table[k].version <= table[j].version
      {
        assert Matches(table[k], d.name.value, d.version);
      }
    }
  }

  /** What a materializable tree is made of: intact rows, whose dependencies are listed, have
      names, and are there in the version asked for. */
  lemma {:induction false} MaterializableRows(table: Table, root: Id, i: Id, d: Dependency)
    requires Materializable(table, root) && Reaches(table, root, i)
    ensures IsRow(table, i) && table[i].intact && table[i].dependencies != Null
    ensures d in DependenciesOf(table[i]) ==>
              && d.name.Some? && d.name != Some("") && !d.version.Malformed? && Child(table, i, d).Some?
              && (d.version.Exactly? ==> table[Child(table, i, d).value].version == d.version.number)
  {
    assert Sound(table, i);
    if d in DependenciesOf(table[i]) {
      assert Usable(table, i, d);
    }
  }

  lemma {:induction false} Subpath(table: Table, path: seq<Id>, j: nat, k: nat)
    requires IsPath(table, path) && j <= k < |path|
    ensures Joins(table, path[j..k + 1], path[j], path[k])
  {
    var part := path[j..k + 1];
    forall m | 0 <= m < |part| - 1
      ensures Edge(table, part[m], part[m + 1])
    {
      var at := j + m;
      assert Edge(table, path[at], path[at + 1]);
    }
  }

  lemma {:induction false} UnsoundFails(table: Table, root: Id, i: Id)
    requires Reaches(table, root, i) && !Sound(table, i)
    ensures !Materializable(table, root)
  {
  }

  lemma {:induction false} SharedNameFails(table: Table, root: Id, i: Id, j: Id)
    requires Reaches(table, root, i) && Reaches(table, root, j) && IsRow(table, i) && IsRow(table, j)
    requires table[i].name == table[j].name && i != j
    ensures !Materializable(table, root)
  {
  }

  /** A path on which a name comes back is a cycle, or has two rows of one name. */
  lemma {:induction false} RepeatedName(table: Table, path: seq<Id>, j: nat, k: nat)
    requires IsPath(table, path) && j < k < |path| && table[path[j]].name == table[path[k]].name
    ensures !Materializable(table, path[0])
  {
    PathReaches(table, path, j);
    PathReaches(table, path, k);
    if path[j] == path[k] {
      Subpath(table, path, j, k);
      assert OnCycle(table, path[j]);
    } else {
      SharedNameFails(table, path[0], path[j], path[k]);
    }
  }
}
