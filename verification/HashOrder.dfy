/** When the order in which a manifest declares its dependencies shows in the hash. */
module HashOrder {
  import opened CodePointOrder
  import opened Results
  import opened Snapshots
  import opened ExecutionHash
  import opened HashIdentity
  import SnapshotExecution

  // ---- Insertion in any order ----

  predicate SameKey(x: Branch, y: Branch) {
    x.id == y.id && x.tree.contentHash == y.tree.contentHash
  }

  lemma {:induction false} BranchOrder(x: Branch, y: Branch, z: Branch)
    ensures BranchPrecedes(x, y) || BranchPrecedes(y, x)
    ensures BranchPrecedes(x, y) && BranchPrecedes(y, x) ==> SameKey(x, y)
    ensures BranchPrecedes(x, y) && BranchPrecedes(y, z) ==> BranchPrecedes(x, z)
  {
    PrecedesTotal(x.id, y.id);
    PrecedesTotal(x.tree.contentHash, y.tree.contentHash);
    if BranchPrecedes(x, y) && BranchPrecedes(y, x) {
      if x.id != y.id {
        PrecedesAntisymmetric(x.id, y.id);
      } else {
        PrecedesAntisymmetric(x.tree.contentHash, y.tree.contentHash);
      }
    }
    if BranchPrecedes(x, y) && BranchPrecedes(y, z) {
      BranchTransitive(x, y, z);
    }
  }

  lemma {:induction false} BranchTransitive(x: Branch, y: Branch, z: Branch)
    requires BranchPrecedes(x, y) && BranchPrecedes(y, z)
    ensures BranchPrecedes(x, z)
  {
    if x.id == y.id == z.id {
      PrecedesTransitive(x.tree.contentHash, y.tree.contentHash, z.tree.contentHash);
    } else if x.id != y.id && y.id != z.id {
      PrecedesTransitive(x.id, y.id, z.id);
      if x.id == z.id {
        PrecedesAntisymmetric(x.id, y.id);
      }
    }
  }

  lemma {:induction false} InsertCommutes(x: Branch, y: Branch, s: seq<Branch>)
    requires SameKey(x, y) ==> x == y
    ensures InsertBranch(x, InsertBranch(y, s)) == InsertBranch(y, InsertBranch(x, s))
  {
    if s == [] {
      BranchOrder(x, y, x);
    } else {
      BranchOrder(x, y, s[0]);
      BranchOrder(y, x, s[0]);
      InsertCommutes(x, y, s[1..]);
    }
  }

  /** The sort is stable: what differs under one key keeps its order of arrival. */
  lemma {:induction false} InsertClashes(x: Branch, y: Branch, s: seq<Branch>)
    requires SameKey(x, y) && x != y
    ensures InsertBranch(x, InsertBranch(y, s)) != InsertBranch(y, InsertBranch(x, s))
  {
    PrecedesTotal(x.tree.contentHash, x.tree.contentHash);
    var xy, yx := InsertBranch(x, InsertBranch(y, s)), InsertBranch(y, InsertBranch(x, s));
    if s == [] || BranchPrecedes(x, s[0]) {
      assert xy[0] == x && yx[0] == y;
    } else {
      InsertClashes(x, y, s[1..]);
      assert xy[1..] == InsertBranch(x, InsertBranch(y, s[1..]));
      assert yx[1..] == InsertBranch(y, InsertBranch(x, s[1..]));
    }
  }

  // ---- Dependencies in any order ----

  /** The sorted normal branches of a list of dependencies. */
  function Sorted(table: Table, i: Id, dependencies: seq<Dependency>, active: set<string>): Result<seq<Branch>>
    requires IsRow(table, i)
  {
    match BranchesOf(table, i, dependencies, active)
    case Failure(e) => Failure(e)
    case Success(bs) => Success(SortBranches(NormalBranches(bs)))
  }

  /** The normal branch of one dependency. */
  function BranchOf(table: Table, i: Id, d: Dependency, active: set<string>): Result<Branch>
    requires IsRow(table, i)
  {
    match Child(table, i, d)
    case None => Failure(Rejected)
    case Some(j) =>
      match TreeOf(table, j, active)
      case Failure(e) => Failure(e)
      case Success(tree) => Success(Branch(table[j].name, Normal(tree)))
  }

  /** One dependency inserted among the others. */
  function Joined(b: Result<Branch>, rest: Result<seq<Branch>>): Result<seq<Branch>> {
    if b.Failure? || rest.Failure? then Failure(Rejected) else Success(InsertBranch(b.value, rest.value))
  }

  lemma {:induction false} FailuresAreAlike(table: Table, i: Id, active: set<string>)
    requires IsRow(table, i) && TreeOf(table, i, active).Failure?
    ensures TreeOf(table, i, active) == Failure(Rejected)
    decreases Names(table) - active, 0
  {
    if table[i].name !in active {
      BranchFailuresAreAlike(table, i, DependenciesOf(table[i]), active + {table[i].name});
    }
  }

  lemma {:induction false} BranchFailuresAreAlike(table: Table, i: Id, dependencies: seq<Dependency>,
      active: set<string>)
    requires IsRow(table, i)
    ensures BranchesOf(table, i, dependencies, active).Failure? ==>
              BranchesOf(table, i, dependencies, active) == Failure(Rejected)
    decreases Names(table) - active, |dependencies| + 1
  {
    if dependencies != [] {
      var child := Child(table, i, dependencies[0]);
      if child.Some? {
        if TreeOf(table, child.value, active).Failure? {
          FailuresAreAlike(table, child.value, active);
        }
        BranchFailuresAreAlike(table, i, dependencies[1..], active);
      }
    }
  }

  lemma {:induction false} SortedStep(table: Table, i: Id, d: Dependency, rest: seq<Dependency>, active: set<string>)
    requires IsRow(table, i)
    ensures Sorted(table, i, [d] + rest, active) ==
              Joined(BranchOf(table, i, d, active), Sorted(table, i, rest, active))
  {
    var all := [d] + rest;
    assert all[0] == d && all[1..] == rest;
    BranchFailuresAreAlike(table, i, all, active);
    BranchFailuresAreAlike(table, i, rest, active);
  }

  /** A list has a sorted form if and only if each dependency has a branch. */
  lemma {:induction false} SortedIfBranches(table: Table, i: Id, dependencies: seq<Dependency>, active: set<string>)
    requires IsRow(table, i)
    ensures Sorted(table, i, dependencies, active).Success? <==>
              forall d :: d in dependencies ==> BranchOf(table, i, d, active).Success?
    decreases |dependencies|
  {
    if dependencies != [] {
      var first, rest := dependencies[0], dependencies[1..];
      assert dependencies == [first] + rest;
      SortedStep(table, i, first, rest, active);
      SortedIfBranches(table, i, rest, active);
    }
  }

  /** Dependencies of one name and one content hash have one tree below them. */
  ghost predicate KeysDecide(table: Table, i: Id, dependencies: seq<Dependency>, active: set<string>)
    requires IsRow(table, i)
  {
    forall d, e :: d in dependencies && e in dependencies ==> KeyDecides(table, i, d, e, active)
  }

  predicate KeyDecides(table: Table, i: Id, d: Dependency, e: Dependency, active: set<string>)
    requires IsRow(table, i)
  {
    var b, c := BranchOf(table, i, d, active), BranchOf(table, i, e, active);
    b.Success? && c.Success? && SameKey(b.value, c.value) ==> b == c
  }

  function Without(s: seq<Dependency>, k: nat): seq<Dependency>
    requires k < |s|
  {
    s[..k] + s[k + 1..]
  }

  lemma {:induction false} JoinedCommutes(table: Table, i: Id, d: Dependency, e: Dependency, active: set<string>,
      rest: Result<seq<Branch>>)
    requires IsRow(table, i) && KeyDecides(table, i, d, e, active)
    ensures Joined(BranchOf(table, i, d, active), Joined(BranchOf(table, i, e, active), rest)) ==
            Joined(BranchOf(table, i, e, active), Joined(BranchOf(table, i, d, active), rest))
  {
    var b, c := BranchOf(table, i, d, active), BranchOf(table, i, e, active);
    if b.Success? && c.Success? && rest.Success? {
      InsertCommutes(b.value, c.value, rest.value);
    }
  }

  /** Any dependency may be taken out first. */
  lemma {:induction false} TakeOut(table: Table, i: Id, dependencies: seq<Dependency>, k: nat, active: set<string>)
    requires IsRow(table, i) && k < |dependencies| && KeysDecide(table, i, dependencies, active)
    ensures Sorted(table, i, dependencies, active) ==
            Joined(BranchOf(table, i, dependencies[k], active), Sorted(table, i, Without(dependencies, k), active))
    decreases k
  {
    var first, rest := dependencies[0], dependencies[1..];
    assert dependencies == [first] + rest;
    SortedStep(table, i, first, rest, active);
    if k == 0 {
      assert Without(dependencies, 0) == rest;
    } else {
      TakeOut(table, i, rest, k - 1, active);
      assert Without(dependencies, k) == [first] + Without(rest, k - 1);
      SortedStep(table, i, first, Without(rest, k - 1), active);
      assert dependencies[k] == rest[k - 1] && first in dependencies && dependencies[k] in dependencies;
      JoinedCommutes(table, i, first, dependencies[k], active, Sorted(table, i, Without(rest, k - 1), active));
    }
  }

  lemma {:induction false} WithoutIsMultiset(s: seq<Dependency>, k: nat)
    requires k < |s|
    ensures multiset(Without(s, k)) == multiset(s) - multiset{s[k]}
  {
    assert s == s[..k] + [s[k]] + s[k + 1..];
  }

  lemma {:induction false} SortedIgnoresOrder(table: Table, i: Id, a: seq<Dependency>, b: seq<Dependency>,
      active: set<string>)
    requires IsRow(table, i) && multiset(a) == multiset(b) && KeysDecide(table, i, a, active)
    ensures Sorted(table, i, a, active) == Sorted(table, i, b, active)
    decreases |a|
  {
    assert forall d :: d in a <==> d in multiset(a);
    assert forall d :: d in b <==> d in multiset(b);
    assert |a| == |multiset(a)| && |b| == |multiset(b)|;
    if a == [] {
      assert b == [];
    } else {
      assert a[0] in b;
      var k :| 0 <= k < |b| && b[k] == a[0];
      TakeOut(table, i, a, 0, active);
      TakeOut(table, i, b, k, active);
      WithoutIsMultiset(a, 0);
      WithoutIsMultiset(b, k);
      assert forall d :: d in Without(a, 0) ==> d in a;
      SortedIgnoresOrder(table, i, Without(a, 0), Without(b, k), active);
    }
  }

  // ---- The row with its list reordered ----

  function Redeclared(table: Table, i: Id, list: seq<Dependency>): (r: Table)
    requires IsRow(table, i)
    ensures |r| == |table|
    ensures forall k :: 0 <= k < |table| ==>
              r[k] == if k == i then table[i].(dependencies := Listed(list)) else table[k]
  {
    table[i := table[i].(dependencies := Listed(list))]
  }

  ghost predicate SameKeys(a: Table, b: Table) {
    |a| == |b| && forall k :: 0 <= k < |a| ==>
      a[k].name == b[k].name && a[k].version == b[k].version && a[k].pinned == b[k].pinned &&
        a[k].contentHash == b[k].contentHash
  }

  lemma {:induction false} SameNewest(a: Table, b: Table, name: string, version: Version)
    requires SameKeys(a, b)
    ensures Newest(a, name, version) == Newest(b, name, version)
  {
    if a != [] {
      SameNewest(a[..|a| - 1], b[..|b| - 1], name, version);
    }
  }

  lemma {:induction false} SameChild(a: Table, b: Table, i: Id, d: Dependency)
    requires SameKeys(a, b) && IsRow(a, i)
    ensures Child(a, i, d) == Child(b, i, d)
  {
    if d.name.Some? {
      SameNewest(a, b, d.name.value, d.version);
    }
  }

  /** Below a row, its own list is never looked at. */
  lemma {:induction false} BelowIsUnchanged(table: Table, i: Id, list: seq<Dependency>, j: Id, active: set<string>)
    requires IsRow(table, i) && IsRow(table, j) && table[i].name in active
    ensures TreeOf(Redeclared(table, i, list), j, active) == TreeOf(table, j, active)
    decreases Names(table) - active, 0
  {
    var table' := Redeclared(table, i, list);
    if table[j].name !in active {
      BranchesBelow(table, i, list, j, DependenciesOf(table[j]), active + {table[j].name});
    }
  }

  lemma {:induction false} BranchesBelow(table: Table, i: Id, list: seq<Dependency>, j: Id,
      dependencies: seq<Dependency>, active: set<string>)
    requires IsRow(table, i) && IsRow(table, j) && table[i].name in active
    ensures BranchesOf(Redeclared(table, i, list), j, dependencies, active) ==
              BranchesOf(table, j, dependencies, active)
    decreases Names(table) - active, |dependencies| + 1
  {
    var table' := Redeclared(table, i, list);
    if dependencies != [] {
      SameChild(table, table', j, dependencies[0]);
      var child := Child(table, j, dependencies[0]);
      if child.Some? {
        BelowIsUnchanged(table, i, list, child.value, active);
        BranchesBelow(table, i, list, j, dependencies[1..], active);
      }
    }
  }

  // ---- The hash of every order ----

  lemma {:induction false} HashOfOrder(digest: Payload -> Hash, table: Table, i: Id, list: seq<Dependency>)
    requires IsRow(table, i)
    ensures WorkerHash(digest, Redeclared(table, i, list), i, {}) ==
            match Sorted(table, i, list, {table[i].name})
            case Failure(_) => Failure(Rejected)
            case Success(branches) => Success(TreeHash(digest, Tree(table[i].contentHash, branches)))
  {
    var table', active := Redeclared(table, i, list), {table[i].name};
    assert {} + active == active;
    HashIsOfNormalTree(digest, table', i, {});
    BranchesBelow(table, i, list, i, list, active);
    BranchFailuresAreAlike(table, i, list, active);
  }

  lemma {:induction false} OwnOrder(table: Table, i: Id)
    requires IsRow(table, i) && table[i].dependencies.Listed?
    ensures Redeclared(table, i, table[i].dependencies.list) == table
  {
  }

  /** Reordering a manifest's dependencies leaves the execution hash, or the failure, as it
      was. */
  lemma {:induction false} OrderDoesNotMatter(digest: Payload -> Hash, table: Table, i: Id, list: seq<Dependency>)
    requires IsRow(table, i) && table[i].dependencies.Listed?
    requires multiset(list) == multiset(table[i].dependencies.list)
    requires KeysDecide(table, i, table[i].dependencies.list, {table[i].name})
    ensures WorkerHash(digest, Redeclared(table, i, list), i, {}) == WorkerHash(digest, table, i, {})
  {
    var own := table[i].dependencies.list;
    OwnOrder(table, i);
    HashOfOrder(digest, table, i, own);
    HashOfOrder(digest, table, i, list);
    SortedIgnoresOrder(table, i, own, list, {table[i].name});
  }

  /** Two dependencies of one name and content hash but with different trees below them
      do change the hash when they trade places. */
  lemma {:induction false} TradingPlacesMatters(digest: Payload -> Hash, table: Table, i: Id, d: Dependency,
      e: Dependency, rest: seq<Dependency>)
    requires Injective(digest) && IsRow(table, i) && !KeyDecides(table, i, d, e, {table[i].name})
    requires forall x :: x in rest ==> BranchOf(table, i, x, {table[i].name}).Success?
    ensures WorkerHash(digest, Redeclared(table, i, [e] + ([d] + rest)), i, {}) !=
            WorkerHash(digest, Redeclared(table, i, [d] + ([e] + rest)), i, {})
  {
    var active := {table[i].name};
    SortedIfBranches(table, i, rest, active);
    var sorted := Sorted(table, i, rest, active).value;
    var b, c := BranchOf(table, i, d, active).value, BranchOf(table, i, e, active).value;
    HashOfOrder(digest, table, i, [d] + ([e] + rest));
    HashOfOrder(digest, table, i, [e] + ([d] + rest));
    SortedStep(table, i, e, rest, active);
    SortedStep(table, i, d, rest, active);
    SortedStep(table, i, d, [e] + rest, active);
    SortedStep(table, i, e, [d] + rest, active);
    var de, ed := InsertBranch(b, InsertBranch(c, sorted)), InsertBranch(c, InsertBranch(b, sorted));
    InsertClashes(b, c, sorted);
    if TreeHash(digest, Tree(table[i].contentHash, de)) == TreeHash(digest, Tree(table[i].contentHash, ed)) {
      TreeHashIsInjective(digest, Tree(table[i].contentHash, de), Tree(table[i].contentHash, ed));
    }
  }

  /** Every order of the manifest's list has the hash, or the failure, of the declared one. */
  ghost predicate AnyOrder(digest: Payload -> Hash, table: Table, i: Id)
    requires IsRow(table, i) && table[i].dependencies.Listed?
  {
    forall list :: multiset(list) == multiset(table[i].dependencies.list) ==>
      WorkerHash(digest, Redeclared(table, i, list), i, {}) == WorkerHash(digest, table, i, {})
  }

  /** `list` with two of its members put in front. */
  lemma {:induction false} InFront(list: seq<Dependency>, d: Dependency, e: Dependency) returns (rest: seq<Dependency>)
    requires d in list && e in list && d != e
    ensures multiset([d] + ([e] + rest)) == multiset([e] + ([d] + rest)) == multiset(list)
    ensures forall x :: x in rest ==> x in list
  {
    var k :| 0 <= k < |list| && list[k] == d;
    var others := Without(list, k);
    WithoutKeepsOthers(list, k, e);
    var m :| 0 <= m < |others| && others[m] == e;
    rest := Without(others, m);
    BackInFront(list, k);
    BackInFront(others, m);
    SwapInFront(rest, d, e);
  }

  lemma {:induction false} SwapInFront(rest: seq<Dependency>, d: Dependency, e: Dependency)
    ensures multiset([d] + ([e] + rest)) == multiset([e] + ([d] + rest)) == multiset{d} + multiset([e] + rest)
  {
    assert multiset([e] + ([d] + rest)) == multiset{e} + (multiset{d} + multiset(rest));
    assert multiset([d] + ([e] + rest)) == multiset{d} + (multiset{e} + multiset(rest));
  }

  lemma {:induction false} WithoutKeepsOthers(s: seq<Dependency>, k: nat, e: Dependency)
    requires k < |s| && e in s && e != s[k]
    ensures e in Without(s, k)
  {
    var m :| 0 <= m < |s| && s[m] == e;
    assert Without(s, k)[if m < k then m else m - 1] == e;
  }

  lemma {:induction false} BackInFront(s: seq<Dependency>, k: nat)
    requires k < |s|
    ensures multiset(s) == multiset{s[k]} + multiset(Without(s, k)) == multiset([s[k]] + Without(s, k))
    ensures forall x :: x in Without(s, k) ==> x in s
  {
    assert s == s[..k] + [s[k]] + s[k + 1..];
  }

  /** The order of a manifest's dependencies shows in no hash if and only if there is no
      hash at all, or one name and one content hash always mean one tree. */
  lemma {:induction false} OrderIsHiddenIff(digest: Payload -> Hash, table: Table, i: Id)
    requires Injective(digest) && IsRow(table, i) && table[i].dependencies.Listed?
    ensures AnyOrder(digest, table, i) <==>
              || WorkerHash(digest, table, i, {}).Failure?
              || KeysDecide(table, i, table[i].dependencies.list, {table[i].name})
  {
    var own, active := table[i].dependencies.list, {table[i].name};
    OwnOrder(table, i);
    HashOfOrder(digest, table, i, own);
    SortedIfBranches(table, i, own, active);
    if WorkerHash(digest, table, i, {}).Failure? {
      forall list | multiset(list) == multiset(own)
        ensures WorkerHash(digest, Redeclared(table, i, list), i, {}) == WorkerHash(digest, table, i, {})
      {
        HashOfOrder(digest, table, i, list);
        SortedIfBranches(table, i, list, active);
        assert forall d :: d in own <==> d in multiset(own);
        assert forall d :: d in list <==> d in multiset(list);
      }
    } else if KeysDecide(table, i, own, active) {
      forall list | multiset(list) == multiset(own)
        ensures WorkerHash(digest, Redeclared(table, i, list), i, {}) == WorkerHash(digest, table, i, {})
      {
        OrderDoesNotMatter(digest, table, i, list);
      }
    } else {
      var d, e :| d in own && e in own && !KeyDecides(table, i, d, e, active);
      var rest := InFront(own, d, e);
      TradingPlacesMatters(digest, table, i, d, e, rest);
    }
  }

  // ---- Where the order cannot show ----

  /** Dependencies pinned by name have one tree a name. */
  lemma {:induction false} PinnedKeysDecide(table: Table, i: Id, dependencies: seq<Dependency>, active: set<string>)
    requires IsRow(table, i)
    requires forall d :: d in dependencies ==> SnapshotExecution.PinnedTo(table, i, d)
    ensures KeysDecide(table, i, dependencies, active)
  {
    forall d, e | d in dependencies && e in dependencies
      ensures KeyDecides(table, i, d, e, active)
    {
      assert SnapshotExecution.PinnedTo(table, i, d) && SnapshotExecution.PinnedTo(table, i, e);
    }
  }

  /** So have dependencies with distinct names. */
  lemma {:induction false} DistinctNamesDecide(table: Table, i: Id, dependencies: seq<Dependency>, active: set<string>)
    requires IsRow(table, i)
    requires forall d, e :: d in dependencies && e in dependencies && d.name == e.name ==> d == e
    ensures KeysDecide(table, i, dependencies, active)
  {
    forall d, e | d in dependencies && e in dependencies
      ensures KeyDecides(table, i, d, e, active)
    {
      if d.name != e.name {
        var c, j := Child(table, i, d), Child(table, i, e);
        assert c.Some? && j.Some? ==> table[c.value].name != table[j.value].name;
      }
    }
  }

  /** So a row whose own dependencies are pinned hashes alike in every order. */
  lemma {:induction false} PinnedOrderIsHidden(digest: Payload -> Hash, table: Table, i: Id)
    requires IsRow(table, i) && table[i].dependencies.Listed?
    requires forall d :: d in table[i].dependencies.list ==> SnapshotExecution.PinnedTo(table, i, d)
    ensures AnyOrder(digest, table, i)
  {
    PinnedKeysDecide(table, i, table[i].dependencies.list, {table[i].name});
    forall list | multiset(list) == multiset(table[i].dependencies.list)
      ensures WorkerHash(digest, Redeclared(table, i, list), i, {}) == WorkerHash(digest, table, i, {})
    {
      OrderDoesNotMatter(digest, table, i, list);
    }
  }

  // ---- Where it does ----

  /** A row that asks for two versions of "a" by number.  Both have the same content, but
      each is pinned to another row of "b". */
  function TwoVersions(): (table: Table)
    ensures |table| == 5
  {
    var onB := Listed([Dependency(Some("b"), Unpinned)]);
    [Snapshot("root", 1, "root files", true, Listed([OnA(1), OnA(2)]), map[]),
     Snapshot("a", 1, "a files", true, onB, map["b" := 3]),
     Snapshot("a", 2, "a files", true, onB, map["b" := 4]),
     Snapshot("b", 1, "first b files", true, Listed([]), map[]),
     Snapshot("b", 2, "second b files", true, Listed([]), map[])]
  }

  function OnA(version: int): Dependency {
    Dependency(Some("a"), Exactly(version))
  }

  lemma {:induction false} LeafTree(table: Table, j: Id, active: set<string>)
    requires IsRow(table, j) && DependenciesOf(table[j]) == [] && table[j].name !in active
    ensures TreeOf(table, j, active) == Success(Tree(table[j].contentHash, []))
  {
  }

  lemma {:induction false} OneChildTree(table: Table, i: Id, d: Dependency, j: Id, active: set<string>)
    requires IsRow(table, i) && DependenciesOf(table[i]) == [d] && Child(table, i, d) == Some(j)
    requires DependenciesOf(table[j]) == [] && table[i].name !in active && table[j].name !in active + {table[i].name}
    ensures TreeOf(table, i, active) ==
            Success(Tree(table[i].contentHash, [Branch(table[j].name, Tree(table[j].contentHash, []))]))
  {
    var below := active + {table[i].name};
    LeafTree(table, j, below);
    var only := DependenciesOf(table[i]);
    assert only[0] == d && only[1..] == [];
    var leaf := Branch(table[j].name, Tree(table[j].contentHash, []));
    assert BranchesOf(table, i, only[1..], below) == Success([]);
    assert [leaf] + [] == [leaf];
    assert BranchesOf(table, i, only, below) == Success([leaf]);
  }

  lemma {:induction false} VersionOfA(version: int)
    requires version == 1 || version == 2
    ensures TwoVersions()[version].name == "a"
    ensures var tree := Tree("a files", [Branch("b", Tree(TwoVersions()[version + 2].contentHash, []))]);
            BranchOf(TwoVersions(), 0, OnA(version), {"root"}) == Success(Branch("a", Normal(tree)))
  {
    var table := TwoVersions();
    assert "a"[0] == 'a' && "b"[0] == 'b' && "root"[0] == 'r';
    assert Matches(table[version], "a", Exactly(version));
    assert Child(table, 0, OnA(version)) == Some(version);
    OneChildTree(table, version, Dependency(Some("b"), Unpinned), version + 2, {"root"});
  }

  lemma {:induction false} NormalLeafBranch(t: Tree, b: Branch)
    requires t.children == [b] && b.tree.children == []
    ensures Normal(t) == t
  {
    assert [b][1..] == [];
    assert NormalBranches([b]) == [Branch(b.id, Normal(b.tree))];
    assert SortBranches([b]) == [b];
  }

  lemma {:induction false} VersionsClash()
    ensures BranchOf(TwoVersions(), 0, OnA(1), {"root"}).Success?
    ensures BranchOf(TwoVersions(), 0, OnA(2), {"root"}).Success?
    ensures !KeyDecides(TwoVersions(), 0, OnA(1), OnA(2), {"root"})
  {
    VersionOfA(1);
    VersionOfA(2);
    var first, second := Branch("b", Tree("first b files", [])), Branch("b", Tree("second b files", []));
    NormalLeafBranch(Tree("a files", [first]), first);
    NormalLeafBranch(Tree("a files", [second]), second);
    assert first.tree.contentHash[0] == 'f' && second.tree.contentHash[0] == 's';
    assert [first][0] != [second][0];
  }

  /** There the two dependencies, trading places, change the hash. */
  lemma {:induction false} VersionsTradePlaces(digest: Payload -> Hash)
    requires Injective(digest)
    ensures !KeyDecides(TwoVersions(), 0, OnA(1), OnA(2), {"root"})
    ensures WorkerHash(digest, TwoVersions(), 0, {}).Success?
    ensures WorkerHash(digest, Redeclared(TwoVersions(), 0, [OnA(2), OnA(1)]), 0, {}) !=
            WorkerHash(digest, TwoVersions(), 0, {})
  {
    var table := TwoVersions();
    VersionsClash();
    TradingPlacesMatters(digest, table, 0, OnA(1), OnA(2), []);
    assert [OnA(1)] + ([OnA(2)] + []) == [OnA(1), OnA(2)] && [OnA(2)] + ([OnA(1)] + []) == [OnA(2), OnA(1)];
    OwnOrder(table, 0);
    HashOfOrder(digest, table, 0, [OnA(1), OnA(2)]);
    SortedIfBranches(table, 0, [OnA(1), OnA(2)], {"root"});
  }
}
