/** What an execution hash identifies: the tree of content hashes below a snapshot, up
    to the order in which dependencies are declared. */
module HashIdentity {
  import opened CodePointOrder
  import opened Results
  import opened Snapshots
  import opened ExecutionHash

  datatype Tree = Tree(contentHash: string, children: seq<Branch>)

  datatype Branch = Branch(id: string, tree: Tree)

  // ---- The tree a hash is taken of ----

  /** The content hashes below `i`, in declared order. */
  function TreeOf(table: Table, i: Id, active: set<string>): Result<Tree>
    requires IsRow(table, i)
    decreases Names(table) - active, 0
  {
    var row := table[i];
    if row.name in active then Failure(Rejected) else
      match BranchesOf(table, i, DependenciesOf(row), active + {row.name})
      case Failure(e) => Failure(e)
      case Success(children) => Success(Tree(row.contentHash, children))
  }

  function BranchesOf(table: Table, i: Id, dependencies: seq<Dependency>, active: set<string>): Result<seq<Branch>>
    requires IsRow(table, i)
    decreases Names(table) - active, |dependencies| + 1
  {
    if dependencies == [] then Success([]) else
      match Child(table, i, dependencies[0])
      case None => Failure(Rejected)
      case Some(j) =>
        match TreeOf(table, j, active)
        case Failure(e) => Failure(e)
        case Success(tree) =>
          match BranchesOf(table, i, dependencies[1..], active)
          case Failure(e) => Failure(e)
          case Success(rest) => Success([Branch(table[j].name, tree)] + rest)
  }

  // ---- Declared order taken out ----

  predicate BranchPrecedes(a: Branch, b: Branch) {
    if a.id != b.id then Precedes(a.id, b.id) else Precedes(a.tree.contentHash, b.tree.contentHash)
  }

  function InsertBranch(x: Branch, s: seq<Branch>): seq<Branch> {
    if s == [] then [x]
    else if BranchPrecedes(x, s[0]) then [x] + s
    else [s[0]] + InsertBranch(x, s[1..])
  }

  function SortBranches(s: seq<Branch>): seq<Branch> {
    if s == [] then [] else InsertBranch(s[0], SortBranches(s[1..]))
  }

  /** The tree with every list of children sorted. */
  function Normal(tree: Tree): (r: Tree)
    ensures r.contentHash == tree.contentHash
  {
    Tree(tree.contentHash, SortBranches(NormalBranches(tree.children)))
  }

  function NormalBranches(branches: seq<Branch>): (r: seq<Branch>)
    ensures |r| == |branches|
  {
    if branches == [] then [] else
      [Branch(branches[0].id, Normal(branches[0].tree))] + NormalBranches(branches[1..])
  }

  // ---- The hash of a tree ----

  function TreeHash(digest: Payload -> Hash, tree: Tree): Hash {
    digest(Payload(tree.contentHash, BranchComponents(digest, tree.children)))
  }

  function BranchComponents(digest: Payload -> Hash, branches: seq<Branch>): (r: seq<Component>)
    ensures |r| == |branches|
  {
    if branches == [] then [] else
      [ComponentOf(digest, branches[0])] + BranchComponents(digest, branches[1..])
  }

  function ComponentOf(digest: Payload -> Hash, b: Branch): Component {
    Component(b.id, b.tree.contentHash, TreeHash(digest, b.tree))
  }

  /** Sorting the components and sorting the branches is the same. */
  lemma {:induction false} InsertionsAgree(digest: Payload -> Hash, x: Branch, s: seq<Branch>)
    ensures BranchComponents(digest, InsertBranch(x, s)) ==
              InsertComponent(ComponentOf(digest, x), BranchComponents(digest, s))
  {
    if s == [] {
    } else if BranchPrecedes(x, s[0]) {
      assert ([x] + s)[1..] == s;
    } else {
      InsertionsAgree(digest, x, s[1..]);
      assert ([s[0]] + InsertBranch(x, s[1..]))[1..] == InsertBranch(x, s[1..]);
    }
  }

  lemma {:induction false} SortsAgree(digest: Payload -> Hash, s: seq<Branch>)
    ensures BranchComponents(digest, SortBranches(s)) == SortComponents(BranchComponents(digest, s))
  {
    if s != [] {
      SortsAgree(digest, s[1..]);
      InsertionsAgree(digest, s[0], SortBranches(s[1..]));
    }
  }

  /** The worker's hash is that of the normal tree, and fails when there is no tree. */
  lemma {:induction false} HashIsOfNormalTree(digest: Payload -> Hash, table: Table, i: Id, active: set<string>)
    requires IsRow(table, i)
    ensures WorkerHash(digest, table, i, active) ==
            match TreeOf(table, i, active)
            case Failure(e) => Failure(e)
            case Success(t) => Success(TreeHash(digest, Normal(t)))
    decreases Names(table) - active, 0
  {
    var row := table[i];
    if row.name !in active {
      ComponentsAreOfBranches(digest, table, i, DependenciesOf(row), active + {row.name});
      var branches := BranchesOf(table, i, DependenciesOf(row), active + {row.name});
      if branches.Success? {
        SortsAgree(digest, NormalBranches(branches.value));
      }
    }
  }

  lemma {:induction false} ComponentsAreOfBranches(digest: Payload -> Hash, table: Table, i: Id,
      dependencies: seq<Dependency>, active: set<string>)
    requires IsRow(table, i)
    ensures WorkerComponents(digest, table, i, dependencies, active) ==
            match BranchesOf(table, i, dependencies, active)
            case Failure(e) => Failure(e)
            case Success(bs) => Success(BranchComponents(digest, NormalBranches(bs)))
    decreases Names(table) - active, |dependencies| + 1
  {
    if dependencies != [] {
      var child := Child(table, i, dependencies[0]);
      if child.Some? {
        HashIsOfNormalTree(digest, table, child.value, active);
        ComponentsAreOfBranches(digest, table, i, dependencies[1..], active);
      }
    }
  }

  // ---- Equal hashes ----

  ghost predicate Injective(digest: Payload -> Hash) {
    forall p, q :: digest(p) == digest(q) ==> p == q
  }

  lemma {:induction false} TreeHashIsInjective(digest: Payload -> Hash, s: Tree, t: Tree)
    requires Injective(digest) && TreeHash(digest, s) == TreeHash(digest, t)
    ensures s == t
    decreases s, 0
  {
    var p, q := Payload(s.contentHash, BranchComponents(digest, s.children)),
      Payload(t.contentHash, BranchComponents(digest, t.children));
    assert p == q;
    ComponentsAreInjective(digest, s.children, t.children);
  }

  lemma {:induction false} ComponentsAreInjective(digest: Payload -> Hash, a: seq<Branch>, b: seq<Branch>)
    requires Injective(digest) && BranchComponents(digest, a) == BranchComponents(digest, b)
    ensures a == b
    decreases a, |a|
  {
    if a != [] {
      var x, y := BranchComponents(digest, a), BranchComponents(digest, b);
      assert x[0] == ComponentOf(digest, a[0]) && y[0] == ComponentOf(digest, b[0]);
      TreeHashIsInjective(digest, a[0].tree, b[0].tree);
      assert x[1..] == BranchComponents(digest, a[1..]) && y[1..] == BranchComponents(digest, b[1..]);
      ComponentsAreInjective(digest, a[1..], b[1..]);
      assert a == [a[0]] + a[1..] && b == [b[0]] + b[1..];
    }
  }

  /** Two snapshots, in the same table or not, have one execution hash exactly when they
      have one tree of content hashes, whatever order their dependencies come in. */
  lemma {:induction false} EqualHashesIff(digest: Payload -> Hash, table: Table, i: Id, table': Table, i': Id)
    requires Injective(digest) && IsRow(table, i) && IsRow(table', i')
    requires TreeOf(table, i, {}).Success? && TreeOf(table', i', {}).Success?
    ensures WorkerHash(digest, table, i, {}) == WorkerHash(digest, table', i', {}) <==>
            Normal(TreeOf(table, i, {}).value) == Normal(TreeOf(table', i', {}).value)
  {
    HashIsOfNormalTree(digest, table, i, {});
    HashIsOfNormalTree(digest, table', i', {});
    if WorkerHash(digest, table, i, {}) == WorkerHash(digest, table', i', {}) {
      TreeHashIsInjective(digest, Normal(TreeOf(table, i, {}).value), Normal(TreeOf(table', i', {}).value));
    }
  }
}
