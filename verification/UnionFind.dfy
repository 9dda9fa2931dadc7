/** The disjoint-set structure that groups findings by shared cause family.

    `parent` maps every item position to another one, and a root to itself.  `Find` shortens paths by
    halving while it walks, and `Union` hangs the right root under the left. */
module UnionFind {

  type Links = seq<nat>

  /** `rank` drops along every parent link; it is what makes walks end. */
  ghost predicate Acyclic(parent: Links, rank: Links) {
    && |rank| == |parent|
    && (forall i {:trigger parent[i]} :: 0 <= i < |parent| ==> parent[i] < |parent|)
    && (forall i {:trigger parent[i]} :: 0 <= i < |parent| && parent[i] != i ==> rank[parent[i]] < rank[i])
  }

  /** Where following `parent` from `i` to the end leads. */
  ghost function Root(parent: Links, rank: Links, i: nat): (r: nat)
    requires Acyclic(parent, rank) && i < |parent|
    ensures r < |parent| && parent[r] == r
    decreases rank[i]
  {
    if parent[i] == i then i else Root(parent, rank, parent[i])
  }

  /** `after` has the items of `before` and gives each the same root. */
  ghost predicate SameRoots(before: Links, after: Links, rank: Links)
    requires |before| == |after|
    requires Acyclic(before, rank) && Acyclic(after, rank)
  {
    forall j: nat :: j < |before| ==> Root(after, rank, j) == Root(before, rank, j)
  }

  /** Replacing one link by its grandparent moves no root. */
  lemma {:induction false} HalvingKeepsRoots(parent: Links, rank: Links, at: nat, halved: Links)
    requires Acyclic(parent, rank) && at < |parent|
    requires halved == parent[at := parent[parent[at]]]
    ensures Acyclic(halved, rank) && SameRoots(parent, halved, rank)
  {
    forall j: nat | j < |parent|
      ensures Root(halved, rank, j) == Root(parent, rank, j)
    {
      HalvingKeepsRoot(parent, rank, at, halved, j);
    }
  }

  lemma {:induction false} HalvingKeepsRoot(parent: Links, rank: Links, at: nat, halved: Links, j: nat)
    requires Acyclic(parent, rank) && Acyclic(halved, rank) && at < |parent| && j < |parent|
    requires halved == parent[at := parent[parent[at]]]
    ensures Root(halved, rank, j) == Root(parent, rank, j)
    decreases rank[j]
  {
    if halved[j] != j {
      HalvingKeepsRoot(parent, rank, at, halved, halved[j]);
    }
  }

  /** The ranks that keep links descending once `right` hangs under `left`. */
  ghost function Lifted(parent: Links, rank: Links, left: nat, right: nat): Links
    requires Acyclic(parent, rank) && left < |parent|
  {
    seq(|parent|, j requires 0 <= j < |parent| =>
      if Root(parent, rank, j) == right then rank[j] + rank[left] + 1 else rank[j])
  }

  /** The root of `j` after the class of `right` joins that of `left`. */
  ghost function Joined(parent: Links, rank: Links, left: nat, right: nat, j: nat): nat
    requires Acyclic(parent, rank) && j < |parent|
  {
    if Root(parent, rank, j) == right then left else Root(parent, rank, j)
  }

  /** Hanging one root under another redirects exactly the first one's class. */
  lemma {:induction false} LinkMovesRoots(parent: Links, rank: Links, left: nat, right: nat, linked: Links)
    requires Acyclic(parent, rank) && left < |parent| && right < |parent| && left != right
    requires parent[left] == left && parent[right] == right && linked == parent[right := left]
    ensures Acyclic(linked, Lifted(parent, rank, left, right))
    ensures forall j: nat :: j < |parent| ==>
              Root(linked, Lifted(parent, rank, left, right), j) == Joined(parent, rank, left, right, j)
  {
    forall j: nat | j < |parent|
      ensures Root(linked, Lifted(parent, rank, left, right), j) == Joined(parent, rank, left, right, j)
    {
      LinkMovesRoot(parent, rank, left, right, linked, j);
    }
  }

  lemma {:induction false} LinkMovesRoot(parent: Links, rank: Links, left: nat, right: nat, linked: Links, j: nat)
    requires Acyclic(parent, rank) && j < |parent| && left < |parent| && right < |parent| && left != right
    requires parent[left] == left && parent[right] == right && linked == parent[right := left]
    requires Acyclic(linked, Lifted(parent, rank, left, right))
    ensures Root(linked, Lifted(parent, rank, left, right), j) == Joined(parent, rank, left, right, j)
    decreases rank[j]
  {
    if parent[j] != j {
      LinkMovesRoot(parent, rank, left, right, linked, parent[j]);
    }
  }

  class Forest {
    var parent: Links
    ghost var rank: Links

    ghost predicate Valid()
      reads this
    {
      Acyclic(parent, rank)
    }

    constructor (n: nat)
      ensures Valid()
      ensures |parent| == n
      ensures forall i: nat :: i < n ==> Root(parent, rank, i) == i
    {
      parent := seq(n, i => i);
      rank := seq(n, _ => 0);
    }

    /** Walks to the root, halving the path on the way. */
    method Find(index: nat) returns (root: nat)
      requires Valid() && index < |parent|
      modifies this`parent
      ensures Valid() && |parent| == old(|parent|)
      ensures root == old(Root(parent, rank, index))
      ensures SameRoots(old(parent), parent, rank)
    {
      root := index;
      while parent[root] != root
        invariant Valid() && root < |parent| && |parent| == old(|parent|)
        invariant Root(parent, rank, root) == old(Root(parent, rank, index))
        invariant SameRoots(old(parent), parent, rank)
        decreases rank[root]
      {
        HalvingKeepsRoots(parent, rank, root, parent[root := parent[parent[root]]]);
        parent := parent[root := parent[parent[root]]];
        root := parent[root];
      }
    }

    /** Afterwards the two classes have the root of `left`, and no other class moved. */
    method Union(left: nat, right: nat)
      requires Valid() && left < |parent| && right < |parent|
      modifies this
      ensures Valid() && |parent| == old(|parent|)
      ensures forall j: nat :: j < |parent| ==>
                Root(parent, rank, j) ==
                old(Joined(parent, rank, Root(parent, rank, left), Root(parent, rank, right), j))
    {
      var leftRoot: nat := Find(left);
      var rightRoot: nat := Find(right);
      if leftRoot != rightRoot {
        LinkMovesRoots(parent, rank, leftRoot, rightRoot, parent[rightRoot := leftRoot]);
        rank := Lifted(parent, rank, leftRoot, rightRoot);
        parent := parent[rightRoot := leftRoot];
      }
    }
  }
}
