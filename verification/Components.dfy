/** Grouping of items that hold a common key, transitively. */
module Components {
  import opened UnionFind

  type Key = string

  ghost predicate Share(keys: seq<set<Key>>, i: nat, j: nat) {
    i < |keys| && j < |keys| && exists k :: k in keys[i] && k in keys[j]
  }

  ghost predicate Chain(keys: seq<set<Key>>, path: seq<nat>) {
    && |path| > 0
    && (forall a :: 0 <= a < |path| ==> path[a] < |keys|)
    && (forall a :: 0 <= a < |path| - 1 ==> Share(keys, path[a], path[a + 1]))
  }

  /** The transitive closure of sharing a key. */
  ghost predicate Linked(keys: seq<set<Key>>, i: nat, j: nat) {
    exists path: seq<nat> :: Chain(keys, path) && path[0] == i && path[|path| - 1] == j
  }

  lemma {:induction false} LinkedReflexive(keys: seq<set<Key>>, i: nat)
    requires i < |keys|
    ensures Linked(keys, i, i)
  {
    assert Chain(keys, [i]);
  }

  lemma {:induction false} LinkedTransitive(keys: seq<set<Key>>, i: nat, j: nat, k: nat)
    requires Linked(keys, i, j) && Linked(keys, j, k)
    ensures Linked(keys, i, k)
  {
    var front: seq<nat> :| Chain(keys, front) && front[0] == i && front[|front| - 1] == j;
    var back: seq<nat> :| Chain(keys, back) && back[0] == j && back[|back| - 1] == k;
    var path := front + back[1..];
    assert forall a :: |front| <= a < |path| ==> path[a] == back[a - |front| + 1];
    assert forall a :: |front| - 1 <= a < |path| - 1 ==> path[a] == back[a - |front| + 1];
    assert Chain(keys, path);
  }

  lemma {:induction false} LinkedSymmetric(keys: seq<set<Key>>, i: nat, j: nat)
    requires Linked(keys, i, j)
    ensures Linked(keys, j, i)
  {
    var path: seq<nat> :| Chain(keys, path) && path[0] == i && path[|path| - 1] == j;
    var n := |path|;
    var back := seq(n, a requires 0 <= a < n => path[n - 1 - a]);
    forall a | 0 <= a < n - 1
      ensures Share(keys, back[a], back[a + 1])
    {
      assert Share(keys, path[n - 2 - a], path[n - 2 - a + 1]);
    }
    assert Chain(keys, back);
  }

  lemma {:induction false} ShareLinks(keys: seq<set<Key>>, i: nat, j: nat)
    requires Share(keys, i, j)
    ensures Linked(keys, i, j)
  {
    assert Chain(keys, [i, j]);
  }

  /** The classes computed so far only ever join linked items. */
  ghost predicate Sound(keys: seq<set<Key>>, parent: Links, rank: Links) {
    && Acyclic(parent, rank) && |parent| == |keys|
    && forall i: nat, j: nat {:trigger Linked(keys, i, j)} ::
         i < |keys| && j < |keys| && Root(parent, rank, i) == Root(parent, rank, j) ==>
         Linked(keys, i, j)
  }

  /** `k` of item `i` has a holder in the class of `i`. */
  ghost predicate Held(holder: map<Key, nat>, parent: Links, rank: Links, i: nat, k: Key)
    requires Acyclic(parent, rank) && i < |parent|
  {
    k in holder && holder[k] < |parent| && Root(parent, rank, holder[k]) == Root(parent, rank, i)
  }

  lemma {:induction false} UnionKeepsSound(keys: seq<set<Key>>, before: Links, rank: Links, after: Links,
      lifted: Links, l: nat, r: nat)
    requires Sound(keys, before, rank) && l < |keys| && r < |keys| && Linked(keys, l, r)
    requires Acyclic(after, lifted) && |after| == |before|
    requires forall j: nat :: j < |after| ==>
               Root(after, lifted, j) == Joined(before, rank, Root(before, rank, l), Root(before, rank, r), j)
    ensures Sound(keys, after, lifted)
  {
    forall i: nat, j: nat | i < |keys| && j < |keys| && Root(after, lifted, i) == Root(after, lifted, j)
      ensures Linked(keys, i, j)
    {
      LinkedSymmetric(keys, l, r);
      if Root(before, rank, i) == Root(before, rank, r) && Root(before, rank, j) == Root(before, rank, l) {
        LinkedTransitive(keys, i, r, l);
        LinkedTransitive(keys, i, l, j);
      } else if Root(before, rank, i) == Root(before, rank, l) && Root(before, rank, j) == Root(before, rank, r) {
        LinkedTransitive(keys, i, l, r);
        LinkedTransitive(keys, i, r, j);
      }
    }
  }

  /** Once every key of every item is held, equal roots are exactly linked items. */
  lemma {:induction false} RootsAreClasses(keys: seq<set<Key>>, holder: map<Key, nat>, parent: Links, rank: Links,
      i: nat, j: nat)
    requires Sound(keys, parent, rank) && i < |keys| && j < |keys|
    requires forall a: nat, k :: a < |keys| && k in keys[a] ==> Held(holder, parent, rank, a, k)
    ensures Root(parent, rank, i) == Root(parent, rank, j) <==> Linked(keys, i, j)
  {
    if Linked(keys, i, j) {
      var path: seq<nat> :| Chain(keys, path) && path[0] == i && path[|path| - 1] == j;
      ChainHasOneRoot(keys, holder, parent, rank, path);
    }
  }

  lemma {:induction false} ChainHasOneRoot(keys: seq<set<Key>>, holder: map<Key, nat>, parent: Links, rank: Links,
      path: seq<nat>)
    requires Acyclic(parent, rank) && |parent| == |keys| && Chain(keys, path)
    requires forall a: nat, k :: a < |keys| && k in keys[a] ==> Held(holder, parent, rank, a, k)
    ensures Root(parent, rank, path[0]) == Root(parent, rank, path[|path| - 1])
  {
    if |path| > 1 {
      assert Share(keys, path[0], path[0 + 1]);
      var k :| k in keys[path[0]] && k in keys[path[1]];
      assert Held(holder, parent, rank, path[0], k) && Held(holder, parent, rank, path[1], k);
      forall a | 0 <= a < |path[1..]| - 1
        ensures Share(keys, path[1..][a], path[1..][a + 1])
      {
        assert Share(keys, path[a + 1], path[a + 1 + 1]);
      }
      ChainHasOneRoot(keys, holder, parent, rank, path[1..]);
    }
  }

  /** What linking the first `done` items has established. */
  ghost predicate Progress(keys: seq<set<Key>>, holder: map<Key, nat>, parent: Links, rank: Links, done: nat) {
    && Sound(keys, parent, rank) && done <= |keys|
    && (forall k :: k in holder ==> holder[k] < |keys| && k in keys[holder[k]])
    && (forall a: nat, k :: a < done && k in keys[a] ==> Held(holder, parent, rank, a, k))
  }

  /** Two items with one root still have one root after any union. */
  lemma {:induction false} UnionKeepsHolders(keys: seq<set<Key>>, holder: map<Key, nat>, before: Links, rank: Links,
      after: Links, lifted: Links, l: nat, r: nat)
    requires Acyclic(before, rank) && |before| == |keys| && l < |keys| && r < |keys|
    requires Acyclic(after, lifted) && |after| == |before|
    requires forall j: nat :: j < |after| ==>
               Root(after, lifted, j) == Joined(before, rank, Root(before, rank, l), Root(before, rank, r), j)
    ensures forall a: nat, k :: a < |keys| && Held(holder, before, rank, a, k) ==> Held(holder, after, lifted, a, k)
  {
    forall a: nat, k | a < |keys| && Held(holder, before, rank, a, k)
      ensures Held(holder, after, lifted, a, k)
    {
      assert Root(after, lifted, a) == Root(after, lifted, holder[k]);
    }
  }

  /** Links item `index` to the first holder of `key`, or makes it that holder. */
  method LinkKey(forest: Forest, keys: seq<set<Key>>, holder: map<Key, nat>, index: nat, key: Key)
    returns (holder': map<Key, nat>)
    requires forest.Valid() && index < |keys| && key in keys[index]
    requires Progress(keys, holder, forest.parent, forest.rank, index)
    modifies forest
    ensures forest.Valid() && Progress(keys, holder', forest.parent, forest.rank, index)
    ensures Held(holder', forest.parent, forest.rank, index, key)
    ensures forall k :: k in keys[index] && old(Held(holder, forest.parent, forest.rank, index, k)) ==>
              Held(holder', forest.parent, forest.rank, index, k)
  {
    holder' := holder;
    if key in holder {
      ghost var before, rank := forest.parent, forest.rank;
      assert Share(keys, index, holder[key]);
      ShareLinks(keys, index, holder[key]);
      forest.Union(index, holder[key]);
      UnionKeepsSound(keys, before, rank, forest.parent, forest.rank, index, holder[key]);
      UnionKeepsHolders(keys, holder, before, rank, forest.parent, forest.rank, index, holder[key]);
    } else {
      holder' := holder[key := index];
    }
  }

  /** Links item `index` through each of its keys, in any order of the keys. */
  method LinkItem(forest: Forest, keys: seq<set<Key>>, holder: map<Key, nat>, index: nat)
    returns (holder': map<Key, nat>)
    requires forest.Valid() && index < |keys| && Progress(keys, holder, forest.parent, forest.rank, index)
    modifies forest
    ensures forest.Valid() && Progress(keys, holder', forest.parent, forest.rank, index + 1)
  {
    holder' := holder;
    var todo := keys[index];
    while todo != {}
      invariant forest.Valid() && todo <= keys[index]
      invariant Progress(keys, holder', forest.parent, forest.rank, index)
      invariant forall k :: k in keys[index] && k !in todo ==> Held(holder', forest.parent, forest.rank, index, k)
      decreases |todo|
    {
      var key :| key in todo;
      todo := todo - {key};
      holder' := LinkKey(forest, keys, holder', index, key);
    }
  }

  /** Links every item to the first holder of each of its keys. */
  method LinkByKey(keys: seq<set<Key>>) returns (forest: Forest)
    ensures fresh(forest) && forest.Valid() && |forest.parent| == |keys|
    ensures forall i: nat, j: nat {:trigger Linked(keys, i, j)} :: i < |keys| && j < |keys| ==>
              (Root(forest.parent, forest.rank, i) == Root(forest.parent, forest.rank, j) <==> Linked(keys, i, j))
  {
    forest := new Forest(|keys|);
    var holder: map<Key, nat> := map[];
    forall i: nat | i < |keys| {
      LinkedReflexive(keys, i);
    }
    for index := 0 to |keys|
      invariant fresh(forest) && forest.Valid() && Progress(keys, holder, forest.parent, forest.rank, index)
    {
      holder := LinkItem(forest, keys, holder, index);
    }
    forall i: nat, j: nat | i < |keys| && j < |keys| {
      RootsAreClasses(keys, holder, forest.parent, forest.rank, i, j);
    }
  }

  ghost predicate Ascending(s: seq<nat>) {
    forall a, b :: 0 <= a < b < |s| ==> s[a] < s[b]
  }

  /** Every class of linked items is one group; groups and their members are in item order. */
  ghost predicate IsClasses(keys: seq<set<Key>>, groups: seq<seq<nat>>) {
    && (forall g :: 0 <= g < |groups| ==> |groups[g]| > 0 && Ascending(groups[g]))
    && (forall g, a :: 0 <= g < |groups| && 0 <= a < |groups[g]| ==>
          groups[g][a] < |keys| && Linked(keys, groups[g][a], groups[g][0]))
    && (forall g, h :: 0 <= g < h < |groups| ==>
          groups[g][0] < groups[h][0] && !Linked(keys, groups[g][0], groups[h][0]))
    && (forall i: nat :: i < |keys| ==> InSome(groups, i))
  }

  ghost predicate InSome(groups: seq<seq<nat>>, i: nat) {
    exists g :: 0 <= g < |groups| && i in groups[g]
  }

  /** Two members are linked exactly when they are in one group. */
  lemma {:induction false} ClassesAreLinked(keys: seq<set<Key>>, groups: seq<seq<nat>>, g: nat, h: nat, i: nat, j: nat)
    requires IsClasses(keys, groups) && g < |groups| && h < |groups| && i in groups[g] && j in groups[h]
    ensures g == h <==> Linked(keys, i, j)
  {
    LinkedSymmetric(keys, i, groups[g][0]);
    LinkedSymmetric(keys, j, groups[h][0]);
    if g == h {
      LinkedTransitive(keys, i, groups[g][0], j);
    } else if Linked(keys, i, j) {
      LinkedTransitive(keys, groups[g][0], i, j);
      LinkedTransitive(keys, groups[g][0], j, groups[h][0]);
      LinkedSymmetric(keys, groups[g][0], groups[h][0]);
    }
  }

  /** Labels that agree exactly on linked items. */
  ghost predicate LabelsFit(keys: seq<set<Key>>, labels: seq<nat>) {
    && |labels| == |keys|
    && forall i: nat, j: nat {:trigger Linked(keys, i, j)} :: i < |keys| && j < |keys| ==>
         (labels[i] == labels[j] <==> Linked(keys, i, j))
  }

  /** The items below `n` filed under their labels; `order` lists the labels as first met. */
  ghost predicate Filed(files: map<nat, seq<nat>>, order: seq<nat>, labels: seq<nat>, n: nat) {
    && n <= |labels|
    && (forall r :: r in order <==> r in files)
    && (forall r :: r in files ==> |files[r]| > 0 && Ascending(files[r]))
    && (forall r, a :: r in files && 0 <= a < |files[r]| ==> files[r][a] < n && labels[files[r][a]] == r)
    && (forall i: nat :: i < n ==> labels[i] in files && i in files[labels[i]])
    && (forall g, h :: 0 <= g < h < |order| ==> files[order[g]][0] < files[order[h]][0])
  }

  lemma {:induction false} FilesGiveClasses(keys: seq<set<Key>>, labels: seq<nat>, files: map<nat, seq<nat>>,
      order: seq<nat>, groups: seq<seq<nat>>)
    requires LabelsFit(keys, labels) && Filed(files, order, labels, |keys|)
    requires |groups| == |order| && forall g :: 0 <= g < |groups| ==> groups[g] == files[order[g]]
    ensures IsClasses(keys, groups)
  {
    forall i: nat | i < |keys|
      ensures InSome(groups, i)
    {
      var g :| 0 <= g < |order| && order[g] == labels[i];
      assert i in groups[g];
    }
    forall g | 0 <= g < |groups|
      ensures |groups[g]| > 0 && Ascending(groups[g]) && labels[groups[g][0]] == order[g]
    {
    }
    forall g, a | 0 <= g < |groups| && 0 <= a < |groups[g]|
      ensures groups[g][a] < |keys| && Linked(keys, groups[g][a], groups[g][0])
    {
    }
    forall g, h | 0 <= g < h < |groups|
      ensures groups[g][0] < groups[h][0] && !Linked(keys, groups[g][0], groups[h][0])
    {
      assert order[g] != order[h];
    }
  }

  lemma {:induction false} FileMore(files: map<nat, seq<nat>>, order: seq<nat>, labels: seq<nat>, n: nat)
    requires Filed(files, order, labels, n) && n < |labels| && labels[n] in files
    ensures Filed(files[labels[n] := files[labels[n]] + [n]], order, labels, n + 1)
  {
  }

  lemma {:induction false} FileFirst(files: map<nat, seq<nat>>, order: seq<nat>, labels: seq<nat>, n: nat)
    requires Filed(files, order, labels, n) && n < |labels| && labels[n] !in files
    ensures Filed(files[labels[n] := [n]], order + [labels[n]], labels, n + 1)
  {
  }

  /** The root of every item, once all are linked. */
  method Roots(keys: seq<set<Key>>) returns (roots: seq<nat>)
    ensures LabelsFit(keys, roots)
  {
    var forest := LinkByKey(keys);
    ghost var parent, rank := forest.parent, forest.rank;
    roots := [];
    for index := 0 to |keys|
      invariant fresh(forest) && forest.Valid() && forest.rank == rank && |roots| == index
      invariant |forest.parent| == |parent| && SameRoots(parent, forest.parent, rank)
      invariant forall i: nat :: i < index ==> roots[i] == Root(parent, rank, i)
    {
      var root := forest.Find(index);
      roots := roots + [root];
    }
  }

  /** Collects every item under its root, in the order the roots are first met. */
  method Classes(keys: seq<set<Key>>) returns (groups: seq<seq<nat>>)
    ensures IsClasses(keys, groups)
  {
    var roots := Roots(keys);
    var files: map<nat, seq<nat>> := map[];
    var order: seq<nat> := [];
    for index := 0 to |keys|
      invariant Filed(files, order, roots, index)
    {
      var root := roots[index];
      if root in files {
        FileMore(files, order, roots, index);
        files := files[root := files[root] + [index]];
      } else {
        FileFirst(files, order, roots, index);
        files := files[root := [index]];
        order := order + [root];
      }
    }
    groups := seq(|order|, g requires 0 <= g < |order| => files[order[g]]);
    FilesGiveClasses(keys, roots, files, order, groups);
  }
}
