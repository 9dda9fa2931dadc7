/** The second pass: findings that share a cause family, directly or through
    others, become one finding. */
module MergePass {
  import opened Findings
  import opened Components

  function FamiliesOf(stats: Statistics, ids: seq<string>): set<string> {
    set p | p in ids && p in stats.patterns && p != OTHER :: stats.patterns[p].family
  }

  /** The positions of the quantified findings below `n`, in order. */
  function QuantifiedAt(fs: seq<Finding>, n: nat): (at: seq<nat>)
    requires n <= |fs|
    ensures Ascending(at)
    ensures forall k :: 0 <= k < |at| ==> at[k] < n && fs[at[k]].Quantified()
    ensures forall i: nat :: i < n && fs[i].Quantified() ==> i in at
  {
    if n == 0 then [] else
      QuantifiedAt(fs, n - 1) + if fs[n - 1].Quantified() then [n - 1] else []
  }

  function Unquantified(fs: seq<Finding>): (r: seq<Finding>)
    ensures forall i :: 0 <= i < |r| ==> !r[i].Quantified() && r[i] in fs
    ensures forall i :: 0 <= i < |fs| && !fs[i].Quantified() ==> fs[i] in r
  {
    if fs == [] then [] else
      var n := |fs| - 1;
      assert fs == fs[..n] + [fs[n]];
      Unquantified(fs[..n]) + if fs[n].Quantified() then [] else [fs[n]]
  }

  /** The unquantified findings stay in order. */
  lemma {:induction false} UnquantifiedInOrder(fs: seq<Finding>, j: nat, k: nat) returns (a: nat, b: nat)
    requires j < k < |Unquantified(fs)|
    ensures a < b < |fs| && Unquantified(fs)[j] == fs[a] && Unquantified(fs)[k] == fs[b]
  {
    var n := |fs| - 1;
    assert fs == fs[..n] + [fs[n]];
    if k < |Unquantified(fs[..n])| {
      a, b := UnquantifiedInOrder(fs[..n], j, k);
    } else {
      assert Unquantified(fs[..n])[j] in fs[..n];
      a :| 0 <= a < n && fs[..n][a] == Unquantified(fs[..n])[j];
      b := n;
    }
  }

  /** The family sets of the quantified findings. */
  function ItemFamilies(stats: Statistics, fs: seq<Finding>, at: seq<nat>): (keys: seq<set<string>>)
    requires forall k :: 0 <= k < |at| ==> at[k] < |fs|
    ensures |keys| == |at|
    ensures forall k :: 0 <= k < |at| ==> keys[k] == FamiliesOf(stats, fs[at[k]].ids)
  {
    seq(|at|, k requires 0 <= k < |at| => FamiliesOf(stats, fs[at[k]].ids))
  }

  /** The ids of the members of `group`, in order. */
  function MemberIds(fs: seq<Finding>, at: seq<nat>, group: seq<nat>): seq<string>
    requires forall a :: 0 <= a < |group| ==> group[a] < |at| && at[group[a]] < |fs|
  {
    if group == [] then [] else
      var n := |group| - 1;
      MemberIds(fs, at, group[..n]) + fs[at[group[n]]].ids
  }

  lemma {:induction false} MemberIdsAre(fs: seq<Finding>, at: seq<nat>, group: seq<nat>, p: string)
    requires forall a :: 0 <= a < |group| ==> group[a] < |at| && at[group[a]] < |fs|
    ensures p in MemberIds(fs, at, group) <==> exists a :: 0 <= a < |group| && p in fs[at[group[a]]].ids
  {
    if group != [] {
      MemberIdsAre(fs, at, group[..|group| - 1], p);
    }
  }

  /** Findings that share a family, over quantified positions only. */
  lemma {:induction false} WholeMeansUnlinked(stats: Statistics, fs: seq<Finding>, at: seq<nat>, i: nat, j: nat)
    requires FamiliesWhole(stats, fs) && at == QuantifiedAt(fs, |fs|)
    requires Linked(ItemFamilies(stats, fs, at), i, j)
    ensures i == j
  {
    var keys := ItemFamilies(stats, fs, at);
    var path: seq<nat> :| Chain(keys, path) && path[0] == i && path[|path| - 1] == j;
    forall a: nat, b: nat | Share(keys, a, b)
      ensures a == b
    {
      WholeMeansUnshared(stats, fs, at, a, b);
    }
    UnsharedChain(keys, path);
  }

  lemma {:induction false} WholeMeansUnshared(stats: Statistics, fs: seq<Finding>, at: seq<nat>, a: nat, b: nat)
    requires FamiliesWhole(stats, fs) && at == QuantifiedAt(fs, |fs|)
    requires Share(ItemFamilies(stats, fs, at), a, b)
    ensures a == b
  {
    var keys := ItemFamilies(stats, fs, at);
    var family :| family in keys[a] && family in keys[b];
    var p :| p in fs[at[a]].ids && p in stats.patterns && p != OTHER && stats.patterns[p].family == family;
    var q :| q in fs[at[b]].ids && q in stats.patterns && q != OTHER && stats.patterns[q].family == family;
    assert CitedBy(fs, at[a], p) && CitedBy(fs, at[b], q) && Related(stats, p, q);
  }

  lemma {:induction false} UnsharedChain(keys: seq<set<string>>, path: seq<nat>)
    requires Chain(keys, path)
    requires forall a: nat, b: nat :: Share(keys, a, b) ==> a == b
    ensures path[0] == path[|path| - 1]
  {
    if |path| > 1 {
      assert Share(keys, path[0], path[0 + 1]);
      forall a | 0 <= a < |path[1..]| - 1
        ensures Share(keys, path[1..][a], path[1..][a + 1])
      {
        assert Share(keys, path[a + 1], path[a + 1 + 1]);
      }
      UnsharedChain(keys, path[1..]);
    }
  }

  /** Groups of item numbers that point at findings. */
  ghost predicate PointsAt(fs: seq<Finding>, at: seq<nat>, groups: seq<seq<nat>>) {
    && (forall g, a :: 0 <= g < |groups| && 0 <= a < |groups[g]| ==> groups[g][a] < |at| && at[groups[g][a]] < |fs|)
    && (forall g :: 0 <= g < |groups| ==> |groups[g]| > 0)
  }

  /** A group as one finding: the first member's text over all the members' ids. */
  function Combined(fs: seq<Finding>, at: seq<nat>, group: seq<nat>): Finding
    requires |group| > 0 && forall a :: 0 <= a < |group| ==> group[a] < |at| && at[group[a]] < |fs|
  {
    fs[at[group[0]]].(ids := Deduplicated(MemberIds(fs, at, group)))
  }

  ghost predicate IsMerged(fs: seq<Finding>, at: seq<nat>, groups: seq<seq<nat>>, merged: seq<Finding>)
    requires PointsAt(fs, at, groups)
  {
    && |merged| == |groups|
    && forall g :: 0 <= g < |groups| ==> merged[g] == Combined(fs, at, groups[g])
  }

  lemma {:induction false} MergedCites(stats: Statistics, fs: seq<Finding>, at: seq<nat>, groups: seq<seq<nat>>,
      merged: seq<Finding>, g: nat, p: string)
    returns (item: nat)
    requires WellFormed(stats) && CitesKnown(stats, fs) && at == QuantifiedAt(fs, |fs|)
    requires PointsAt(fs, at, groups) && IsMerged(fs, at, groups, merged) && CitedBy(merged, g, p)
    ensures item in groups[g] && item < |at| && CitedBy(fs, at[item], p)
  {
    MemberIdsAre(fs, at, groups[g], p);
    var a :| 0 <= a < |groups[g]| && p in fs[at[groups[g][a]]].ids;
    item := groups[g][a];
  }

  lemma {:induction false} MergedIsQuantified(stats: Statistics, fs: seq<Finding>, at: seq<nat>,
      groups: seq<seq<nat>>, merged: seq<Finding>, g: nat)
    requires WellFormed(stats) && CitesKnown(stats, fs) && at == QuantifiedAt(fs, |fs|)
    requires PointsAt(fs, at, groups) && IsMerged(fs, at, groups, merged) && g < |groups|
    ensures merged[g].Quantified()
  {
    MemberIdsAre(fs, at, groups[g], UNQUANTIFIED);
    assert forall b :: 0 <= b < |groups[g]| ==>
        (CitedBy(fs, at[groups[g][b]], UNQUANTIFIED) <==> UNQUANTIFIED in fs[at[groups[g][b]]].ids);
    assert UNQUANTIFIED in [UNQUANTIFIED];
  }

  lemma {:induction false} MemberIsCited(stats: Statistics, fs: seq<Finding>, at: seq<nat>, groups: seq<seq<nat>>,
      merged: seq<Finding>, g: nat, a: nat, p: string)
    requires WellFormed(stats) && CitesKnown(stats, fs) && at == QuantifiedAt(fs, |fs|)
    requires PointsAt(fs, at, groups) && IsMerged(fs, at, groups, merged)
    requires g < |groups| && a < |groups[g]| && CitedBy(fs, at[groups[g][a]], p)
    ensures CitedBy(merged, g, p)
  {
    MemberIdsAre(fs, at, groups[g], p);
    MergedIsQuantified(stats, fs, at, groups, merged, g);
  }

  /** Merging loses no citation. */
  lemma {:induction false} MergedKeepsCitations(stats: Statistics, fs: seq<Finding>, at: seq<nat>,
      groups: seq<seq<nat>>, merged: seq<Finding>, p: string)
    requires WellFormed(stats) && CitesKnown(stats, fs) && at == QuantifiedAt(fs, |fs|)
    requires PointsAt(fs, at, groups) && IsMerged(fs, at, groups, merged)
    requires forall i: nat :: i < |at| ==> InSome(groups, i)
    ensures Cited(merged, p) <==> Cited(fs, p)
  {
    if g :| CitedBy(merged, g, p) {
      var item := MergedCites(stats, fs, at, groups, merged, g, p);
    }
    if i :| CitedBy(fs, i, p) {
      assert i in at;
      var k :| 0 <= k < |at| && at[k] == i;
      assert InSome(groups, k);
      var g :| 0 <= g < |groups| && k in groups[g];
      var a :| 0 <= a < |groups[g]| && groups[g][a] == k;
      MemberIsCited(stats, fs, at, groups, merged, g, a, p);
    }
  }

  /** The ids of a finding stay together. */
  lemma {:induction false} MergedKeepsTogether(stats: Statistics, fs: seq<Finding>, at: seq<nat>,
      groups: seq<seq<nat>>, merged: seq<Finding>)
    requires WellFormed(stats) && CitesKnown(stats, fs) && at == QuantifiedAt(fs, |fs|)
    requires PointsAt(fs, at, groups) && IsMerged(fs, at, groups, merged)
    requires forall i: nat :: i < |at| ==> InSome(groups, i)
    ensures Together(fs, merged)
  {
    forall i, p, q | CitedBy(fs, i, p) && CitedBy(fs, i, q)
      ensures InOneFinding(merged, p, q)
    {
      assert i in at;
      var k :| 0 <= k < |at| && at[k] == i;
      assert InSome(groups, k);
      var g :| 0 <= g < |groups| && k in groups[g];
      var a :| 0 <= a < |groups[g]| && groups[g][a] == k;
      MemberIsCited(stats, fs, at, groups, merged, g, a, p);
      MemberIsCited(stats, fs, at, groups, merged, g, a, q);
    }
  }

  /** Related patterns of two merged findings put both in one class. */
  lemma {:induction false} MergedIsWhole(stats: Statistics, fs: seq<Finding>, at: seq<nat>, groups: seq<seq<nat>>,
      merged: seq<Finding>, g: nat, h: nat, p: string, q: string)
    requires WellFormed(stats) && CitesKnown(stats, fs) && Exclusive(fs) && at == QuantifiedAt(fs, |fs|)
    requires PointsAt(fs, at, groups) && IsMerged(fs, at, groups, merged)
    requires IsClasses(ItemFamilies(stats, fs, at), groups)
    requires CitedBy(merged, g, p) && CitedBy(merged, h, q) && Related(stats, p, q)
    ensures g == h
  {
    var keys := ItemFamilies(stats, fs, at);
    var i := MergedCites(stats, fs, at, groups, merged, g, p);
    var j := MergedCites(stats, fs, at, groups, merged, h, q);
    if p == q {
      assert at[i] == at[j];
      LinkedReflexive(keys, i);
    } else {
      assert stats.patterns[p].family in keys[i] && stats.patterns[p].family in keys[j];
      ShareLinks(keys, i, j);
    }
    ClassesAreLinked(keys, groups, g, h, i, j);
  }

  /** Merging classes makes every family whole and changes no citation. */
  lemma {:induction false} MergedIsAccounted(stats: Statistics, fs: seq<Finding>, at: seq<nat>, groups: seq<seq<nat>>,
      merged: seq<Finding>)
    requires WellFormed(stats) && CitesKnown(stats, fs) && Exclusive(fs) && at == QuantifiedAt(fs, |fs|)
    requires PointsAt(fs, at, groups) && IsMerged(fs, at, groups, merged)
    requires IsClasses(ItemFamilies(stats, fs, at), groups)
    ensures Accounted(stats, merged)
    ensures forall p :: Cited(merged, p) <==> Cited(fs, p)
    ensures Together(fs, merged)
  {
    MergedKeepsTogether(stats, fs, at, groups, merged);
    forall p {
      MergedKeepsCitations(stats, fs, at, groups, merged, p);
    }
    forall g, p | CitedBy(merged, g, p)
      ensures p in stats.patterns
    {
      var item := MergedCites(stats, fs, at, groups, merged, g, p);
    }
    forall g, h, p, q | CitedBy(merged, g, p) && CitedBy(merged, h, q) && Related(stats, p, q)
      ensures g == h
    {
      MergedIsWhole(stats, fs, at, groups, merged, g, h, p, q);
    }
  }

  /** Unquantified findings around and between quantified ones change no accounting. */
  lemma {:induction false} InterleaveKeepsAccount(stats: Statistics, a: seq<Finding>, u: seq<Finding>,
      b: seq<Finding>, v: seq<Finding>)
    requires Accounted(stats, a + b)
    requires forall i :: 0 <= i < |u| ==> !u[i].Quantified()
    requires forall i :: 0 <= i < |v| ==> !v[i].Quantified()
    ensures Accounted(stats, a + u + b + v)
    ensures forall p :: Cited(a + u + b + v, p) <==> Cited(a + b, p)
    ensures Together(a + b, a + u + b + v)
  {
    var all, core := a + u + b + v, a + b;
    forall i | 0 <= i < |all| && all[i].Quantified()
      ensures i < |a| || |a| + |u| <= i < |a| + |u| + |b|
      ensures all[i] == core[if i < |a| then i else i - |u|]
    {
    }
    forall p
      ensures Cited(all, p) <==> Cited(core, p)
    {
      if i :| CitedBy(all, i, p) {
        assert CitedBy(core, if i < |a| then i else i - |u|, p);
      }
      if i :| CitedBy(core, i, p) {
        assert CitedBy(all, if i < |a| then i else i + |u|, p);
      }
    }
    forall i, p | CitedBy(all, i, p)
      ensures CitedBy(core, if i < |a| then i else i - |u|, p)
    {
    }
    forall i, p, q | CitedBy(core, i, p) && CitedBy(core, i, q)
      ensures InOneFinding(all, p, q)
    {
      var j := if i < |a| then i else i + |u|;
      assert CitedBy(all, j, p) && CitedBy(all, j, q);
    }
  }

  ghost predicate Singletons(groups: seq<seq<nat>>) {
    forall g :: 0 <= g < |groups| ==> |groups[g]| == 1
  }

  lemma {:induction false} SingletonsIffWhole(stats: Statistics, fs: seq<Finding>, at: seq<nat>, groups: seq<seq<nat>>)
    requires CitesKnown(stats, fs) && Exclusive(fs) && at == QuantifiedAt(fs, |fs|)
    requires IsClasses(ItemFamilies(stats, fs, at), groups)
    ensures Singletons(groups) <==> FamiliesWhole(stats, fs)
  {
    var keys := ItemFamilies(stats, fs, at);
    if Singletons(groups) {
      forall i, j, p, q | CitedBy(fs, i, p) && CitedBy(fs, j, q) && Related(stats, p, q)
        ensures i == j
      {
        if p != q {
          var a: nat :| a < |at| && at[a] == i;
          var b: nat :| b < |at| && at[b] == j;
          assert stats.patterns[p].family in keys[a] && stats.patterns[p].family in keys[b];
          ShareLinks(keys, a, b);
          SingletonsUnlinked(keys, groups, a, b);
        }
      }
    }
    if FamiliesWhole(stats, fs) {
      forall g | 0 <= g < |groups|
        ensures |groups[g]| == 1
      {
        if |groups[g]| > 1 {
          WholeMeansUnlinked(stats, fs, at, groups[g][1], groups[g][0]);
        }
      }
    }
  }

  lemma {:induction false} SingletonsUnlinked(keys: seq<set<string>>, groups: seq<seq<nat>>, a: nat, b: nat)
    requires IsClasses(keys, groups) && Singletons(groups) && a < |keys| && b < |keys| && Linked(keys, a, b)
    ensures a == b
  {
    assert InSome(groups, a) && InSome(groups, b);
    var g :| 0 <= g < |groups| && a in groups[g];
    var h :| 0 <= h < |groups| && b in groups[h];
    ClassesAreLinked(keys, groups, g, h, a, b);
    assert groups[g][0] == a && groups[h][0] == b;
  }

  /** What the pass makes of `r`: nothing when every class is one finding, else one
      finding a class, those of key findings first, unquantified ones behind. */
  ghost predicate Merges(stats: Statistics, r: Report, out: Report)
    requires IsReport(r)
  {
    var at := QuantifiedAt(r.findings, |r.findings|);
    exists groups, merged, keyGroups ::
      && IsClasses(ItemFamilies(stats, r.findings, at), groups)
      && Rebuilds(r, at, groups, merged, keyGroups, out)
  }

  ghost predicate Rebuilds(r: Report, at: seq<nat>, groups: seq<seq<nat>>, merged: seq<Finding>, keyGroups: nat,
      out: Report)
    requires IsReport(r)
  {
    if Singletons(groups) then out == r else
      && PointsAt(r.findings, at, groups) && IsMerged(r.findings, at, groups, merged) && keyGroups <= |merged|
      && (forall g :: 0 <= g < |groups| ==> (at[groups[g][0]] < r.keyCount <==> g < keyGroups))
      && var keyLoose := Unquantified(r.findings[..r.keyCount]);
         var loose := Unquantified(r.findings[r.keyCount..]);
         out == Report(merged[..keyGroups] + keyLoose + merged[keyGroups..] + loose, keyGroups + |keyLoose|)
  }

  /** The merged finding of a class has the text of the class's first finding. */
  ghost predicate KeepsFirstText(fs: seq<Finding>, at: seq<nat>, groups: seq<seq<nat>>, merged: seq<Finding>)
    requires PointsAt(fs, at, groups) && |merged| == |groups|
  {
    forall g :: 0 <= g < |groups| ==> merged[g] == fs[at[groups[g][0]]].(ids := merged[g].ids)
  }

  lemma {:induction false} MergedKeepsFirstText(fs: seq<Finding>, at: seq<nat>, groups: seq<seq<nat>>,
      merged: seq<Finding>)
    requires PointsAt(fs, at, groups) && IsMerged(fs, at, groups, merged)
    ensures KeepsFirstText(fs, at, groups, merged)
  {
  }

  /** And exactly the ids of the class. */
  ghost predicate HoldsMembers(fs: seq<Finding>, at: seq<nat>, groups: seq<seq<nat>>, merged: seq<Finding>)
    requires PointsAt(fs, at, groups) && |merged| == |groups|
  {
    forall g, p :: 0 <= g < |groups| ==>
      (p in merged[g].ids <==> exists a :: 0 <= a < |groups[g]| && p in fs[at[groups[g][a]]].ids)
  }

  lemma {:induction false} MergedAreMembers(fs: seq<Finding>, at: seq<nat>, groups: seq<seq<nat>>,
      merged: seq<Finding>)
    requires PointsAt(fs, at, groups) && IsMerged(fs, at, groups, merged)
    ensures HoldsMembers(fs, at, groups, merged)
  {
    forall g, p | 0 <= g < |groups|
      ensures p in merged[g].ids <==> exists a :: 0 <= a < |groups[g]| && p in fs[at[groups[g][a]]].ids
    {
      MemberIdsAre(fs, at, groups[g], p);
    }
  }

  /** `p` stands before `q`. */
  ghost predicate Before(s: seq<string>, p: string, q: string) {
    exists x, y :: 0 <= x < y < |s| && s[x] == p && s[y] == q
  }

  lemma {:induction false} BeforeInConcat(s: seq<string>, t: seq<string>, p: string, q: string)
    ensures Before(s, p, q) || Before(t, p, q) || (p in s && q in t) ==> Before(s + t, p, q)
  {
    var all := s + t;
    if x, y :| 0 <= x < y < |s| && s[x] == p && s[y] == q {
      assert all[x] == p && all[y] == q;
    } else if x, y :| 0 <= x < y < |t| && t[x] == p && t[y] == q {
      assert all[|s| + x] == p && all[|s| + y] == q;
    } else if p in s && q in t {
      var x :| 0 <= x < |s| && s[x] == p;
      var y :| 0 <= y < |t| && t[y] == q;
      assert all[x] == p && all[|s| + y] == q;
    }
  }

  /** Member `a` has `p` and a later member `q`, or one member has both in this order. */
  ghost predicate MembersBefore(fs: seq<Finding>, at: seq<nat>, group: seq<nat>, a: nat, b: nat, p: string, q: string)
    requires forall c :: 0 <= c < |group| ==> group[c] < |at| && at[group[c]] < |fs|
  {
    && a <= b < |group|
    && if a == b then Before(fs[at[group[a]]].ids, p, q) else p in fs[at[group[a]]].ids && q in fs[at[group[b]]].ids
  }

  lemma {:induction false} MembersInOrder(fs: seq<Finding>, at: seq<nat>, group: seq<nat>, a: nat, b: nat, p: string,
      q: string)
    requires forall c :: 0 <= c < |group| ==> group[c] < |at| && at[group[c]] < |fs|
    requires MembersBefore(fs, at, group, a, b, p, q)
    ensures Before(MemberIds(fs, at, group), p, q)
  {
    var n := |group| - 1;
    BeforeInConcat(MemberIds(fs, at, group[..n]), fs[at[group[n]]].ids, p, q);
    if b < n {
      MembersInOrder(fs, at, group[..n], a, b, p, q);
    } else if a < n {
      MemberIdsAre(fs, at, group[..n], p);
      assert group[..n][a] == group[a];
    }
  }

  lemma {:induction false} MemberIdsDistinct(stats: Statistics, fs: seq<Finding>, at: seq<nat>, group: seq<nat>)
    requires CitesKnown(stats, fs) && Exclusive(fs) && at == QuantifiedAt(fs, |fs|) && Ascending(group)
    requires forall c :: 0 <= c < |group| ==> group[c] < |at| && at[group[c]] < |fs|
    ensures NoDuplicates(MemberIds(fs, at, group))
  {
    if group != [] {
      var n := |group| - 1;
      var front, last := MemberIds(fs, at, group[..n]), fs[at[group[n]]].ids;
      MemberIdsDistinct(stats, fs, at, group[..n]);
      forall p | p in last
        ensures p !in front
      {
        MemberIdsAre(fs, at, group[..n], p);
        assert CitedBy(fs, at[group[n]], p);
        assert forall a :: 0 <= a < n && p in fs[at[group[a]]].ids ==> CitedBy(fs, at[group[a]], p);
      }
      ConcatNoDuplicates(front, last);
    }
  }

  /** A merged finding lists its patterns member by member, and each member's in its order. */
  lemma {:induction false} MergedInOrder(stats: Statistics, fs: seq<Finding>, at: seq<nat>, groups: seq<seq<nat>>,
      merged: seq<Finding>, g: nat, a: nat, b: nat, p: string, q: string)
    requires CitesKnown(stats, fs) && Exclusive(fs) && at == QuantifiedAt(fs, |fs|)
    requires PointsAt(fs, at, groups) && IsMerged(fs, at, groups, merged) && g < |groups| && Ascending(groups[g])
    requires MembersBefore(fs, at, groups[g], a, b, p, q)
    ensures NoDuplicates(merged[g].ids) && Before(merged[g].ids, p, q)
  {
    MemberIdsDistinct(stats, fs, at, groups[g]);
    MembersInOrder(fs, at, groups[g], a, b, p, q);
  }

  /** A class of several has a first finding that cites something. */
  lemma {:induction false} FirstCites(stats: Statistics, fs: seq<Finding>, at: seq<nat>, groups: seq<seq<nat>>, g: nat)
    returns (p: string)
    requires CitesKnown(stats, fs) && at == QuantifiedAt(fs, |fs|) && PointsAt(fs, at, groups)
    requires IsClasses(ItemFamilies(stats, fs, at), groups) && g < |groups| && |groups[g]| > 1
    ensures CitedBy(fs, at[groups[g][0]], p)
  {
    var keys := ItemFamilies(stats, fs, at);
    assert Linked(keys, groups[g][1], groups[g][0]);
    LinkedSymmetric(keys, groups[g][1], groups[g][0]);
    var family := SharedFamily(keys, groups[g][0], groups[g][1]);
    p :| p in fs[at[groups[g][0]]].ids && p in stats.patterns && p != OTHER && stats.patterns[p].family == family;
  }

  lemma {:induction false} SharedFamily(keys: seq<set<string>>, i: nat, j: nat) returns (family: string)
    requires Linked(keys, i, j) && i != j
    ensures i < |keys| && family in keys[i]
  {
    var path: seq<nat> :| Chain(keys, path) && path[0] == i && path[|path| - 1] == j;
    assert Share(keys, path[0], path[0 + 1]);
    family :| family in keys[path[0]] && family in keys[path[1]];
  }

  /** The first finding with a pattern of a class is the class's first finding. */
  lemma {:induction false} FirstTellerIsFirst(stats: Statistics, fs: seq<Finding>, at: seq<nat>, groups: seq<seq<nat>>,
      merged: seq<Finding>, g: nat, i: int)
    requires WellFormed(stats) && CitesKnown(stats, fs) && Exclusive(fs) && at == QuantifiedAt(fs, |fs|)
    requires PointsAt(fs, at, groups) && IsMerged(fs, at, groups, merged)
    requires IsClasses(ItemFamilies(stats, fs, at), groups) && g < |groups| && FirstTeller(fs, i, merged[g])
    ensures i == at[groups[g][0]]
  {
    var p :| p in fs[i].ids && p in merged[g].ids;
    MergedIsQuantified(stats, fs, at, groups, merged, g);
    assert CitedBy(merged, g, p) && CitedBy(fs, i, p);
    var item := MergedCites(stats, fs, at, groups, merged, g, p);
    assert i == at[item];
    var first := at[groups[g][0]];
    if item != groups[g][0] {
      var q := FirstCites(stats, fs, at, groups, g);
      MemberIsCited(stats, fs, at, groups, merged, g, 0, q);
      assert SharesPattern(fs[first], merged[g]);
    }
  }

  /** The merged findings in their places. */
  lemma {:induction false} LayoutPlaces(r: Report, at: seq<nat>, groups: seq<seq<nat>>, merged: seq<Finding>,
      keyGroups: nat, out: Report, h: nat) returns (g: nat)
    requires IsReport(r) && !Singletons(groups) && Rebuilds(r, at, groups, merged, keyGroups, out)
    requires h < |out.findings| && out.findings[h].Quantified()
    ensures g < |merged| == |groups| && out.findings[h] == merged[g] && (h < out.keyCount <==> g < keyGroups)
  {
    var keyLoose, loose := Unquantified(r.findings[..r.keyCount]), Unquantified(r.findings[r.keyCount..]);
    g := if h < keyGroups then h else h - |keyLoose|;
  }

  lemma {:induction false} RebuiltKeepsText(stats: Statistics, r: Report, at: seq<nat>, groups: seq<seq<nat>>,
      merged: seq<Finding>, keyGroups: nat, out: Report)
    requires WellFormed(stats) && IsReport(r) && CitesKnown(stats, r.findings) && Exclusive(r.findings)
    requires at == QuantifiedAt(r.findings, |r.findings|)
    requires IsClasses(ItemFamilies(stats, r.findings, at), groups) && !Singletons(groups)
    requires Rebuilds(r, at, groups, merged, keyGroups, out)
    ensures KeepsText(r, out)
  {
    MergedKeepsFirstText(r.findings, at, groups, merged);
    forall h, i | 0 <= h < |out.findings| && out.findings[h].Quantified() && FirstTeller(r.findings, i, out.findings[h])
      ensures SameText(out.findings[h], r.findings[i]) && (h < out.keyCount <==> i < r.keyCount)
    {
      var g := LayoutPlaces(r, at, groups, merged, keyGroups, out, h);
      FirstTellerIsFirst(stats, r.findings, at, groups, merged, g, i);
    }
  }

  /** What is left as it is keeps its text. */
  lemma {:induction false} SameKeepsText(r: Report)
    requires Exclusive(r.findings)
    ensures KeepsText(r, r)
  {
    forall h, i | 0 <= h < |r.findings| && r.findings[h].Quantified() && FirstTeller(r.findings, i, r.findings[h])
      ensures h == i
    {
      var p :| p in r.findings[i].ids && p in r.findings[h].ids;
      assert CitedBy(r.findings, i, p) && CitedBy(r.findings, h, p);
    }
  }

  /** The finding of a group that keeps its text: the first key finding, else the first. */
  method Primary(r: Report, at: seq<nat>, group: seq<nat>) returns (first: nat)
    requires IsReport(r) && Ascending(at) && Ascending(group) && |group| > 0
    requires forall a :: 0 <= a < |group| ==> group[a] < |at| && at[group[a]] < |r.findings|
    ensures first == group[0]
  {
    for a := 0 to |group|
      invariant a > 0 ==> at[group[0]] >= r.keyCount
    {
      assert at[group[0]] <= at[group[a]];
      if at[group[a]] < r.keyCount {
        return group[a];
      }
    }
    return group[0];
  }

  lemma {:induction false} SingletonsStay(stats: Statistics, r: Report, at: seq<nat>, groups: seq<seq<nat>>)
    requires IsReport(r) && CitesKnown(stats, r.findings) && Exclusive(r.findings)
    requires at == QuantifiedAt(r.findings, |r.findings|)
    requires IsClasses(ItemFamilies(stats, r.findings, at), groups) && Singletons(groups)
    ensures FamiliesWhole(stats, r.findings) && Merges(stats, r, r)
  {
    SingletonsIffWhole(stats, r.findings, at, groups);
    assert Rebuilds(r, at, groups, [], 0, r);
  }

  lemma {:induction false} RebuiltMerges(stats: Statistics, r: Report, at: seq<nat>, groups: seq<seq<nat>>,
      merged: seq<Finding>, keyGroups: nat, out: Report)
    requires IsReport(r) && CitesKnown(stats, r.findings) && Exclusive(r.findings)
    requires at == QuantifiedAt(r.findings, |r.findings|)
    requires IsClasses(ItemFamilies(stats, r.findings, at), groups) && !Singletons(groups)
    requires Rebuilds(r, at, groups, merged, keyGroups, out)
    ensures Merges(stats, r, out) && !FamiliesWhole(stats, r.findings)
  {
    SingletonsIffWhole(stats, r.findings, at, groups);
  }

  lemma {:induction false} LayoutKeepsAccount(stats: Statistics, r: Report, at: seq<nat>, groups: seq<seq<nat>>,
      merged: seq<Finding>, keyGroups: nat, out: Report)
    requires IsReport(r) && !Singletons(groups) && Rebuilds(r, at, groups, merged, keyGroups, out)
    requires Accounted(stats, merged)
    ensures IsReport(out) && Accounted(stats, out.findings)
    ensures forall p :: Cited(out.findings, p) <==> Cited(merged, p)
    ensures Together(merged, out.findings)
  {
    var keyLoose, loose := Unquantified(r.findings[..r.keyCount]), Unquantified(r.findings[r.keyCount..]);
    assert merged == merged[..keyGroups] + merged[keyGroups..];
    InterleaveKeepsAccount(stats, merged[..keyGroups], keyLoose, merged[keyGroups..], loose);
  }

  /** Unquantified findings are passed on as they are. */
  lemma {:induction false} LayoutKeepsLoose(r: Report, at: seq<nat>, groups: seq<seq<nat>>, merged: seq<Finding>,
      keyGroups: nat, out: Report)
    requires IsReport(r) && !Singletons(groups) && Rebuilds(r, at, groups, merged, keyGroups, out)
    requires forall g :: 0 <= g < |merged| ==> merged[g].Quantified()
    ensures forall f :: f in out.findings && !f.Quantified() ==> f in r.findings
  {
    var keyLoose, loose := Unquantified(r.findings[..r.keyCount]), Unquantified(r.findings[r.keyCount..]);
    forall f | f in out.findings && !f.Quantified()
      ensures f in r.findings
    {
      assert f in merged[..keyGroups] || f in merged[keyGroups..] || f in keyLoose || f in loose;
      assert f !in merged;
    }
  }

  /** What a merge keeps. */
  ghost predicate MergeKeeps(stats: Statistics, r: Report, out: Report) {
    && IsReport(out) && Accounted(stats, out.findings) && Together(r.findings, out.findings)
    && (forall p :: Cited(out.findings, p) <==> Cited(r.findings, p))
    && (forall f :: f in out.findings && !f.Quantified() ==> f in r.findings)
    && KeepsText(r, out)
  }

  lemma {:induction false} RebuiltKeeps(stats: Statistics, r: Report, at: seq<nat>, groups: seq<seq<nat>>,
      merged: seq<Finding>, keyGroups: nat, out: Report)
    requires WellFormed(stats) && IsReport(r) && CitesKnown(stats, r.findings) && Exclusive(r.findings)
    requires at == QuantifiedAt(r.findings, |r.findings|)
    requires IsClasses(ItemFamilies(stats, r.findings, at), groups) && !Singletons(groups)
    requires Rebuilds(r, at, groups, merged, keyGroups, out)
    ensures MergeKeeps(stats, r, out)
  {
    MergedIsAccounted(stats, r.findings, at, groups, merged);
    LayoutKeepsAccount(stats, r, at, groups, merged, keyGroups, out);
    TogetherIsTransitive(r.findings, merged, out.findings);
    forall g | 0 <= g < |merged|
      ensures merged[g].Quantified()
    {
      MergedIsQuantified(stats, r.findings, at, groups, merged, g);
    }
    LayoutKeepsLoose(r, at, groups, merged, keyGroups, out);
    RebuiltKeepsText(stats, r, at, groups, merged, keyGroups, out);
  }

  /** The first `n` classes are merged, and the first `keyGroups` of those are key findings. */
  ghost predicate RebuiltUpTo(r: Report, at: seq<nat>, groups: seq<seq<nat>>, n: nat, merged: seq<Finding>,
      keyGroups: nat)
    requires PointsAt(r.findings, at, groups)
  {
    && |merged| == n <= |groups| && keyGroups <= n
    && (forall g :: 0 <= g < n ==> merged[g] == Combined(r.findings, at, groups[g]))
    && (forall g :: 0 <= g < n ==> (at[groups[g][0]] < r.keyCount <==> g < keyGroups))
  }

  lemma {:induction false} RebuildOne(r: Report, at: seq<nat>, groups: seq<seq<nat>>, n: nat, merged: seq<Finding>,
      keyGroups: nat)
    requires PointsAt(r.findings, at, groups) && Ascending(at) && n < |groups|
    requires forall g, h :: 0 <= g < h < |groups| ==> groups[g][0] < groups[h][0]
    requires RebuiltUpTo(r, at, groups, n, merged, keyGroups)
    ensures RebuiltUpTo(r, at, groups, n + 1, merged + [Combined(r.findings, at, groups[n])],
                        if at[groups[n][0]] < r.keyCount then keyGroups + 1 else keyGroups)
  {
    assert n > 0 ==> at[groups[n - 1][0]] < at[groups[n][0]];
  }

  /** One finding a class, in class order; the first `keyGroups` are key findings. */
  method Rebuild(r: Report, at: seq<nat>, groups: seq<seq<nat>>) returns (merged: seq<Finding>, keyGroups: nat)
    requires IsReport(r) && PointsAt(r.findings, at, groups) && Ascending(at)
    requires forall g :: 0 <= g < |groups| ==> Ascending(groups[g])
    requires forall g, h :: 0 <= g < h < |groups| ==> groups[g][0] < groups[h][0]
    ensures IsMerged(r.findings, at, groups, merged) && keyGroups <= |merged|
    ensures KeepsFirstText(r.findings, at, groups, merged)
    ensures HoldsMembers(r.findings, at, groups, merged)
    ensures forall g :: 0 <= g < |groups| ==> (at[groups[g][0]] < r.keyCount <==> g < keyGroups)
  {
    merged, keyGroups := [], 0;
    for g := 0 to |groups|
      invariant RebuiltUpTo(r, at, groups, g, merged, keyGroups)
    {
      var first := Primary(r, at, groups[g]);
      RebuildOne(r, at, groups, g, merged, keyGroups);
      merged := merged + [r.findings[at[first]].(ids := Deduplicated(MemberIds(r.findings, at, groups[g])))];
      if at[first] < r.keyCount {
        keyGroups := keyGroups + 1;
      }
    }
    MergedAreMembers(r.findings, at, groups, merged);
    MergedKeepsFirstText(r.findings, at, groups, merged);
  }

  /** The report with one finding a class, when some class has several. */
  method Reassemble(stats: Statistics, r: Report, at: seq<nat>, groups: seq<seq<nat>>) returns (out: Report)
    requires WellFormed(stats) && IsReport(r) && CitesKnown(stats, r.findings) && Exclusive(r.findings)
    requires at == QuantifiedAt(r.findings, |r.findings|)
    requires IsClasses(ItemFamilies(stats, r.findings, at), groups) && !Singletons(groups)
    ensures Merges(stats, r, out) && !FamiliesWhole(stats, r.findings) && MergeKeeps(stats, r, out)
  {
    var merged, keyGroups := Rebuild(r, at, groups);
    var keyLoose, loose := Unquantified(r.findings[..r.keyCount]), Unquantified(r.findings[r.keyCount..]);
    out := Report(merged[..keyGroups] + keyLoose + merged[keyGroups..] + loose, keyGroups + |keyLoose|);
    RebuiltMerges(stats, r, at, groups, merged, keyGroups, out);
    RebuiltKeeps(stats, r, at, groups, merged, keyGroups, out);
  }

  /** Collapses findings that share a family, directly or through others. */
  method MergeFamilies(stats: Statistics, r: Report) returns (out: Report)
    requires WellFormed(stats) && IsReport(r) && CitesKnown(stats, r.findings) && Exclusive(r.findings)
    ensures IsReport(out) && Accounted(stats, out.findings)
    ensures forall p :: Cited(out.findings, p) <==> Cited(r.findings, p)
    ensures FamiliesWhole(stats, r.findings) ==> out == r
    ensures Together(r.findings, out.findings)
    ensures forall f :: f in out.findings && !f.Quantified() ==> f in r.findings
    ensures KeepsText(r, out)
    ensures Merges(stats, r, out)
  {
    var at := QuantifiedAt(r.findings, |r.findings|);
    var keys := ItemFamilies(stats, r.findings, at);
    var groups := Classes(keys);
    if forall g :: 0 <= g < |groups| ==> |groups[g]| == 1 {
      SingletonsStay(stats, r, at, groups);
      StayTogether(r.findings, r.findings);
      SameKeepsText(r);
      return r;
    }
    out := Reassemble(stats, r, at, groups);
  }
}
