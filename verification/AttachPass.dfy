/** The fourth pass, in fallback mode only: an unquantified finding that hints at
    one family takes that family, or goes when the family is already told. */
module AttachPass {
  import opened Results
  import opened Findings

  /** All manifest patterns of a family except the overflow bucket, in manifest order. */
  function FamilyMembers(stats: Statistics, family: string, order: seq<string>): (r: seq<string>)
    ensures forall p :: p in r <==>
              p in order && p != OTHER && p in stats.patterns && stats.patterns[p].family == family
    ensures NoDuplicates(order) ==> NoDuplicates(r)
  {
    if order == [] then [] else
      var n := |order| - 1;
      assert order == order[..n] + [order[n]];
      var front := FamilyMembers(stats, family, order[..n]);
      var p := order[n];
      if p != OTHER && p in stats.patterns && stats.patterns[p].family == family then front + [p] else front
  }

  /** The members come in manifest order. */
  lemma {:induction false} MembersInManifestOrder(stats: Statistics, family: string, order: seq<string>, j: nat, k: nat)
    returns (a: nat, b: nat)
    requires j < k < |FamilyMembers(stats, family, order)|
    ensures a < b < |order|
    ensures FamilyMembers(stats, family, order)[j] == order[a] && FamilyMembers(stats, family, order)[k] == order[b]
  {
    var n := |order| - 1;
    var front := FamilyMembers(stats, family, order[..n]);
    if k < |front| {
      a, b := MembersInManifestOrder(stats, family, order[..n], j, k);
    } else {
      assert front[j] in front;
      a :| 0 <= a < n && order[..n][a] == front[j];
      b := n;
    }
  }

  /** Some cited pattern is of the family. */
  ghost predicate FamilyTold(stats: Statistics, fs: seq<Finding>, family: string) {
    exists i, p :: CitedBy(fs, i, p) && p != OTHER && p in stats.patterns && stats.patterns[p].family == family
  }

  /** The family an unquantified finding hints at, when the manifest has it. */
  function Hinted(stats: Statistics, hint: Finding -> Option<string>, f: Finding): Option<string> {
    match hint(f)
    case Some(family) => if FamilyMembers(stats, family, stats.order) == [] then None else Some(family)
    case None => None
  }

  /** A hint counts when it names a family of the manifest. */
  lemma {:induction false} HintedIs(stats: Statistics, hint: Finding -> Option<string>, f: Finding, family: string)
    requires WellFormed(stats)
    ensures Hinted(stats, hint, f) == Some(family) <==>
              hint(f) == Some(family) &&
              exists p :: p in stats.patterns && p != OTHER && stats.patterns[p].family == family
  {
    var members := FamilyMembers(stats, family, stats.order);
    if members != [] {
      assert members[0] in members;
    }
    if p :| p in stats.patterns && p != OTHER && stats.patterns[p].family == family {
      assert p in members;
    }
  }

  /** `after` is `before` with some unquantified findings quantified. */
  ghost predicate Attached(stats: Statistics, hint: Finding -> Option<string>, before: seq<Finding>,
      after: seq<Finding>) {
    && |after| == |before|
    && forall i :: 0 <= i < |before| && after[i] != before[i] ==>
         && !before[i].Quantified() && Hinted(stats, hint, before[i]).Some?
         && after[i] == Measured(stats, before[i].(
              ids := FamilyMembers(stats, Hinted(stats, hint, before[i]).value, stats.order)))
  }

  /** After the first `n` findings. */
  ghost predicate AttachedUpTo(
    stats: Statistics, hint: Finding -> Option<string>, before: seq<Finding>, n: nat,
    after: seq<Finding>, told: set<string>, drop: set<nat>)
  {
    && n <= |before| && Attached(stats, hint, before, after)
    && Accounted(stats, after) && AllMeasured(stats, after)
    && (forall i :: n <= i < |before| ==> after[i] == before[i])
    && ToldUpTo(stats, hint, before, n, after, told)
    && (forall i, p :: CitedBy(before, i, p) ==> CitedBy(after, i, p))
    && DroppedUpTo(stats, hint, after, n, drop)
  }

  /** Of the first `n` findings, exactly those go that still have only a hint. */
  ghost predicate DroppedUpTo(stats: Statistics, hint: Finding -> Option<string>, after: seq<Finding>, n: nat,
      drop: set<nat>)
    requires n <= |after|
  {
    && (forall i :: i in drop ==> i < n)
    && (forall i: nat :: i < n ==>
          (i in drop <==> !after[i].Quantified() && Hinted(stats, hint, after[i]).Some?))
  }

  lemma {:induction false} DropOne(stats: Statistics, hint: Finding -> Option<string>, before: seq<Finding>,
      after: seq<Finding>, n: nat, drop: set<nat>)
    requires n < |before| == |after| && DroppedUpTo(stats, hint, before, n, drop)
    requires forall i :: 0 <= i < n ==> after[i] == before[i]
    ensures var goes := !after[n].Quantified() && Hinted(stats, hint, after[n]).Some?;
            DroppedUpTo(stats, hint, after, n + 1, if goes then drop + {n} else drop)
  {
  }

  /** `told` is what `after` tells of, with every family hinted at so far among it. */
  ghost predicate ToldUpTo(stats: Statistics, hint: Finding -> Option<string>, before: seq<Finding>, n: nat,
      after: seq<Finding>, told: set<string>)
    requires n <= |before|
  {
    && (forall family :: family in told <==> FamilyTold(stats, after, family))
    && (forall i: nat :: i < n && !before[i].Quantified() && Hinted(stats, hint, before[i]).Some? ==>
          Hinted(stats, hint, before[i]).value in told)
  }

  lemma {:induction false} AttachOne(stats: Statistics, fs: seq<Finding>, i: nat, family: string, f: Finding)
    requires WellFormed(stats) && Accounted(stats, fs) && i < |fs| && !fs[i].Quantified()
    requires !FamilyTold(stats, fs, family) && FamilyMembers(stats, family, stats.order) != []
    requires f.ids == FamilyMembers(stats, family, stats.order)
    ensures Accounted(stats, fs[i := f]) && f.Quantified()
    ensures forall j, p :: CitedBy(fs, j, p) ==> CitedBy(fs[i := f], j, p)
    ensures forall g :: FamilyTold(stats, fs[i := f], g) <==> FamilyTold(stats, fs, g) || g == family
  {
    var ids := FamilyMembers(stats, family, stats.order);
    assert CanTake(stats, fs, i, family, ids);
    TakeKeepsAccount(stats, fs, i, family, ids, f);
    assert ids[0] in ids;
    assert CitedBy(fs[i := f], i, ids[0]);
    forall g {
      ToldGrows(stats, fs, fs[i := f], i, ids, family, g);
    }
  }

  lemma {:induction false} ToldGrows(stats: Statistics, fs: seq<Finding>, next: seq<Finding>, i: nat,
      ids: seq<string>, family: string, g: string)
    requires forall j, p :: CitedBy(next, j, p) <==> CitedBy(fs, j, p) || (j == i && p in ids)
    requires forall p :: p in ids ==> p in stats.patterns && p != OTHER && stats.patterns[p].family == family
    requires FamilyTold(stats, next, family)
    ensures FamilyTold(stats, next, g) <==> FamilyTold(stats, fs, g) || g == family
  {
    if j, p :| CitedBy(fs, j, p) && p != OTHER && p in stats.patterns && stats.patterns[p].family == g {
      assert CitedBy(next, j, p);
    }
    if j, p :| g != family && CitedBy(next, j, p) && p != OTHER && p in stats.patterns &&
               stats.patterns[p].family == g {
      assert CitedBy(fs, j, p);
    }
  }

  /** Dropping unquantified findings changes no citation. */
  lemma {:induction false} DropKeepsAccount(stats: Statistics, fs: seq<Finding>, drop: set<nat>, out: seq<Finding>)
    requires Accounted(stats, fs)
    requires forall i :: i in drop ==> i < |fs| && !fs[i].Quantified()
    requires |out| == |Remaining(drop, |fs|)|
    requires forall a :: 0 <= a < |out| ==> out[a] == fs[Remaining(drop, |fs|)[a]]
    ensures Accounted(stats, out)
    ensures forall p :: Cited(out, p) <==> Cited(fs, p)
  {
    var at := Remaining(drop, |fs|);
    assert forall a, p :: CitedBy(out, a, p) ==> CitedBy(fs, at[a], p);
    forall p | Cited(fs, p)
      ensures Cited(out, p)
    {
      var i: nat :| CitedBy(fs, i, p);
      assert i in at;
      var a :| 0 <= a < |at| && at[a] == i;
      assert CitedBy(out, a, p);
    }
  }

  /** The families the quantified findings tell of. */
  function ToldBy(stats: Statistics, fs: seq<Finding>): (told: set<string>)
    ensures forall family :: family in told <==> FamilyTold(stats, fs, family)
  {
    var told := set i, p | 0 <= i < |fs| && fs[i].Quantified() && p in fs[i].ids && p in stats.patterns && p != OTHER ::
      stats.patterns[p].family;
    assert forall family :: family in told ==> FamilyTold(stats, fs, family) by {
      forall i, p | 0 <= i < |fs| && fs[i].Quantified() && p in fs[i].ids && p in stats.patterns && p != OTHER
        ensures FamilyTold(stats, fs, stats.patterns[p].family)
      {
        assert CitedBy(fs, i, p);
      }
    }
    told
  }

  /** The result is the attached findings but the dropped ones, which are exactly those
      whose family another finding already told of. */
  ghost predicate Attaches(stats: Statistics, hint: Finding -> Option<string>, r: Report, out: Report) {
    exists attached: seq<Finding>, drop: set<nat> :: AttachesBy(stats, hint, r, out, attached, drop)
  }

  ghost predicate AttachesBy(
    stats: Statistics, hint: Finding -> Option<string>, r: Report, out: Report, attached: seq<Finding>, drop: set<nat>)
  {
    && Attached(stats, hint, r.findings, attached)
    && (forall i: nat :: i < |attached| ==>
          (i in drop <==> !attached[i].Quantified() && Hinted(stats, hint, attached[i]).Some?))
    && Drops(attached, drop, out.findings) && out.keyCount == |Remaining(drop, r.keyCount)|
  }

  lemma {:induction false} AttachedCites(stats: Statistics, hint: Finding -> Option<string>, before: seq<Finding>,
      after: seq<Finding>, told: set<string>, drop: set<nat>)
    requires AttachedUpTo(stats, hint, before, |before|, after, told, drop)
    ensures forall p :: Cited(before, p) ==> Cited(after, p)
  {
    forall p | Cited(before, p)
      ensures Cited(after, p)
    {
      var i :| CitedBy(before, i, p);
      assert CitedBy(after, i, p);
    }
  }

  lemma {:induction false} ToldSurvives(stats: Statistics, before: seq<Finding>, after: seq<Finding>, family: string)
    requires forall p :: Cited(before, p) ==> Cited(after, p)
    requires FamilyTold(stats, before, family)
    ensures FamilyTold(stats, after, family)
  {
    var i, p :| CitedBy(before, i, p) && p != OTHER && p in stats.patterns && stats.patterns[p].family == family;
    assert Cited(before, p);
    var j :| CitedBy(after, j, p);
  }

  lemma {:induction false} StepSkip(stats: Statistics, hint: Finding -> Option<string>, before: seq<Finding>, n: nat,
      after: seq<Finding>, told: set<string>, drop: set<nat>)
    requires n < |before| && AttachedUpTo(stats, hint, before, n, after, told, drop)
    requires before[n].Quantified() || Hinted(stats, hint, before[n]).None?
    ensures AttachedUpTo(stats, hint, before, n + 1, after, told, drop)
  {
    DropOne(stats, hint, after, after, n, drop);
  }

  lemma {:induction false} StepDrop(stats: Statistics, hint: Finding -> Option<string>, before: seq<Finding>, n: nat,
      after: seq<Finding>, told: set<string>, drop: set<nat>)
    requires n < |before| && AttachedUpTo(stats, hint, before, n, after, told, drop)
    requires !before[n].Quantified() && Hinted(stats, hint, before[n]).Some?
    requires Hinted(stats, hint, before[n]).value in told
    ensures AttachedUpTo(stats, hint, before, n + 1, after, told, drop + {n})
  {
    DropOne(stats, hint, after, after, n, drop);
  }

  lemma {:induction false} StepTold(stats: Statistics, hint: Finding -> Option<string>, before: seq<Finding>, n: nat,
      after: seq<Finding>, told: set<string>, next: seq<Finding>, family: string)
    requires n < |before| && ToldUpTo(stats, hint, before, n, after, told)
    requires Hinted(stats, hint, before[n]) == Some(family)
    requires forall g :: FamilyTold(stats, next, g) <==> FamilyTold(stats, after, g) || g == family
    ensures ToldUpTo(stats, hint, before, n + 1, next, told + {family})
  {
  }

  lemma {:induction false} StepAttach(stats: Statistics, hint: Finding -> Option<string>, before: seq<Finding>,
      n: nat, after: seq<Finding>, told: set<string>, drop: set<nat>, f: Finding)
    requires WellFormed(stats) && n < |before| && AttachedUpTo(stats, hint, before, n, after, told, drop)
    requires !before[n].Quantified() && Hinted(stats, hint, before[n]).Some?
    requires Hinted(stats, hint, before[n]).value !in told
    requires f == Measured(stats, before[n].(
               ids := FamilyMembers(stats, Hinted(stats, hint, before[n]).value, stats.order)))
    ensures AttachedUpTo(stats, hint, before, n + 1, after[n := f], told + {Hinted(stats, hint, before[n]).value}, drop)
  {
    var family := Hinted(stats, hint, before[n]).value;
    AttachOne(stats, after, n, family, f);
    StepTold(stats, hint, before, n, after, told, after[n := f], family);
    DropOne(stats, hint, after, after[n := f], n, drop);
  }

  /** Walks the findings, attaching each hinted family once. */
  method AttachAll(stats: Statistics, fs: seq<Finding>, hint: Finding -> Option<string>)
    returns (cur: seq<Finding>, told: set<string>, drop: set<nat>)
    requires WellFormed(stats) && Accounted(stats, fs) && AllMeasured(stats, fs)
    ensures AttachedUpTo(stats, hint, fs, |fs|, cur, told, drop)
  {
    told := ToldBy(stats, fs);
    cur := fs;
    drop := {};
    for i := 0 to |fs|
      invariant AttachedUpTo(stats, hint, fs, i, cur, told, drop)
    {
      var hinted := Hinted(stats, hint, cur[i]);
      if cur[i].Quantified() || hinted.None? {
        StepSkip(stats, hint, fs, i, cur, told, drop);
      } else if hinted.value in told {
        StepDrop(stats, hint, fs, i, cur, told, drop);
        drop := drop + {i};
      } else {
        var f := Measured(stats, cur[i].(ids := FamilyMembers(stats, hinted.value, stats.order)));
        StepAttach(stats, hint, fs, i, cur, told, drop, f);
        cur := cur[i := f];
        told := told + {hinted.value};
      }
    }
  }

  /** `out` is `cur` without `drop`. */
  ghost predicate Drops(cur: seq<Finding>, drop: set<nat>, out: seq<Finding>) {
    && |out| == |Remaining(drop, |cur|)|
    && forall a :: 0 <= a < |out| ==> out[a] == cur[Remaining(drop, |cur|)[a]]
  }

  lemma {:induction false} DroppedIsAttached(
    stats: Statistics, hint: Finding -> Option<string>, fs: seq<Finding>,
    cur: seq<Finding>, told: set<string>, drop: set<nat>, out: seq<Finding>)
    requires AttachedUpTo(stats, hint, fs, |fs|, cur, told, drop) && Drops(cur, drop, out)
    ensures Accounted(stats, out) && AllMeasured(stats, out)
    ensures forall p :: Cited(fs, p) ==> Cited(out, p)
    ensures forall i :: 0 <= i < |out| && !out[i].Quantified() ==> Hinted(stats, hint, out[i]).None?
  {
    DropKeepsAccount(stats, cur, drop, out);
    AttachedCites(stats, hint, fs, cur, told, drop);
  }

  lemma {:induction false} HintedIsTold(
    stats: Statistics, hint: Finding -> Option<string>, fs: seq<Finding>,
    cur: seq<Finding>, told: set<string>, drop: set<nat>, out: seq<Finding>, i: nat)
    requires AttachedUpTo(stats, hint, fs, |fs|, cur, told, drop) && Drops(cur, drop, out)
    requires i < |fs| && !fs[i].Quantified() && Hinted(stats, hint, fs[i]).Some?
    ensures FamilyTold(stats, out, Hinted(stats, hint, fs[i]).value)
  {
    DropKeepsAccount(stats, cur, drop, out);
    ToldSurvives(stats, cur, out, Hinted(stats, hint, fs[i]).value);
  }

  /** Attaches or drops the unquantified findings whose hint names one family. */
  method AttachUnquantified(stats: Statistics, r: Report, hint: Finding -> Option<string>) returns (out: Report)
    requires WellFormed(stats) && IsReport(r) && Accounted(stats, r.findings) && AllMeasured(stats, r.findings)
    ensures IsReport(out) && Accounted(stats, out.findings) && AllMeasured(stats, out.findings)
    ensures forall p :: Cited(r.findings, p) ==> Cited(out.findings, p)
    ensures forall i :: 0 <= i < |out.findings| && !out.findings[i].Quantified() ==>
              Hinted(stats, hint, out.findings[i]).None?
    ensures forall i ::
              0 <= i < |r.findings| && !r.findings[i].Quantified() && Hinted(stats, hint, r.findings[i]).Some? ==>
              FamilyTold(stats, out.findings, Hinted(stats, hint, r.findings[i]).value)
    ensures Attaches(stats, hint, r, out)
  {
    var cur, told, drop := AttachAll(stats, r.findings, hint);
    var at := Remaining(drop, |cur|);
    var findings := seq(|at|, a requires 0 <= a < |at| => cur[at[a]]);
    RemainingPrefix(drop, r.keyCount, |cur|);
    out := Report(findings, |Remaining(drop, r.keyCount)|);
    DroppedIsAttached(stats, hint, r.findings, cur, told, drop, findings);
    forall i: nat | i < |r.findings| && !r.findings[i].Quantified() && Hinted(stats, hint, r.findings[i]).Some? {
      HintedIsTold(stats, hint, r.findings, cur, told, drop, findings, i);
    }
    WitnessAttached(stats, hint, r, cur, told, drop, out);
  }

  lemma {:induction false} WitnessAttached(
    stats: Statistics, hint: Finding -> Option<string>, r: Report,
    cur: seq<Finding>, told: set<string>, drop: set<nat>, out: Report)
    requires AttachedUpTo(stats, hint, r.findings, |r.findings|, cur, told, drop) && Drops(cur, drop, out.findings)
    requires out.keyCount == |Remaining(drop, r.keyCount)|
    ensures Attaches(stats, hint, r, out)
  {
    assert AttachesBy(stats, hint, r, out, cur, drop);
  }
}
