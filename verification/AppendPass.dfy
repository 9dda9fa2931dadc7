/** The last passes: every manifest pattern that no finding cites joins the finding
    of its family, or a new one; and the report gets a key finding. */
module AppendPass {
  import opened Results
  import opened Findings
  import opened AttachPass

  /** The uncited members of a family, in manifest order. */
  function OmittedOf(stats: Statistics, used: set<string>, family: string, order: seq<string>): (r: seq<string>)
    ensures forall p :: p in r <==>
              p in order && p != OTHER && p in stats.patterns && stats.patterns[p].family == family && p !in used
    ensures NoDuplicates(order) ==> NoDuplicates(r)
  {
    if order == [] then [] else
      var n := |order| - 1;
      assert order == order[..n] + [order[n]];
      var front := OmittedOf(stats, used, family, order[..n]);
      var p := order[n];
      if p != OTHER && p in stats.patterns && stats.patterns[p].family == family && p !in used then front + [p]
      else front
  }

  /** The omitted members come in manifest order. */
  lemma {:induction false} OmittedInManifestOrder(stats: Statistics, used: set<string>, family: string,
      order: seq<string>, j: nat, k: nat) returns (a: nat, b: nat)
    requires j < k < |OmittedOf(stats, used, family, order)|
    ensures a < b < |order|
    ensures OmittedOf(stats, used, family, order)[j] == order[a] && OmittedOf(stats, used, family, order)[k] == order[b]
  {
    var n := |order| - 1;
    var front := OmittedOf(stats, used, family, order[..n]);
    if k < |front| {
      a, b := OmittedInManifestOrder(stats, used, family, order[..n], j, k);
    } else {
      assert front[j] in front;
      a :| 0 <= a < n && order[..n][a] == front[j];
      b := n;
    }
  }

  /** The families with an uncited member, as first met in the manifest. */
  function OmittedFamilies(stats: Statistics, used: set<string>, order: seq<string>): (r: seq<string>)
    ensures NoDuplicates(r)
    ensures forall p :: p in order && p != OTHER && p in stats.patterns && p !in used ==> stats.patterns[p].family in r
    ensures forall family :: family in r ==> OmittedOf(stats, used, family, order) != []
  {
    if order == [] then [] else
      var n := |order| - 1;
      assert order == order[..n] + [order[n]];
      var front := OmittedFamilies(stats, used, order[..n]);
      var p := order[n];
      if p == OTHER || p !in stats.patterns || p in used || stats.patterns[p].family in front then front else
        front + [stats.patterns[p].family]
  }

  /** The finding added for a family that none tells of. */
  function Unlabeled(stats: Statistics, family: string, ids: seq<string>): Finding {
    Measured(stats, Finding("unlabeled-" + family, ids, None, None, []))
  }

  ghost predicate IsUnlabeled(stats: Statistics, used: set<string>, f: Finding) {
    exists family :: f == Unlabeled(stats, family, OmittedOf(stats, used, family, stats.order))
  }

  ghost predicate TellsOf(stats: Statistics, f: Finding, family: string) {
    exists p :: p in f.ids && p != OTHER && p in stats.patterns && stats.patterns[p].family == family
  }

  /** Every new id is of the family of an old one. */
  ghost predicate GainsOwn(stats: Statistics, before: Finding, after: Finding) {
    forall p :: p in after.ids && p !in before.ids ==> exists q :: q in before.ids && Related(stats, p, q)
  }

  /** The finding that tells of the family, if there is one. */
  method FindTeller(stats: Statistics, fs: seq<Finding>, family: string) returns (at: int)
    requires FamiliesWhole(stats, fs)
    ensures -1 <= at < |fs| && (at >= 0 ==> fs[at].Quantified() && TellsOf(stats, fs[at], family))
    ensures forall i, p ::
              CitedBy(fs, i, p) && p != OTHER && p in stats.patterns && stats.patterns[p].family == family ==> i == at
  {
    for i := 0 to |fs|
      invariant forall j, p :: j < i && CitedBy(fs, j, p) && p != OTHER && p in stats.patterns ==>
                  stats.patterns[p].family != family
    {
      if fs[i].Quantified() &&
         exists p :: p in fs[i].ids && p != OTHER && p in stats.patterns && stats.patterns[p].family == family {
        ghost var p :| p in fs[i].ids && p != OTHER && p in stats.patterns && stats.patterns[p].family == family;
        assert CitedBy(fs, i, p);
        assert forall j, q ::
                 CitedBy(fs, j, q) && q != OTHER && q in stats.patterns && stats.patterns[q].family == family ==>
            Related(stats, p, q);
        return i;
      }
    }
    return -1;
  }

  /** After the families before `n` have their omitted patterns back. */
  ghost predicate AppendedUpTo(stats: Statistics, fs: seq<Finding>, used: set<string>, families: seq<string>, n: nat,
      cur: seq<Finding>) {
    && n <= |families| && Accounted(stats, cur) && AllMeasured(stats, cur)
    && GrewFrom(stats, fs, used, cur) && CitedSoFar(stats, used, families, n, cur)
  }

  /** The findings there were have grown; the others hold an omitted family each. */
  ghost predicate GrewFrom(stats: Statistics, fs: seq<Finding>, used: set<string>, cur: seq<Finding>) {
    && |fs| <= |cur| && (forall i :: 0 <= i < |fs| ==> Grown(fs[i], cur[i]) && GainsOwn(stats, fs[i], cur[i]))
    && (forall i :: |fs| <= i < |cur| ==> IsUnlabeled(stats, used, cur[i]) && cur[i].Quantified())
  }

  lemma {:induction false} GrowsAt(stats: Statistics, fs: seq<Finding>, used: set<string>, cur: seq<Finding>,
      at: nat, f: Finding)
    requires GrewFrom(stats, fs, used, cur) && at < |fs| && Grown(fs[at], f) && GainsOwn(stats, fs[at], f)
    ensures GrewFrom(stats, fs, used, cur[at := f])
  {
  }

  lemma {:induction false} GrowsBy(stats: Statistics, fs: seq<Finding>, used: set<string>, cur: seq<Finding>,
      f: Finding)
    requires GrewFrom(stats, fs, used, cur) && IsUnlabeled(stats, used, f) && f.Quantified()
    ensures GrewFrom(stats, fs, used, cur + [f])
  {
  }

  /** What was used before, and all members of the families before `n`. */
  ghost predicate CitedSoFar(stats: Statistics, used: set<string>, families: seq<string>, n: nat, cur: seq<Finding>)
    requires n <= |families|
  {
    forall p :: Cited(cur, p) <==>
             p in used || (p in stats.patterns && p != OTHER && stats.patterns[p].family in families[..n])
  }

  /** The same finding, perhaps with more ids and a new count. */
  ghost predicate Grown(before: Finding, after: Finding) {
    && after == before.(ids := after.ids, count := after.count, percentage := after.percentage)
    && before.ids <= after.ids && (forall p :: p in before.ids ==> p in after.ids)
    && (before.Quantified() <==> after.Quantified())
    && (!before.Quantified() ==> after == before)
  }

  lemma {:induction false} OmittedCanBeTaken(stats: Statistics, fs: seq<Finding>, used: set<string>,
      families: seq<string>, n: nat, cur: seq<Finding>, at: int)
    requires WellFormed(stats) && NoDuplicates(families) && n < |families|
    requires forall p :: p in used <==> Cited(fs, p)
    requires AppendedUpTo(stats, fs, used, families, n, cur)
    requires forall i, p ::
               CitedBy(fs, i, p) && p != OTHER && p in stats.patterns && stats.patterns[p].family == families[n] ==>
                 i == at
    requires OmittedOf(stats, used, families[n], stats.order) != []
    ensures forall j, q ::
              CitedBy(cur, j, q) && q != OTHER && q in stats.patterns && stats.patterns[q].family == families[n] ==>
                j == at
    ensures 0 <= at < |fs| ==> CanTake(stats, cur, at, families[n], OmittedOf(stats, used, families[n], stats.order))
    ensures forall p :: p in OmittedOf(stats, used, families[n], stats.order) ==> !Cited(cur, p)
  {
    var family := families[n];
    assert family !in families[..n];
    forall j, q | CitedBy(cur, j, q) && q != OTHER && q in stats.patterns && stats.patterns[q].family == family
      ensures j == at
    {
      assert Cited(cur, q);
      var i :| CitedBy(fs, i, q);
      assert CitedBy(cur, i, q);
    }
  }

  lemma {:induction false} CitedAfterTaking(stats: Statistics, used: set<string>, families: seq<string>, n: nat,
      before: seq<Finding>, after: seq<Finding>, at: nat)
    requires WellFormed(stats) && n < |families|
    requires CitedSoFar(stats, used, families, n, before)
    requires forall j, p :: CitedBy(after, j, p) <==>
               CitedBy(before, j, p) || (j == at && p in OmittedOf(stats, used, families[n], stats.order))
    ensures CitedSoFar(stats, used, families, n + 1, after)
  {
    var ids := OmittedOf(stats, used, families[n], stats.order);
    assert families[..n + 1] == families[..n] + [families[n]];
    forall p
      ensures Cited(after, p) <==> Cited(before, p) || p in ids
    {
      if j :| CitedBy(before, j, p) {
        assert CitedBy(after, j, p);
      }
      if p in ids {
        assert CitedBy(after, at, p);
      }
      if j :| CitedBy(after, j, p) && p !in ids {
        assert CitedBy(before, j, p);
      }
    }
  }

  /** One family gets its omitted patterns back, in finding `at` of `cur`. */
  lemma {:induction false} GiveBack(stats: Statistics, used: set<string>, families: seq<string>, n: nat,
      cur: seq<Finding>, at: nat, f: Finding)
    requires WellFormed(stats) && n < |families| && Accounted(stats, cur)
    requires CitedSoFar(stats, used, families, n, cur)
    requires CanTake(stats, cur, at, families[n], OmittedOf(stats, used, families[n], stats.order))
    requires f.ids ==
             if cur[at].Quantified() then Deduplicated(cur[at].ids + OmittedOf(stats, used, families[n], stats.order))
                      else OmittedOf(stats, used, families[n], stats.order)
    ensures Accounted(stats, cur[at := f]) && CitedSoFar(stats, used, families, n + 1, cur[at := f]) && f.Quantified()
  {
    var ids := OmittedOf(stats, used, families[n], stats.order);
    TakeKeepsAccount(stats, cur, at, families[n], ids, f);
    CitedAfterTaking(stats, used, families, n, cur, cur[at := f], at);
    assert ids[0] in ids;
    assert CitedBy(cur[at := f], at, ids[0]);
  }

  /** A finding with more ids has grown. */
  lemma {:induction false} MoreIsGrown(stats: Statistics, old': Finding, before: Finding, after: Finding)
    requires Grown(old', before) && before.Quantified() && after.Quantified()
    requires after == Measured(stats, before.(ids := after.ids)) && before.ids <= after.ids
    ensures Grown(old', after)
  {
  }

  lemma {:induction false} MoreOfFamily(stats: Statistics, old': Finding, before: Finding, after: Finding,
      family: string)
    requires GainsOwn(stats, old', before) && TellsOf(stats, old', family)
    requires forall p :: p in after.ids && p !in before.ids ==>
               p in stats.patterns && p != OTHER && stats.patterns[p].family == family
    ensures GainsOwn(stats, old', after)
  {
    var q :| q in old'.ids && q != OTHER && q in stats.patterns && stats.patterns[q].family == family;
    forall p | p in after.ids && p !in old'.ids
      ensures exists q :: q in old'.ids && Related(stats, p, q)
    {
      if p !in before.ids {
        assert Related(stats, p, q);
      }
    }
  }

  /** The family's own finding takes the omitted patterns. */
  lemma {:induction false} GiveToTeller(stats: Statistics, fs: seq<Finding>, used: set<string>, families: seq<string>,
      n: nat, cur: seq<Finding>, at: nat, f: Finding)
    requires WellFormed(stats) && NoDuplicates(families) && n < |families| && at < |fs| && fs[at].Quantified()
    requires TellsOf(stats, fs[at], families[n])
    requires forall p :: p in used <==> Cited(fs, p)
    requires AppendedUpTo(stats, fs, used, families, n, cur)
    requires forall i, p ::
               CitedBy(fs, i, p) && p != OTHER && p in stats.patterns && stats.patterns[p].family == families[n] ==>
                 i == at
    requires OmittedOf(stats, used, families[n], stats.order) != []
    requires f == Measured(stats, cur[at].(
               ids := Deduplicated(cur[at].ids + OmittedOf(stats, used, families[n], stats.order))))
    ensures AppendedUpTo(stats, fs, used, families, n + 1, cur[at := f])
  {
    OmittedCanBeTaken(stats, fs, used, families, n, cur, at);
    assert Grown(fs[at], cur[at]);
    GiveBack(stats, used, families, n, cur, at, f);
    DeduplicatedBegins(cur[at].ids, OmittedOf(stats, used, families[n], stats.order));
    MoreIsGrown(stats, fs[at], cur[at], f);
    MoreOfFamily(stats, fs[at], cur[at], f, families[n]);
    GrowsAt(stats, fs, used, cur, at, f);
    StaysMeasured(stats, cur, at, f);
  }

  lemma {:induction false} StaysMeasured(stats: Statistics, cur: seq<Finding>, at: nat, f: Finding)
    requires AllMeasured(stats, cur) && at < |cur| && f == Measured(stats, f)
    ensures AllMeasured(stats, cur[at := f])
  {
  }

  /** A new finding takes the omitted patterns of a family that none tells of. */
  lemma {:induction false} GiveToNew(stats: Statistics, fs: seq<Finding>, used: set<string>, families: seq<string>,
      n: nat, cur: seq<Finding>, f: Finding)
    requires WellFormed(stats) && NoDuplicates(families) && n < |families|
    requires forall p :: p in used <==> Cited(fs, p)
    requires AppendedUpTo(stats, fs, used, families, n, cur)
    requires forall i, p :: CitedBy(fs, i, p) && p != OTHER && p in stats.patterns ==>
               stats.patterns[p].family != families[n]
    requires OmittedOf(stats, used, families[n], stats.order) != []
    requires f == Unlabeled(stats, families[n], OmittedOf(stats, used, families[n], stats.order))
    ensures AppendedUpTo(stats, fs, used, families, n + 1, cur + [f])
  {
    var blank := f.(ids := [UNQUANTIFIED]);
    OmittedCanBeTaken(stats, fs, used, families, n, cur, -1);
    RoomForNew(stats, used, families, n, cur, blank);
    GiveBack(stats, used, families, n, cur + [blank], |cur|, f);
    assert (cur + [blank])[|cur| := f] == cur + [f];
    assert IsUnlabeled(stats, used, f);
    GrowsBy(stats, fs, used, cur, f);
  }

  /** A blank finding can take a family that none tells of. */
  lemma {:induction false} RoomForNew(stats: Statistics, used: set<string>, families: seq<string>, n: nat,
      cur: seq<Finding>, blank: Finding)
    requires WellFormed(stats) && n < |families| && Accounted(stats, cur) && CitedSoFar(stats, used, families, n, cur)
    requires blank.ids == [UNQUANTIFIED] && OmittedOf(stats, used, families[n], stats.order) != []
    requires forall p :: p in OmittedOf(stats, used, families[n], stats.order) ==> !Cited(cur, p)
    requires forall j, q :: CitedBy(cur, j, q) && q != OTHER && q in stats.patterns ==>
               stats.patterns[q].family != families[n]
    ensures Accounted(stats, cur + [blank]) && CitedSoFar(stats, used, families, n, cur + [blank])
    ensures CanTake(stats, cur + [blank], |cur|, families[n], OmittedOf(stats, used, families[n], stats.order))
  {
    AppendCites(cur, blank);
    assert forall i, p :: CitedBy(cur + [blank], i, p) <==> CitedBy(cur, i, p);
  }

  /** Every pattern a report cites. */
  function UsedBy(fs: seq<Finding>): (used: set<string>)
    ensures forall p :: p in used <==> Cited(fs, p)
  {
    var used := set i, p | 0 <= i < |fs| && fs[i].Quantified() && p in fs[i].ids :: p;
    assert forall i, p :: CitedBy(fs, i, p) ==> p in used;
    assert forall i, p :: 0 <= i < |fs| && fs[i].Quantified() && p in fs[i].ids ==> CitedBy(fs, i, p);
    used
  }

  /** What the appending pass does to each finding there was. */
  ghost predicate Appended(stats: Statistics, before: Report, after: Report) {
    && IsReport(before) && after.keyCount == before.keyCount && |before.findings| <= |after.findings|
    && (forall i :: 0 <= i < |before.findings| ==>
          && Grown(before.findings[i], after.findings[i])
          && GainsOwn(stats, before.findings[i], after.findings[i]))
    && (forall i :: |before.findings| <= i < |after.findings| ==>
          IsUnlabeled(stats, UsedBy(before.findings), after.findings[i]) && after.findings[i].Quantified())
  }

  lemma {:induction false} AppendedAll(stats: Statistics, r: Report, used: set<string>, families: seq<string>,
      out: Report)
    requires WellFormed(stats) && IsReport(r) && used == UsedBy(r.findings) && out.keyCount == r.keyCount
    requires families == OmittedFamilies(stats, used, stats.order)
    requires AppendedUpTo(stats, r.findings, used, families, |families|, out.findings)
    ensures Reconciled(stats, out) && Appended(stats, r, out)
    ensures Cited(out.findings, OTHER) <==> Cited(r.findings, OTHER)
  {
    assert families[..|families|] == families;
  }

  lemma {:induction false} SomethingOmitted(stats: Statistics, fs: seq<Finding>, used: set<string>)
    requires used == UsedBy(fs) && OmittedFamilies(stats, used, stats.order) != []
    ensures !Complete(stats, fs)
  {
    var ids := OmittedOf(stats, used, OmittedFamilies(stats, used, stats.order)[0], stats.order);
    assert ids[0] in ids;
  }

  /** Restores every omitted pattern, family by family. */
  method AppendOmitted(stats: Statistics, r: Report) returns (out: Report)
    requires WellFormed(stats) && IsReport(r) && Accounted(stats, r.findings) && AllMeasured(stats, r.findings)
    ensures Reconciled(stats, out)
    ensures Complete(stats, r.findings) ==> out == r
    ensures Appended(stats, r, out)
    ensures Cited(out.findings, OTHER) <==> Cited(r.findings, OTHER)
  {
    var used := UsedBy(r.findings);
    var families := OmittedFamilies(stats, used, stats.order);
    var cur := r.findings;
    for n := 0 to |families|
      invariant AppendedUpTo(stats, r.findings, used, families, n, cur)
      invariant n == 0 ==> cur == r.findings
    {
      var ids := OmittedOf(stats, used, families[n], stats.order);
      var at := FindTeller(stats, r.findings, families[n]);
      if at >= 0 {
        var f := Measured(stats, cur[at].(ids := Deduplicated(cur[at].ids + ids)));
        GiveToTeller(stats, r.findings, used, families, n, cur, at, f);
        cur := cur[at := f];
      } else {
        var f := Unlabeled(stats, families[n], ids);
        GiveToNew(stats, r.findings, used, families, n, cur, f);
        cur := cur + [f];
      }
    }
    out := Report(cur, r.keyCount);
    AppendedAll(stats, r, used, families, out);
    if families != [] {
      SomethingOmitted(stats, r.findings, used);
    }
  }
}
