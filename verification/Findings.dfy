/** Findings that cite deterministic log patterns, and what it means for them to
    account for a pattern manifest. */
module Findings {
  import opened Results

  /** The marker an unquantified finding cites instead of patterns. */
  const UNQUANTIFIED := "unquantified"

  /** The manifest bucket for patterns below the manifest's size limit. */
  const OTHER := "other"

  datatype Pattern = Pattern(family: string, count: nat)

  /** `pattern_manifest` as a dictionary in manifest order. */
  datatype Statistics = Statistics(order: seq<string>, patterns: map<string, Pattern>, totalEntries: nat)

  ghost predicate WellFormed(stats: Statistics) {
    && (forall p :: p in stats.order <==> p in stats.patterns)
    && NoDuplicates(stats.order)
    && UNQUANTIFIED !in stats.patterns
  }

  /** `details` are the compacted narrative texts; `percentage` is in hundredths. */
  datatype Finding = Finding(
    name: string, ids: seq<string>, count: Option<nat>, percentage: Option<nat>, details: seq<string>)
  {
    predicate Quantified() {
      ids != [UNQUANTIFIED]
    }
  }

  /** The key findings come first, then the secondary ones: the order every pass walks. */
  datatype Report = Report(findings: seq<Finding>, keyCount: nat)

  predicate IsReport(r: Report) {
    r.keyCount <= |r.findings|
  }

  ghost predicate NoDuplicates(s: seq<string>) {
    forall a, b :: 0 <= a < b < |s| ==> s[a] != s[b]
  }

  /** `list(dict.fromkeys(s))`: first occurrences, in order. */
  function Deduplicated(s: seq<string>): (r: seq<string>)
    ensures NoDuplicates(r)
    ensures forall x :: x in r <==> x in s
    ensures NoDuplicates(s) ==> r == s
  {
    if s == [] then [] else
      var n := |s| - 1;
      var front := Deduplicated(s[..n]);
      assert s == s[..n] + [s[n]];
      if s[n] in s[..n] then front else front + [s[n]]
  }

  /** What has no duplicates stays in front. */
  lemma {:induction false} DeduplicatedBegins(a: seq<string>, b: seq<string>)
    requires NoDuplicates(a)
    ensures a <= Deduplicated(a + b)
  {
    if b == [] {
      assert a + b == a;
    } else {
      var n := |b| - 1;
      assert (a + b)[..|a + b| - 1] == a + b[..n];
      DeduplicatedBegins(a, b[..n]);
    }
  }

  /** `100 * count / total` in hundredths, ties to even, as `round(_, 2)` does. */
  function Percentage(count: nat, total: nat): (hundredths: nat) {
    if total == 0 then 0 else RoundedQuotient(10000 * count, total)
  }

  function RoundedQuotient(n: nat, d: nat): nat
    requires d > 0
  {
    var floor, rest := n / d, n % d;
    if 2 * rest < d || (2 * rest == d && floor % 2 == 0) then floor else floor + 1
  }

  lemma {:induction false} RoundedQuotientIsNearest(n: nat, d: nat)
    requires d > 0
    ensures -(d as int) <= 2 * (RoundedQuotient(n, d) * d - n) <= d
  {
    var floor, rest := n / d, n % d;
    assert n == floor * d + rest;
    assert (floor + 1) * d == floor * d + d;
  }

  lemma {:induction false} RoundedQuotientAtMost(n: nat, d: nat, k: nat)
    requires d > 0 && n <= k * d
    ensures RoundedQuotient(n, d) <= k
  {
    var floor, rest := n / d, n % d;
    assert floor * d + rest == n;
    if floor > k {
      ScaleUp(d, k, floor);
    }
  }

  lemma {:induction false} ScaleUp(d: nat, k: nat, m: nat)
    requires k < m
    ensures m * d >= k * d + d
  {
    assert m * d == (m - 1) * d + d;
    if k < m - 1 {
      ScaleUp(d, k, m - 1);
    }
  }

  /** The percentage is a nearest hundredth. */
  lemma {:induction false} PercentageIsNearest(count: nat, total: nat)
    requires total > 0
    ensures -(total as int) <= 2 * (Percentage(count, total) * total - 10000 * count) <= total
  {
    RoundedQuotientIsNearest(10000 * count, total);
  }

  /** A tie goes to the even hundredth. */
  lemma {:induction false} TieIsEven(count: nat, total: nat)
    requires total > 0
    requires var error := 2 * (Percentage(count, total) * total - 10000 * count);
             error == total || error == -(total as int)
    ensures Percentage(count, total) % 2 == 0
  {
    var n := 10000 * count;
    var floor, rest := n / total, n % total;
    assert n == floor * total + rest;
    assert (floor + 1) * total == floor * total + total;
  }

  lemma {:induction false} PercentageInRange(count: nat, total: nat)
    requires count <= total
    ensures Percentage(count, total) <= 10000
  {
    if total > 0 {
      RoundedQuotientAtMost(10000 * count, total, 10000);
    }
  }

  function SumCounts(stats: Statistics, ids: seq<string>): nat {
    if ids == [] then 0 else
      SumCounts(stats, ids[..|ids| - 1]) +
      var last := ids[|ids| - 1]; if last in stats.patterns then stats.patterns[last].count else 0
  }

  /** `f` with the count and percentage its ids imply. */
  function Measured(stats: Statistics, f: Finding): Finding {
    if !f.Quantified() then f.(count := None, percentage := None) else
      var count := SumCounts(stats, f.ids);
      f.(count := Some(count), percentage := Some(Percentage(count, stats.totalEntries)))
  }

  ghost predicate AllMeasured(stats: Statistics, fs: seq<Finding>) {
    forall i :: 0 <= i < |fs| ==> fs[i] == Measured(stats, fs[i])
  }

  ghost predicate CitedBy(fs: seq<Finding>, i: int, p: string) {
    0 <= i < |fs| && fs[i].Quantified() && p in fs[i].ids
  }

  ghost predicate Cited(fs: seq<Finding>, p: string) {
    exists i :: CitedBy(fs, i, p)
  }

  /** One pattern, or two named ones of one cause family. */
  ghost predicate Related(stats: Statistics, p: string, q: string) {
    || p == q
    || (&& p != OTHER && q != OTHER && p in stats.patterns && q in stats.patterns
        && stats.patterns[p].family == stats.patterns[q].family)
  }

  /** Quantified findings cite manifest patterns only, and none twice. */
  ghost predicate CitesKnown(stats: Statistics, fs: seq<Finding>) {
    && (forall i, p :: CitedBy(fs, i, p) ==> p in stats.patterns)
    && (forall i :: 0 <= i < |fs| && fs[i].Quantified() ==> NoDuplicates(fs[i].ids))
  }

  /** No pattern belongs to two findings. */
  ghost predicate Exclusive(fs: seq<Finding>) {
    forall i, j, p :: CitedBy(fs, i, p) && CitedBy(fs, j, p) ==> i == j
  }

  /** What is cited of one family is cited by one finding. */
  ghost predicate FamiliesWhole(stats: Statistics, fs: seq<Finding>) {
    forall i, j, p, q :: CitedBy(fs, i, p) && CitedBy(fs, j, q) && Related(stats, p, q) ==> i == j
  }

  /** Every pattern except the overflow bucket is cited. */
  ghost predicate Complete(stats: Statistics, fs: seq<Finding>) {
    forall p :: p in stats.patterns && p != OTHER ==> Cited(fs, p)
  }

  ghost predicate Accounted(stats: Statistics, fs: seq<Finding>) {
    CitesKnown(stats, fs) && FamiliesWhole(stats, fs)
  }

  /** What one finding cites before, one finding cites after. */
  ghost predicate Together(before: seq<Finding>, after: seq<Finding>) {
    forall i, p, q :: CitedBy(before, i, p) && CitedBy(before, i, q) ==> InOneFinding(after, p, q)
  }

  ghost predicate InOneFinding(fs: seq<Finding>, p: string, q: string) {
    exists j :: CitedBy(fs, j, p) && CitedBy(fs, j, q)
  }

  lemma {:induction false} TogetherIsTransitive(a: seq<Finding>, b: seq<Finding>, c: seq<Finding>)
    requires Together(a, b) && Together(b, c)
    ensures Together(a, c)
  {
    forall i, p, q | CitedBy(a, i, p) && CitedBy(a, i, q)
      ensures InOneFinding(c, p, q)
    {
      assert InOneFinding(b, p, q);
      var j :| CitedBy(b, j, p) && CitedBy(b, j, q);
    }
  }

  lemma {:induction false} StayTogether(before: seq<Finding>, after: seq<Finding>)
    requires forall i, p :: CitedBy(before, i, p) ==> CitedBy(after, i, p)
    ensures Together(before, after)
  {
    forall i, p, q | CitedBy(before, i, p) && CitedBy(before, i, q)
      ensures InOneFinding(after, p, q)
    {
      assert CitedBy(after, i, p) && CitedBy(after, i, q);
    }
  }

  // ---- Which text a finding carries ----

  ghost predicate SharesPattern(f: Finding, g: Finding) {
    exists p :: p in f.ids && p in g.ids
  }

  /** Finding `i` is the first quantified one with a pattern of `f`. */
  ghost predicate FirstTeller(fs: seq<Finding>, i: int, f: Finding) {
    && 0 <= i < |fs| && fs[i].Quantified() && SharesPattern(fs[i], f)
    && forall j :: 0 <= j < i && fs[j].Quantified() ==> !SharesPattern(fs[j], f)
  }

  /** `f` has the name and the narratives of `g`. */
  predicate SameText(f: Finding, g: Finding) {
    f.name == g.name && f.details == g.details
  }

  /** Each finding of `out` has the text of the first finding of `r` with one of its
      patterns, and is a key finding exactly if that one is. */
  ghost predicate KeepsText(r: Report, out: Report) {
    forall h, i ::
      0 <= h < |out.findings| && out.findings[h].Quantified() && FirstTeller(r.findings, i, out.findings[h]) ==>
      SameText(out.findings[h], r.findings[i]) && (h < out.keyCount <==> i < r.keyCount)
  }

  /** A pattern that `r` omits joins the finding of its family; where none tells of the
      family, it is in a secondary finding of that family alone. */
  ghost predicate OmittedFiled(stats: Statistics, r: Report, out: Report) {
    forall h, p :: CitedBy(out.findings, h, p) && !Cited(r.findings, p) ==> FiledUnder(stats, r, out, h, p)
  }

  ghost predicate FiledUnder(stats: Statistics, r: Report, out: Report, h: int, p: string) {
    if exists q :: Cited(r.findings, q) && Related(stats, p, q) then
      exists q :: CitedBy(out.findings, h, q) && Cited(r.findings, q) && Related(stats, p, q)
    else
      h >= out.keyCount && forall q :: CitedBy(out.findings, h, q) ==> Related(stats, p, q) && !Cited(r.findings, q)
  }

  /** The guarantee of a finished reconciliation. */
  ghost predicate Reconciled(stats: Statistics, r: Report) {
    IsReport(r) && Accounted(stats, r.findings) && Complete(stats, r.findings) && AllMeasured(stats, r.findings)
  }

  /** In a reconciled report each pattern, and its whole family, is in exactly one finding. */
  lemma {:induction false} ExactlyOneOwner(stats: Statistics, r: Report, p: string)
    requires WellFormed(stats) && Reconciled(stats, r) && p in stats.patterns && p != OTHER
    ensures exists i ::
              && CitedBy(r.findings, i, p)
              && (forall j :: CitedBy(r.findings, j, p) ==> j == i)
              && (forall q ::
                    q in stats.patterns && q != OTHER && stats.patterns[q].family == stats.patterns[p].family ==>
                    CitedBy(r.findings, i, q))
  {
    assert Cited(r.findings, p);
    var i :| CitedBy(r.findings, i, p);
    forall q | q in stats.patterns && q != OTHER && stats.patterns[q].family == stats.patterns[p].family
      ensures CitedBy(r.findings, i, q)
    {
      assert Cited(r.findings, q);
      var j :| CitedBy(r.findings, j, q);
      assert Related(stats, p, q);
    }
  }

  /** The numbers of a reconciled finding: the sum of its patterns' counts and the nearest
      hundredth of a percent, or none at all. */
  lemma {:induction false} NumbersOf(stats: Statistics, r: Report, i: nat)
    requires Reconciled(stats, r) && i < |r.findings|
    ensures var f := r.findings[i];
            if !f.Quantified() then f.count == None && f.percentage == None else
              && f.count == Some(SumCounts(stats, f.ids)) && f.percentage.Some?
              && var error := 2 * (f.percentage.value * stats.totalEntries - 10000 * f.count.value);
                 if stats.totalEntries == 0 then f.percentage == Some(0)
                 else -(stats.totalEntries as int) <= error <= stats.totalEntries
  {
    assert r.findings[i] == Measured(stats, r.findings[i]);
    if stats.totalEntries > 0 {
      PercentageIsNearest(SumCounts(stats, r.findings[i].ids), stats.totalEntries);
    }
  }

  // ---- Rewriting a list of findings ----

  /** The positions below `n` outside `drop`, in order. */
  function Remaining(drop: set<nat>, n: nat): (at: seq<nat>)
    ensures forall a, b :: 0 <= a < b < |at| ==> at[a] < at[b]
    ensures forall k :: 0 <= k < |at| ==> at[k] < n && at[k] !in drop
    ensures forall i: nat :: i < n && i !in drop ==> i in at
  {
    if n == 0 then [] else Remaining(drop, n - 1) + if n - 1 in drop then [] else [n - 1]
  }

  ghost function RemainingCount(drop: set<nat>, n: nat): nat {
    if n == 0 then 0 else RemainingCount(drop, n - 1) + if n - 1 in drop then 0 else 1
  }

  lemma {:induction false} RemainingHasCount(drop: set<nat>, n: nat)
    ensures |Remaining(drop, n)| == RemainingCount(drop, n)
  {
    if n > 0 {
      RemainingHasCount(drop, n - 1);
    }
  }

  lemma {:induction false} CountGrows(drop: set<nat>, m: nat, n: nat)
    requires m <= n
    ensures RemainingCount(drop, m) <= RemainingCount(drop, n)
  {
    if m < n {
      CountGrows(drop, m, n - 1);
    }
  }

  lemma {:induction false} RemainingPrefix(drop: set<nat>, m: nat, n: nat)
    requires m <= n
    ensures |Remaining(drop, m)| <= |Remaining(drop, n)|
  {
    RemainingHasCount(drop, m);
    RemainingHasCount(drop, n);
    CountGrows(drop, m, n);
  }

  /** One more finding adds its own citations. */
  lemma {:induction false} AppendCites(fs: seq<Finding>, f: Finding)
    ensures forall i, p :: CitedBy(fs + [f], i, p) <==>
              CitedBy(fs, i, p) || (i == |fs| && f.Quantified() && p in f.ids)
    ensures forall p :: Cited(fs + [f], p) <==> Cited(fs, p) || (f.Quantified() && p in f.ids)
  {
    var grown := fs + [f];
    forall p
      ensures Cited(grown, p) <==> Cited(fs, p) || (f.Quantified() && p in f.ids)
    {
      if i :| CitedBy(fs, i, p) {
        assert CitedBy(grown, i, p);
      }
      if f.Quantified() && p in f.ids {
        assert CitedBy(grown, |fs|, p);
      }
      if i :| CitedBy(grown, i, p) && i < |fs| {
        assert CitedBy(fs, i, p);
      }
    }
  }

  /** Finding `i` can take `ids`: uncited patterns of a family that no other finding cites. */
  ghost predicate CanTake(stats: Statistics, fs: seq<Finding>, i: nat, family: string, ids: seq<string>) {
    && i < |fs| && ids != [] && NoDuplicates(ids)
    && (forall p :: p in ids ==>
          p in stats.patterns && p != OTHER && stats.patterns[p].family == family && !Cited(fs, p))
    && (forall j, q :: CitedBy(fs, j, q) && q != OTHER && q in stats.patterns && stats.patterns[q].family == family ==>
          j == i)
  }

  /** Taking patterns of its family keeps a finding's report accounted. */
  lemma {:induction false} TakeKeepsAccount(stats: Statistics, fs: seq<Finding>, i: nat, family: string,
      ids: seq<string>, f: Finding)
    requires WellFormed(stats) && Accounted(stats, fs) && CanTake(stats, fs, i, family, ids)
    requires f.ids == if fs[i].Quantified() then Deduplicated(fs[i].ids + ids) else ids
    ensures forall j, p :: CitedBy(fs[i := f], j, p) <==> CitedBy(fs, j, p) || (j == i && p in ids)
    ensures Accounted(stats, fs[i := f])
  {
    var next := fs[i := f];
    assert f.Quantified() by {
      assert ids[0] in f.ids && UNQUANTIFIED != ids[0];
    }
    forall j, p
      ensures CitedBy(next, j, p) <==> CitedBy(fs, j, p) || (j == i && p in ids)
    {
    }
    forall j, k, p, q | CitedBy(next, j, p) && CitedBy(next, k, q) && Related(stats, p, q)
      ensures j == k
    {
      assert p in ids ==> q in ids || CitedBy(fs, k, q);
      assert q in ids ==> p in ids || CitedBy(fs, j, p);
    }
  }

  // ---- Counts ----

  /** The ids of all quantified findings, in order. */
  ghost function AllIds(fs: seq<Finding>): seq<string> {
    if fs == [] then [] else
      var last := fs[|fs| - 1];
      AllIds(fs[..|fs| - 1]) + if last.Quantified() then last.ids else []
  }

  /** The sum of the counts that the findings claim. */
  function ClaimedTotal(fs: seq<Finding>): nat {
    if fs == [] then 0 else
      ClaimedTotal(fs[..|fs| - 1]) +
      match fs[|fs| - 1].count case Some(n) => n case None => 0
  }

  lemma {:induction false} SumConcat(stats: Statistics, a: seq<string>, b: seq<string>)
    ensures SumCounts(stats, a + b) == SumCounts(stats, a) + SumCounts(stats, b)
  {
    if b == [] {
      assert a + b == a;
    } else {
      var n := |b| - 1;
      SumConcat(stats, a, b[..n]);
      assert (a + b)[..|a + b| - 1] == a + b[..n];
    }
  }

  lemma {:induction false} RemoveOne(s: seq<string>, k: nat)
    requires NoDuplicates(s) && k < |s|
    ensures NoDuplicates(s[..k] + s[k + 1..])
    ensures forall p :: p in s[..k] + s[k + 1..] <==> p in s && p != s[k]
  {
    var rest := s[..k] + s[k + 1..];
    forall p | p in s && p != s[k]
      ensures p in rest
    {
      var at :| 0 <= at < |s| && s[at] == p;
      assert p == if at < k then rest[at] else rest[at - 1];
    }
  }

  lemma {:induction false} SumWithoutOne(stats: Statistics, s: seq<string>, k: nat)
    requires k < |s|
    ensures SumCounts(stats, s) == SumCounts(stats, s[..k] + s[k + 1..]) + SumCounts(stats, [s[k]])
  {
    SumConcat(stats, s[..k], s[k + 1..]);
    SumConcat(stats, s[..k], [s[k]]);
    SumConcat(stats, s[..k] + [s[k]], s[k + 1..]);
    assert s == s[..k] + [s[k]] + s[k + 1..];
  }

  lemma {:induction false} HasFirst(s: seq<string>)
    requires s != []
    ensures exists p :: p in s
  {
    assert s[0] in s;
  }

  /** Two duplicate-free lists of the same patterns have the same total. */
  lemma {:induction false} SumIgnoresOrder(stats: Statistics, a: seq<string>, b: seq<string>)
    requires NoDuplicates(a) && NoDuplicates(b)
    requires forall p :: p in a <==> p in b
    ensures SumCounts(stats, a) == SumCounts(stats, b)
  {
    if a == [] {
      if b != [] {
        HasFirst(b);
      }
    } else {
      assert a[0] in a;
      var k :| 0 <= k < |b| && b[k] == a[0];
      RemoveOne(a, 0);
      RemoveOne(b, k);
      var a', b' := a[..0] + a[1..], b[..k] + b[k + 1..];
      forall p
        ensures p in a' <==> p in b'
      {
        assert p in a <==> p in b;
      }
      SumIgnoresOrder(stats, a', b');
      SumWithoutOne(stats, a, 0);
      SumWithoutOne(stats, b, k);
    }
  }

  lemma {:induction false} ConcatNoDuplicates(a: seq<string>, b: seq<string>)
    requires NoDuplicates(a) && NoDuplicates(b) && forall p :: p in b ==> p !in a
    ensures NoDuplicates(a + b)
  {
    forall x, y | 0 <= x < |a| && 0 <= y < |b|
      ensures a[x] != b[y]
    {
      assert b[y] in b && a[x] in a;
    }
  }

  lemma {:induction false} AllIdsAreCited(fs: seq<Finding>)
    requires Exclusive(fs)
    requires forall i :: 0 <= i < |fs| && fs[i].Quantified() ==> NoDuplicates(fs[i].ids)
    ensures NoDuplicates(AllIds(fs))
    ensures forall p :: p in AllIds(fs) <==> Cited(fs, p)
  {
    if fs != [] {
      var n := |fs| - 1;
      var front := fs[..n];
      assert forall i, p :: CitedBy(front, i, p) <==> i < n && CitedBy(fs, i, p);
      AllIdsAreCited(front);
      forall p
        ensures Cited(fs, p) <==> Cited(front, p) || CitedBy(fs, n, p)
      {
        if i :| CitedBy(front, i, p) {
          assert CitedBy(fs, i, p);
        }
        if i :| CitedBy(fs, i, p) && i != n {
          assert CitedBy(front, i, p);
        }
      }
      var tail := if fs[n].Quantified() then fs[n].ids else [];
      assert forall p :: p in tail <==> CitedBy(fs, n, p);
      ConcatNoDuplicates(AllIds(front), tail);
    }
  }

  lemma {:induction false} ClaimedTotalIsSum(stats: Statistics, fs: seq<Finding>)
    requires AllMeasured(stats, fs)
    ensures ClaimedTotal(fs) == SumCounts(stats, AllIds(fs))
  {
    if fs != [] {
      var n := |fs| - 1;
      ClaimedTotalIsSum(stats, fs[..n]);
      SumConcat(stats, AllIds(fs[..n]), if fs[n].Quantified() then fs[n].ids else []);
    }
  }

  /** The counts of a reconciled report add up to the whole manifest, less the
      overflow bucket when no finding cites it. */
  lemma {:induction false} CountsAreConserved(stats: Statistics, r: Report)
    requires WellFormed(stats) && Reconciled(stats, r)
    ensures ClaimedTotal(r.findings) +
            (if OTHER in stats.patterns && !Cited(r.findings, OTHER) then stats.patterns[OTHER].count else 0) ==
            SumCounts(stats, stats.order)
  {
    var ids := AllIds(r.findings);
    assert Exclusive(r.findings) by {
      assert forall p :: Related(stats, p, p);
    }
    AllIdsAreCited(r.findings);
    ClaimedTotalIsSum(stats, r.findings);
    var missing := if OTHER in stats.patterns && !Cited(r.findings, OTHER) then [OTHER] else [];
    SumConcat(stats, ids, missing);
    assert SumCounts(stats, missing) == if missing == [] then 0 else stats.patterns[OTHER].count by {
      assert missing != [] ==> missing[..0] == [];
    }
    SumIgnoresOrder(stats, ids + missing, stats.order);
  }
}
