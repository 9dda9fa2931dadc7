/** The counting half of `preprocess_log`: from classified log lines to the pattern
    manifest and the cause families. */
module LogCounts {
  import opened CodePointOrder
  import opened Findings
  import opened Tallies

  /** A log line: the digest of its template, and the cause family of its text. */
  datatype Line = Line(digest: string, family: string)

  function PatternId(line: Line): string {
    "p-" + line.digest
  }

  function PatternsOf(lines: seq<Line>): (r: seq<string>)
    ensures |r| == |lines| && forall i :: 0 <= i < |lines| ==> r[i] == PatternId(lines[i])
  {
    seq(|lines|, i requires 0 <= i < |lines| => PatternId(lines[i]))
  }

  /** The family a pattern ends up with: that of its last line. */
  ghost function FinalFamily(lines: seq<Line>, p: string): string {
    if lines == [] then "" else
      var n := |lines| - 1;
      if PatternId(lines[n]) == p then lines[n].family else FinalFamily(lines[..n], p)
  }

  /** The counters after the lines: patterns in order of first appearance. */
  datatype Tally = Tally(seen: seq<string>, counts: map<string, nat>, families: map<string, string>)

  ghost predicate IsTally(lines: seq<Line>, t: Tally) {
    SeenFits(PatternsOf(lines), t) && CountsFit(PatternsOf(lines), t) && FamiliesFit(lines, t)
  }

  ghost predicate SeenFits(labels: seq<string>, t: Tally) {
    NoDuplicates(t.seen) && forall p :: p in t.seen <==> p in labels
  }

  ghost predicate CountsFit(labels: seq<string>, t: Tally) {
    (forall p :: p in t.counts <==> p in labels) && (forall p :: p in t.counts ==> t.counts[p] == Count(labels, p))
  }

  ghost predicate FamiliesFit(lines: seq<Line>, t: Tally) {
    && (forall p :: p in t.families <==> p in PatternsOf(lines))
    && (forall p :: p in t.families ==> t.families[p] == FinalFamily(lines, p))
  }

  function Counted(t: Tally, line: Line): Tally {
    var p := PatternId(line);
    Tally(if p in t.counts then t.seen else t.seen + [p],
          t.counts[p := (if p in t.counts then t.counts[p] else 0) + 1],
          t.families[p := line.family])
  }

  lemma {:induction false} SeenGrows(labels: seq<string>, t: Tally, line: Line)
    requires SeenFits(labels, t) && forall p :: p in t.counts <==> p in labels
    ensures SeenFits(labels + [PatternId(line)], Counted(t, line))
  {
  }

  lemma {:induction false} CountsGrow(labels: seq<string>, t: Tally, line: Line)
    requires CountsFit(labels, t)
    ensures CountsFit(labels + [PatternId(line)], Counted(t, line))
  {
    var p := PatternId(line);
    var longer := labels + [p];
    CountPositive(labels, p);
    forall q
      ensures Count(longer, q) == Count(labels, q) + if q == p then 1 else 0
    {
      assert longer[..|labels|] == labels;
    }
  }

  lemma {:induction false} FamiliesGrow(lines: seq<Line>, t: Tally, line: Line)
    requires FamiliesFit(lines, t)
    ensures FamiliesFit(lines + [line], Counted(t, line))
  {
    assert (lines + [line])[..|lines|] == lines;
    assert PatternsOf(lines + [line]) == PatternsOf(lines) + [PatternId(line)];
  }

  lemma {:induction false} CountedIsTally(lines: seq<Line>, t: Tally, line: Line)
    requires IsTally(lines, t)
    ensures IsTally(lines + [line], Counted(t, line))
  {
    SeenGrows(PatternsOf(lines), t, line);
    CountsGrow(PatternsOf(lines), t, line);
    FamiliesGrow(lines, t, line);
    assert PatternsOf(lines + [line]) == PatternsOf(lines) + [PatternId(line)];
  }

  method CountLines(lines: seq<Line>) returns (t: Tally)
    ensures IsTally(lines, t)
  {
    t := Tally([], map[], map[]);
    ghost var done: seq<Line> := [];
    var i := 0;
    while i < |lines|
      invariant i <= |lines| && done == lines[..i]
      invariant IsTally(done, t)
    {
      CountedIsTally(done, t, lines[i]);
      done := done + [lines[i]];
      t := Counted(t, lines[i]);
      i := i + 1;
    }
    assert done == lines;
  }

  // ---- The pattern manifest ----

  ghost function Ranking(lines: seq<Line>, seen: seq<string>): seq<string> {
    Ranked(PatternsOf(lines), seen)
  }

  function Kept(ranked: seq<string>, maxPatterns: nat): seq<string> {
    ranked[..if maxPatterns < |ranked| then maxPatterns else |ranked|]
  }

  function Cut(ranked: seq<string>, maxPatterns: nat): seq<string> {
    ranked[if maxPatterns < |ranked| then maxPatterns else |ranked|..]
  }

  /** The patterns `kept`, with their counts and final families. */
  ghost predicate Lists(lines: seq<Line>, kept: seq<string>, patterns: map<string, Pattern>) {
    && (forall p :: p in patterns <==> p in kept)
    && (forall p :: p in patterns ==> patterns[p] == Pattern(FinalFamily(lines, p), Count(PatternsOf(lines), p)))
  }

  /** The `maxPatterns` highest-ranked patterns, and one bucket for what is left. */
  ghost predicate IsManifest(lines: seq<Line>, ranked: seq<string>, maxPatterns: nat, stats: Statistics) {
    var kept, cut := Kept(ranked, maxPatterns), Cut(ranked, maxPatterns);
    && stats.totalEntries == |lines|
    && if cut == [] then stats.order == kept && Lists(lines, kept, stats.patterns) else
         && stats.order == kept + [OTHER] && OTHER !in kept && OTHER in stats.patterns
         && Lists(lines, kept, stats.patterns - {OTHER})
         && stats.patterns[OTHER] == Pattern(OTHER, SumOf(PatternsOf(lines), cut))
  }

  /** Every pattern has its digest prefix: none is a reserved name. */
  lemma {:induction false} PatternsAreNotReserved(lines: seq<Line>, p: string)
    requires p in PatternsOf(lines)
    ensures p != OTHER && p != UNQUANTIFIED
  {
    var i :| 0 <= i < |lines| && PatternsOf(lines)[i] == p;
    assert p[1] == '-' && OTHER[1] == 't' && UNQUANTIFIED[1] == 'n';
  }

  method SumCounters(ids: seq<string>, counts: map<string, nat>, ghost labels: seq<string>) returns (sum: nat)
    requires forall p :: p in ids ==> p in counts && counts[p] == Count(labels, p)
    ensures sum == SumOf(labels, ids)
  {
    sum := 0;
    for i := 0 to |ids|
      invariant sum == SumOf(labels, ids[..i])
    {
      assert ids[..i + 1][..i] == ids[..i] && ids[i] in ids;
      sum := sum + counts[ids[i]];
    }
    assert ids[..|ids|] == ids;
  }

  method ListPatterns(lines: seq<Line>, t: Tally, kept: seq<string>) returns (patterns: map<string, Pattern>)
    requires IsTally(lines, t) && forall p :: p in kept ==> p in t.seen
    ensures Lists(lines, kept, patterns)
  {
    patterns := map[];
    for i := 0 to |kept|
      invariant Lists(lines, kept[..i], patterns)
    {
      var p := kept[i];
      assert p in kept && p in t.seen && p in PatternsOf(lines);
      assert kept[..i + 1] == kept[..i] + [p];
      patterns := patterns[p := Pattern(t.families[p], t.counts[p])];
    }
    assert kept[..|kept|] == kept;
  }

  lemma {:induction false} NoneIsReserved(lines: seq<Line>, ids: seq<string>)
    requires forall p :: p in ids ==> p in PatternsOf(lines)
    ensures OTHER !in ids && UNQUANTIFIED !in ids
  {
    forall p | p in ids
      ensures p != OTHER && p != UNQUANTIFIED
    {
      PatternsAreNotReserved(lines, p);
    }
  }

  /** `ranked` is `sorted(pattern_counts, ...)`. */
  method BuildManifest(lines: seq<Line>, t: Tally, ranked: seq<string>, maxPatterns: nat) returns (stats: Statistics)
    requires IsTally(lines, t) && ranked == Ranking(lines, t.seen)
    ensures IsManifest(lines, ranked, maxPatterns, stats)
  {
    var kept, cut := Kept(ranked, maxPatterns), Cut(ranked, maxPatterns);
    SlicesAreSeen(lines, t, ranked, maxPatterns);
    var patterns := ListPatterns(lines, t, kept);
    var omitted := SumCounters(cut, t.counts, PatternsOf(lines));
    CutIsPositive(lines, cut);
    NoneIsReserved(lines, kept);
    if omitted > 0 {
      stats := Statistics(kept + [OTHER], patterns[OTHER := Pattern(OTHER, omitted)], |lines|);
      assert stats.patterns - {OTHER} == patterns;
    } else {
      stats := Statistics(kept, patterns, |lines|);
    }
  }

  lemma {:induction false} SlicesAreSeen(lines: seq<Line>, t: Tally, ranked: seq<string>, maxPatterns: nat)
    requires IsTally(lines, t) && ranked == Ranking(lines, t.seen)
    ensures ranked == Kept(ranked, maxPatterns) + Cut(ranked, maxPatterns)
    ensures forall p :: p in Kept(ranked, maxPatterns) ==> p in t.seen && p in PatternsOf(lines)
    ensures forall p :: p in Cut(ranked, maxPatterns) ==>
              p in PatternsOf(lines) && p in t.counts && t.counts[p] == Count(PatternsOf(lines), p)
  {
    assert ranked == Kept(ranked, maxPatterns) + Cut(ranked, maxPatterns);
    forall p | p in Kept(ranked, maxPatterns) || p in Cut(ranked, maxPatterns)
      ensures p in t.seen
    {
      assert p in ranked;
    }
  }

  /** The bucket is there exactly when something was cut. */
  lemma {:induction false} CutIsPositive(lines: seq<Line>, cut: seq<string>)
    requires forall p :: p in cut ==> p in PatternsOf(lines)
    ensures SumOf(PatternsOf(lines), cut) > 0 <==> cut != []
  {
    if cut != [] {
      CountPositive(PatternsOf(lines), cut[|cut| - 1]);
      assert cut[|cut| - 1] in cut;
    }
  }

  // ---- Families ----

  datatype Family = Family(id: string, members: seq<string>, count: nat)

  /** The families of the log's lines, by the family its pattern ends up with. */
  ghost function FamilyLabels(lines: seq<Line>, t: Tally): seq<string>
    requires IsTally(lines, t)
  {
    Relabelled(PatternsOf(lines), t.families)
  }

  /** `members` files the patterns `ids` under their families, listed in `order`. */
  ghost predicate IsGrouping(of: map<string, string>, ids: seq<string>, order: seq<string>,
      members: map<string, seq<string>>) {
    && NoDuplicates(order) && (forall f :: f in order <==> f in members)
    && (forall f :: f in members ==> IsClass(of, ids, members[f], f))
    && (forall p :: p in ids && p in of ==> of[p] in members)
  }

  ghost predicate IsClass(of: map<string, string>, ids: seq<string>, class_: seq<string>, f: string) {
    NoDuplicates(class_) && forall p :: p in class_ <==> p in ids && p in of && of[p] == f
  }

  function Filed(order: seq<string>, members: map<string, seq<string>>, p: string, f: string)
    : (seq<string>, map<string, seq<string>>) {
    if f in members then (order, members[f := members[f] + [p]]) else (order + [f], members[f := [p]])
  }

  lemma {:induction false} ClassGrows(of: map<string, string>, ids: seq<string>, class_: seq<string>, f: string,
      p: string)
    requires IsClass(of, ids, class_, f) && p !in ids && p in of
    ensures IsClass(of, ids + [p], if of[p] == f then class_ + [p] else class_, f)
  {
  }

  lemma {:induction false} FirstOfClass(of: map<string, string>, ids: seq<string>, p: string,
      members: map<string, seq<string>>)
    requires p !in ids && p in of && of[p] !in members && forall q :: q in ids && q in of ==> of[q] in members
    ensures IsClass(of, ids + [p], [p], of[p])
  {
  }

  lemma {:induction false} FilingGroups(of: map<string, string>, ids: seq<string>, order: seq<string>,
      members: map<string, seq<string>>, p: string)
    requires IsGrouping(of, ids, order, members) && p !in ids && p in of
    ensures IsGrouping(of, ids + [p], Filed(order, members, p, of[p]).0, Filed(order, members, p, of[p]).1)
  {
    var (order', members') := Filed(order, members, p, of[p]);
    forall f | f in members'
      ensures IsClass(of, ids + [p], members'[f], f)
    {
      if f in members {
        ClassGrows(of, ids, members[f], f, p);
      } else {
        FirstOfClass(of, ids, p, members);
      }
    }
  }

  method GroupFamilies(t: Tally) returns (order: seq<string>, members: map<string, seq<string>>)
    requires NoDuplicates(t.seen) && forall p :: p in t.seen ==> p in t.families
    ensures IsGrouping(t.families, t.seen, order, members)
  {
    order, members := [], map[];
    for i := 0 to |t.seen|
      invariant IsGrouping(t.families, t.seen[..i], order, members)
    {
      var p := t.seen[i];
      assert t.seen[..i + 1] == t.seen[..i] + [p] && p in t.seen;
      FilingGroups(t.families, t.seen[..i], order, members, p);
      var filed := Filed(order, members, p, t.families[p]);
      order, members := filed.0, filed.1;
    }
    assert t.seen[..|t.seen|] == t.seen;
  }

  /** Every pattern of the family, and the number of its lines. */
  ghost predicate IsFamily(lines: seq<Line>, t: Tally, f: string, family: Family)
    requires IsTally(lines, t)
  {
    && family.id == f && family.count == Count(FamilyLabels(lines, t), f)
    && (forall p :: p in family.members <==> p in t.families && t.families[p] == f)
  }

  ghost predicate IsFamilies(lines: seq<Line>, t: Tally, order: seq<string>, families: seq<Family>)
    requires IsTally(lines, t)
  {
    |families| == |order| && forall i :: 0 <= i < |families| ==> IsFamily(lines, t, order[i], families[i])
  }

  /** The count of a family's members is the number of its lines. */
  lemma {:induction false} MembersCount(lines: seq<Line>, t: Tally, members: seq<string>, f: string)
    requires IsTally(lines, t) && IsClass(t.families, t.seen, members, f)
    ensures SumOf(PatternsOf(lines), members) == Count(FamilyLabels(lines, t), f)
    ensures forall p :: p in members ==> p in t.counts && t.counts[p] == Count(PatternsOf(lines), p)
    ensures forall p :: p in members <==> p in t.families && t.families[p] == f
  {
    ClassCount(PatternsOf(lines), t.families, members, f);
  }

  lemma {:induction false} GroupingCovers(lines: seq<Line>, t: Tally, order: seq<string>,
      members: map<string, seq<string>>)
    requires IsTally(lines, t) && IsGrouping(t.families, t.seen, order, members)
    ensures forall f :: f in FamilyLabels(lines, t) ==> f in order
  {
    var labels := FamilyLabels(lines, t);
    forall f | f in labels
      ensures f in order
    {
      var i :| 0 <= i < |labels| && labels[i] == f;
      assert PatternsOf(lines)[i] in PatternsOf(lines);
    }
  }

  /** `ranked` is the families by count and name. */
  method CountFamilies(lines: seq<Line>, t: Tally, ranked: seq<string>, members: map<string, seq<string>>)
    returns (families: seq<Family>)
    requires IsTally(lines, t) && forall f :: f in ranked ==> f in members && IsClass(t.families, t.seen, members[f], f)
    ensures IsFamilies(lines, t, ranked, families)
  {
    families := [];
    for i := 0 to |ranked|
      invariant |families| == i && forall k :: 0 <= k < i ==> IsFamily(lines, t, ranked[k], families[k])
    {
      var f := ranked[i];
      assert f in ranked;
      MembersCount(lines, t, members[f], f);
      var count := SumCounters(members[f], t.counts, PatternsOf(lines));
      families := families + [Family(f, members[f], count)];
    }
  }

  function FamilyIds(families: seq<Family>): (ids: seq<string>)
    ensures |ids| == |families| && forall i :: 0 <= i < |families| ==> ids[i] == families[i].id
  {
    seq(|families|, i requires 0 <= i < |families| => families[i].id)
  }

  method BuildFamilies(lines: seq<Line>, t: Tally) returns (families: seq<Family>)
    requires IsTally(lines, t)
    ensures IsFamilies(lines, t, FamilyIds(families), families)
    ensures NoDuplicates(FamilyIds(families)) && InRank(FamilyLabels(lines, t), FamilyIds(families))
    ensures forall f :: f in FamilyLabels(lines, t) ==> f in FamilyIds(families)
  {
    var firstSeen, members := GroupFamilies(t);
    var labels := Relabelled(PatternsOf(lines), t.families);
    var ranked := Ranked(labels, firstSeen);
    RankedIsInRank(labels, firstSeen);
    GroupingCovers(lines, t, firstSeen, members);
    families := CountFamilies(lines, t, ranked, members);
    assert FamilyIds(families) == ranked;
  }

  function FamilyTotal(families: seq<Family>): nat {
    if families == [] then 0 else FamilyTotal(families[..|families| - 1]) + families[|families| - 1].count
  }

  // ---- What the numbers add up to ----

  lemma {:induction false} ManifestSum(lines: seq<Line>, stats: Statistics, ids: seq<string>)
    requires forall p :: p in ids ==> p in stats.patterns && stats.patterns[p].count == Count(PatternsOf(lines), p)
    ensures SumCounts(stats, ids) == SumOf(PatternsOf(lines), ids)
  {
    if ids != [] {
      var n := |ids| - 1;
      assert ids == ids[..n] + [ids[n]];
      ManifestSum(lines, stats, ids[..n]);
    }
  }

  lemma {:induction false} KeptIsDistinct(ranked: seq<string>, maxPatterns: nat)
    requires NoDuplicates(ranked)
    ensures NoDuplicates(Kept(ranked, maxPatterns))
    ensures OTHER !in Kept(ranked, maxPatterns) ==> NoDuplicates(Kept(ranked, maxPatterns) + [OTHER])
  {
    var kept := Kept(ranked, maxPatterns);
    assert forall k :: 0 <= k < |kept| ==> kept[k] in kept;
  }

  lemma {:induction false} ListedAreKeys(lines: seq<Line>, ranked: seq<string>, maxPatterns: nat, stats: Statistics,
      p: string)
    requires IsManifest(lines, ranked, maxPatterns, stats)
    ensures p in stats.order <==> p in stats.patterns
  {
    if p != OTHER {
      ListedOrCut(lines, ranked, maxPatterns, stats, p);
    }
  }

  lemma {:induction false} ManifestIsWellFormed(lines: seq<Line>, t: Tally, maxPatterns: nat, stats: Statistics)
    requires IsTally(lines, t) && IsManifest(lines, Ranking(lines, t.seen), maxPatterns, stats)
    ensures WellFormed(stats)
  {
    var ranked := Ranking(lines, t.seen);
    SlicesAreSeen(lines, t, ranked, maxPatterns);
    NoneIsReserved(lines, Kept(ranked, maxPatterns));
    KeptIsDistinct(ranked, maxPatterns);
    forall p
      ensures p in stats.order <==> p in stats.patterns
    {
      ListedAreKeys(lines, ranked, maxPatterns, stats, p);
    }
    assert UNQUANTIFIED[0] != OTHER[0];
  }

  /** Whatever the size limit, the manifest counts every line once. */
  lemma {:induction false} ManifestAddsUp(lines: seq<Line>, t: Tally, maxPatterns: nat, stats: Statistics)
    requires IsTally(lines, t) && IsManifest(lines, Ranking(lines, t.seen), maxPatterns, stats)
    ensures SumCounts(stats, stats.order) == |lines| == stats.totalEntries
  {
    var ranked := Ranking(lines, t.seen);
    var kept, cut := Kept(ranked, maxPatterns), Cut(ranked, maxPatterns);
    SlicesAreSeen(lines, t, ranked, maxPatterns);
    CoverCountsAll(PatternsOf(lines), ranked);
    SumOfConcat(PatternsOf(lines), kept, cut);
    ManifestSum(lines, stats, kept);
    if cut != [] {
      SumConcat(stats, kept, [OTHER]);
      assert SumCounts(stats, [OTHER][..0]) == 0;
    }
  }

  lemma {:induction false} ListedOrCut(lines: seq<Line>, ranked: seq<string>, maxPatterns: nat, stats: Statistics,
      p: string)
    requires IsManifest(lines, ranked, maxPatterns, stats) && p != OTHER
    ensures p in stats.patterns <==> p in Kept(ranked, maxPatterns)
  {
    assert p in stats.patterns <==> p in stats.patterns - {OTHER};
  }

  lemma {:induction false} KeptOutranksCut(labels: seq<string>, ranked: seq<string>, maxPatterns: nat, p: string,
      q: string)
    requires InRank(labels, ranked) && p in Kept(ranked, maxPatterns) && q in Cut(ranked, maxPatterns)
    ensures Outranks(labels, p, q) && |Kept(ranked, maxPatterns)| == maxPatterns
  {
    var kept, cut := Kept(ranked, maxPatterns), Cut(ranked, maxPatterns);
    var i :| 0 <= i < |kept| && kept[i] == p;
    var j :| 0 <= j < |cut| && cut[j] == q;
    assert ranked[i] == p && ranked[|kept| + j] == q;
  }

  /** No pattern left out of the manifest outranks one in it, and none is left out of a
      manifest that is not full. */
  lemma {:induction false} ManifestKeepsTheTop(lines: seq<Line>, t: Tally, maxPatterns: nat, stats: Statistics,
      p: string, q: string)
    requires IsTally(lines, t) && IsManifest(lines, Ranking(lines, t.seen), maxPatterns, stats)
    requires p in stats.patterns && p != OTHER && q in t.seen && q !in stats.patterns
    ensures Outranks(PatternsOf(lines), p, q) && |stats.order| == maxPatterns + 1
    ensures stats.patterns[p].count >= Count(PatternsOf(lines), q)
    ensures stats.patterns[p].count == Count(PatternsOf(lines), q) ==> Precedes(p, q)
  {
    var ranked := Ranking(lines, t.seen);
    RankedIsInRank(PatternsOf(lines), t.seen);
    PatternsAreNotReserved(lines, q);
    ListedOrCut(lines, ranked, maxPatterns, stats, p);
    ListedOrCut(lines, ranked, maxPatterns, stats, q);
    SlicesAreSeen(lines, t, ranked, maxPatterns);
    assert q in ranked;
    KeptOutranksCut(PatternsOf(lines), ranked, maxPatterns, p, q);
  }

  /** The manifest lists as many patterns as there are, or as many as it may and the bucket. */
  lemma {:induction false} ManifestSize(lines: seq<Line>, t: Tally, maxPatterns: nat, stats: Statistics)
    requires IsTally(lines, t) && IsManifest(lines, Ranking(lines, t.seen), maxPatterns, stats)
    ensures if |t.seen| <= maxPatterns then |stats.order| == |t.seen| && OTHER !in stats.order
            else |stats.order| == maxPatterns + 1 && stats.order[maxPatterns] == OTHER
  {
    var ranked := Ranking(lines, t.seen);
    RankedHasSize(PatternsOf(lines), t.seen);
    SlicesAreSeen(lines, t, ranked, maxPatterns);
    NoneIsReserved(lines, Kept(ranked, maxPatterns));
  }

  lemma {:induction false} FamilyTotalIsSum(lines: seq<Line>, t: Tally, order: seq<string>, families: seq<Family>)
    requires IsTally(lines, t) && IsFamilies(lines, t, order, families)
    ensures FamilyTotal(families) == SumOf(FamilyLabels(lines, t), order)
  {
    if families != [] {
      var n := |families| - 1;
      FamilyTotalIsSum(lines, t, order[..n], families[..n]);
    }
  }

  /** The family counts, too, count every line once. */
  lemma {:induction false} FamiliesAddUp(lines: seq<Line>, t: Tally, families: seq<Family>)
    requires IsTally(lines, t) && IsFamilies(lines, t, FamilyIds(families), families)
    requires NoDuplicates(FamilyIds(families))
    requires forall f :: f in FamilyLabels(lines, t) ==> f in FamilyIds(families)
    ensures FamilyTotal(families) == |lines|
  {
    var order := FamilyIds(families);
    FamilyTotalIsSum(lines, t, order, families);
    CoverCountsAll(FamilyLabels(lines, t), order);
  }

  /** A reconciled report over the manifest of a log claims every line of the log, less
      the overflow bucket when no finding cites it. */
  lemma {:induction false} ReportCountsTheLog(lines: seq<Line>, t: Tally, maxPatterns: nat, stats: Statistics,
      r: Report)
    requires IsTally(lines, t) && IsManifest(lines, Ranking(lines, t.seen), maxPatterns, stats)
    requires Reconciled(stats, r)
    ensures ClaimedTotal(r.findings) +
            (if OTHER in stats.patterns && !Cited(r.findings, OTHER) then stats.patterns[OTHER].count else 0) == |lines|
  {
    ManifestIsWellFormed(lines, t, maxPatterns, stats);
    ManifestAddsUp(lines, t, maxPatterns, stats);
    CountsAreConserved(stats, r);
  }
}
