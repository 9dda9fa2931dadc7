/** What the entry pass guarantees: when it succeeds, that it accounts for every
    entry, and that repeating it changes nothing but one order. */
module EntryTheorems {
  import opened Results
  import opened Findings
  import opened Entries

  // ---- When the pass succeeds ----

  /** `preprocess_log` gives every entry a family. */
  ghost predicate FamilyComplete(entries: seq<Entry>) {
    forall e :: e in entries ==> HasFamily(e)
  }

  /** The families of the cited entries. */
  ghost function CitedFamilies(entries: seq<Entry>, f: EntryFinding): set<string> {
    if f.evidence.Listed? then
      set id | id in f.evidence.ids && InLog(entries, id) :: FamilyKey(entries[id])
    else {}
  }

  ghost predicate WellCited(entries: seq<Entry>, f: EntryFinding) {
    !f.evidence.Malformed? && (f.evidence.Listed? ==> forall id :: id in f.evidence.ids ==> InLog(entries, id))
  }

  /** What a list of cited ids expands to: all entries of the family of a cited one; where
      that has no family, or an empty one, those of its pattern. */
  lemma {:induction false} ExpansionIs(entries: seq<Entry>, ids: seq<int>, b: int)
    ensures b in Expansion(entries, ids) <==>
              exists a :: a in ids && 0 <= a < |entries| && 0 <= b < |entries| &&
                          if entries[a].family == None || entries[a].family == Some("") then
                            entries[b].pattern == entries[a].pattern
                          else entries[b].family == entries[a].family
  {
    if BroughtIn(entries, ids, b) {
      var a :| a in ids && BringsIn(entries, a, b);
    }
    if a :| a in ids && 0 <= a < |entries| && 0 <= b < |entries| &&
            if entries[a].family == None || entries[a].family == Some("") then
              entries[b].pattern == entries[a].pattern
            else entries[b].family == entries[a].family {
      assert BringsIn(entries, a, b);
    }
  }

  ghost predicate ClaimedBy(entries: seq<Entry>, fs: seq<EntryFinding>, i: int, id: int) {
    0 <= i < |fs| && fs[i].evidence.Listed? && id in Expansion(entries, fs[i].evidence.ids)
  }

  lemma {:induction false} ClaimedByEarlier(entries: seq<Entry>, fs: seq<EntryFinding>, i: nat, id: int)
    requires i <= |fs|
    ensures id in Claimed(entries, fs, i) <==> exists k :: k < i && ClaimedBy(entries, fs, k, id)
  {
    if i > 0 {
      ClaimedByEarlier(entries, fs, i - 1, id);
      assert id in Claimed(entries, fs, i) <==> id in Claimed(entries, fs, i - 1) || ClaimedBy(entries, fs, i - 1, id);
    }
  }

  /** With families everywhere, a finding claims exactly the members of the families it cites. */
  lemma {:induction false} ClaimsItsFamilies(entries: seq<Entry>, fs: seq<EntryFinding>, i: nat, id: int)
    requires FamilyComplete(entries) && i < |fs|
    ensures ClaimedBy(entries, fs, i, id) <==>
              InLog(entries, id) && FamilyKey(entries[id]) in CitedFamilies(entries, fs[i])
  {
    if fs[i].evidence.Listed? {
      var ids := fs[i].evidence.ids;
      if InLog(entries, id) && FamilyKey(entries[id]) in CitedFamilies(entries, fs[i]) {
        var a :| a in ids && InLog(entries, a) && FamilyKey(entries[a]) == FamilyKey(entries[id]);
        assert entries[a] in entries && entries[id] in entries;
        assert BringsIn(entries, a, id);
      }
      if ClaimedBy(entries, fs, i, id) {
        assert BroughtIn(entries, ids, id);
        var a :| a in ids && BringsIn(entries, a, id);
        assert entries[a] in entries;
      }
    }
  }

  /** Distinct findings cite disjoint sets of families. */
  ghost predicate FamiliesDisjoint(entries: seq<Entry>, fs: seq<EntryFinding>) {
    forall i, j :: 0 <= i < j < |fs| ==> CitedFamilies(entries, fs[i]) !! CitedFamilies(entries, fs[j])
  }

  /** The pass succeeds exactly when all cited ids are entries of the log and distinct
      findings cite disjoint families; the order of the findings does not matter. */
  lemma {:induction false} SucceedsIffFamiliesDisjoint(entries: seq<Entry>, fs: seq<EntryFinding>)
    requires FamilyComplete(entries)
    ensures Groupable(entries, fs) <==>
              (forall f :: f in fs ==> WellCited(entries, f)) && FamiliesDisjoint(entries, fs)
  {
    if Groupable(entries, fs) {
      forall i | 0 <= i < |fs|
        ensures WellCited(entries, fs[i])
      {
        assert FindingGroupable(entries, fs, i);
      }
      forall i, j | 0 <= i < j < |fs|
        ensures CitedFamilies(entries, fs[i]) !! CitedFamilies(entries, fs[j])
      {
        AcceptedAreDisjoint(entries, fs, i, j);
      }
    }
    if (forall f :: f in fs ==> WellCited(entries, f)) && FamiliesDisjoint(entries, fs) {
      forall i | 0 <= i < |fs|
        ensures FindingGroupable(entries, fs, i)
      {
        DisjointIsAcceptable(entries, fs, i);
      }
    }
  }

  lemma {:induction false} AcceptedAreDisjoint(entries: seq<Entry>, fs: seq<EntryFinding>, i: nat, j: nat)
    requires FamilyComplete(entries) && Groupable(entries, fs) && i < j < |fs|
    ensures CitedFamilies(entries, fs[i]) !! CitedFamilies(entries, fs[j])
  {
    assert FindingGroupable(entries, fs, j);
    forall family | family in CitedFamilies(entries, fs[i])
      ensures family !in CitedFamilies(entries, fs[j])
    {
      if family in CitedFamilies(entries, fs[j]) {
        var id :| id in fs[j].evidence.ids && InLog(entries, id) && FamilyKey(entries[id]) == family;
        ClaimsItsFamilies(entries, fs, i, id);
        ClaimedByEarlier(entries, fs, j, id);
      }
    }
  }

  lemma {:induction false} DisjointIsAcceptable(entries: seq<Entry>, fs: seq<EntryFinding>, i: nat)
    requires FamilyComplete(entries) && i < |fs| && WellCited(entries, fs[i]) && FamiliesDisjoint(entries, fs)
    ensures FindingGroupable(entries, fs, i)
  {
    if fs[i].evidence.Listed? {
      forall id | id in fs[i].evidence.ids
        ensures id !in Claimed(entries, fs, i)
      {
        assert FamilyKey(entries[id]) in CitedFamilies(entries, fs[i]);
        ClaimedByEarlier(entries, fs, i, id);
        forall k: nat | k < i {
          ClaimsItsFamilies(entries, fs, k, id);
        }
      }
    }
  }

  /** Each finding of a successful pass owns exactly the union of the families it cites. */
  lemma {:induction false} OwnsItsFamilies(entries: seq<Entry>, fs: seq<EntryFinding>, i: nat, id: int)
    requires FamilyComplete(entries) && Groupable(entries, fs) && i < |fs| && fs[i].evidence.Listed?
    ensures Grouped(entries, fs, i).evidence.Listed?
    ensures id in Grouped(entries, fs, i).evidence.ids <==>
              InLog(entries, id) && FamilyKey(entries[id]) in CitedFamilies(entries, fs[i])
  {
    ClaimsItsFamilies(entries, fs, i, id);
    OwnedIsExpansion(entries, fs, i);
    OwnedIffCites(entries, fs, i);
  }

  lemma {:induction false} OwnedIsExpansion(entries: seq<Entry>, fs: seq<EntryFinding>, i: nat)
    requires FamilyComplete(entries) && Groupable(entries, fs) && i < |fs| && fs[i].evidence.Listed?
    ensures Expansion(entries, fs[i].evidence.ids) !! Claimed(entries, fs, i)
  {
    forall id | id in Expansion(entries, fs[i].evidence.ids)
      ensures id !in Claimed(entries, fs, i)
    {
      ClaimsItsFamilies(entries, fs, i, id);
      assert ClaimedBy(entries, fs, i, id);
      ClaimedByEarlier(entries, fs, i, id);
      forall k: nat | k < i
        ensures !ClaimedBy(entries, fs, k, id)
      {
        ClaimsItsFamilies(entries, fs, k, id);
        AcceptedAreDisjoint(entries, fs, k, i);
      }
    }
  }

  /** A finding owns something exactly when it cites something, families or not. */
  lemma {:induction false} OwnedIffCites(entries: seq<Entry>, fs: seq<EntryFinding>, i: nat)
    requires Groupable(entries, fs) && i < |fs| && fs[i].evidence.Listed?
    ensures SortedBelow(|entries|, Expansion(entries, fs[i].evidence.ids) - Claimed(entries, fs, i)) == [] <==>
              fs[i].evidence.ids == []
  {
    var ids := fs[i].evidence.ids;
    var owned := SortedBelow(|entries|, Expansion(entries, ids) - Claimed(entries, fs, i));
    assert FindingGroupable(entries, fs, i);
    assert owned != [] ==> owned[0] in Expansion(entries, ids);
    if ids != [] {
      assert ids[0] in ids && BringsIn(entries, ids[0], ids[0]);
      assert ids[0] in owned;
    }
  }

  // ---- Exact accounting ----

  /** How often `x` occurs. */
  ghost function Times(ids: seq<int>, x: int): nat {
    if ids == [] then 0 else Times(ids[..|ids| - 1], x) + if ids[|ids| - 1] == x then 1 else 0
  }

  ghost function EvidenceOf(f: EntryFinding): seq<int> {
    if f.evidence.Listed? then f.evidence.ids else []
  }

  /** How often the findings hold `x` as evidence. */
  ghost function Held(fs: seq<EntryFinding>, x: int): nat {
    if fs == [] then 0 else Held(fs[..|fs| - 1], x) + Times(EvidenceOf(fs[|fs| - 1]), x)
  }

  lemma {:induction false} TimesConcat(a: seq<int>, b: seq<int>, x: int)
    ensures Times(a + b, x) == Times(a, x) + Times(b, x)
  {
    if b == [] {
      assert a + b == a;
    } else {
      assert (a + b)[..|a + b| - 1] == a + b[..|b| - 1];
      TimesConcat(a, b[..|b| - 1], x);
    }
  }

  lemma {:induction false} HeldConcat(a: seq<EntryFinding>, b: seq<EntryFinding>, x: int)
    ensures Held(a + b, x) == Held(a, x) + Held(b, x)
  {
    if b == [] {
      assert a + b == a;
    } else {
      assert (a + b)[..|a + b| - 1] == a + b[..|b| - 1];
      HeldConcat(a, b[..|b| - 1], x);
    }
  }

  lemma {:induction false} HeldOne(f: EntryFinding, x: int)
    ensures Held([f], x) == Times(EvidenceOf(f), x)
  {
    assert [f][..0] == [];
  }

  ghost predicate Distinct(s: seq<int>) {
    forall j, k :: 0 <= j < k < |s| ==> s[j] != s[k]
  }

  lemma {:induction false} DistinctHoldsOnce(ids: seq<int>, x: int)
    requires Distinct(ids)
    ensures Times(ids, x) == if x in ids then 1 else 0
  {
    if ids != [] {
      DistinctHoldsOnce(ids[..|ids| - 1], x);
    }
  }

  lemma {:induction false} SortedBelowHolds(n: nat, s: set<int>, x: int)
    ensures Times(SortedBelow(n, s), x) == if x in s && 0 <= x < n then 1 else 0
  {
    DistinctHoldsOnce(SortedBelow(n, s), x);
  }

  lemma {:induction false} ClaimedInLog(entries: seq<Entry>, fs: seq<EntryFinding>, i: nat)
    requires i <= |fs|
    ensures Claimed(entries, fs, i) <= LogIds(entries)
  {
    if i > 0 {
      ClaimedInLog(entries, fs, i - 1);
    }
  }

  /** A grouped finding holds what it claims first, once each. */
  lemma {:induction false} OneGroupedHolds(entries: seq<Entry>, fs: seq<EntryFinding>, i: nat, x: int)
    requires Groupable(entries, fs) && i < |fs|
    ensures Times(EvidenceOf(Grouped(entries, fs, i)), x) ==
            if ClaimedBy(entries, fs, i, x) && x !in Claimed(entries, fs, i) then 1 else 0
  {
    assert FindingGroupable(entries, fs, i);
    if fs[i].evidence.Listed? {
      OwnedIffCites(entries, fs, i);
      SortedBelowHolds(|entries|, Expansion(entries, fs[i].evidence.ids) - Claimed(entries, fs, i), x);
    }
  }

  lemma {:induction false} HeldStep(fs: seq<EntryFinding>, n: nat, x: int)
    requires n < |fs|
    ensures Held(fs[..n + 1], x) == Held(fs[..n], x) + Times(EvidenceOf(fs[n]), x)
  {
    assert fs[..n + 1][..n] == fs[..n];
  }

  lemma {:induction false} ClaimedStep(entries: seq<Entry>, fs: seq<EntryFinding>, n: nat, x: int)
    requires n < |fs|
    ensures x in Claimed(entries, fs, n + 1) <==> x in Claimed(entries, fs, n) || ClaimedBy(entries, fs, n, x)
  {
  }

  /** The grouped findings hold exactly what was claimed, each entry once. */
  lemma {:induction false} GroupedHolds(entries: seq<Entry>, fs: seq<EntryFinding>, grouped: seq<EntryFinding>,
      n: nat, x: int)
    requires Groupable(entries, fs) && n <= |fs| && grouped == GroupedAll(entries, fs)
    ensures Held(grouped[..n], x) == if x in Claimed(entries, fs, n) then 1 else 0
  {
    if n > 0 {
      GroupedHolds(entries, fs, grouped, n - 1, x);
      assert grouped[n - 1] == Grouped(entries, fs, n - 1);
      OneMoreGrouped(entries, fs, grouped, n - 1, x);
    }
  }

  lemma {:induction false} OneMoreGrouped(entries: seq<Entry>, fs: seq<EntryFinding>, grouped: seq<EntryFinding>,
      n: nat, x: int)
    requires Groupable(entries, fs) && n < |fs| == |grouped| && grouped[n] == Grouped(entries, fs, n)
    requires Held(grouped[..n], x) == if x in Claimed(entries, fs, n) then 1 else 0
    ensures Held(grouped[..n + 1], x) == if x in Claimed(entries, fs, n + 1) then 1 else 0
  {
    OneGroupedHolds(entries, fs, n, x);
    HeldStep(grouped, n, x);
    ClaimedStep(entries, fs, n, x);
  }

  predicate IsOfFamily(entries: seq<Entry>, x: int, family: string) {
    InLog(entries, x) && FamilyKey(entries[x]) == family
  }

  lemma {:induction false} OfFamilyHolds(entries: seq<Entry>, ids: seq<int>, family: string, x: int)
    ensures Times(OfFamily(entries, ids, family), x) == if IsOfFamily(entries, x, family) then Times(ids, x) else 0
  {
    if ids != [] {
      var n := |ids| - 1;
      OfFamilyHolds(entries, ids[..n], family, x);
      TimesConcat(OfFamily(entries, ids[..n], family), if IsOfFamily(entries, ids[n], family) then [ids[n]] else [], x);
      assert [ids[n]][..0] == [];
    }
  }

  /** What filing one more family adds. */
  lemma {:induction false} FileOneMore(entries: seq<Entry>, ids: seq<int>, families: seq<string>, x: int)
    requires families != []
    ensures var n := |families| - 1;
            Held(Recovered(entries, ids, families), x) + Times(Rest(entries, ids, families), x) ==
            Held(Recovered(entries, ids, families[..n]), x) + Times(Rest(entries, ids, families[..n]), x) +
            Times(OfFamily(entries, ids, families[n]), x)
  {
    var n := |families| - 1;
    var filed := OfFamily(entries, ids, families[n]);
    var recovered := Quantify(entries, Blank("recovered-" + families[n]), filed);
    if families[n] in RECOVERABLE {
      HeldConcat(Recovered(entries, ids, families[..n]), [recovered], x);
      HeldOne(recovered, x);
      assert Rest(entries, ids, families) == Rest(entries, ids, families[..n]);
    } else {
      TimesConcat(Rest(entries, ids, families[..n]), filed, x);
      assert Recovered(entries, ids, families) == Recovered(entries, ids, families[..n]);
    }
  }

  /** Filing by distinct families keeps every entry of those families as often as it was. */
  lemma {:induction false} FiledHolds(entries: seq<Entry>, ids: seq<int>, families: seq<string>, x: int)
    requires NoDuplicates(families)
    ensures Held(Recovered(entries, ids, families), x) + Times(Rest(entries, ids, families), x) ==
            if InLog(entries, x) && FamilyKey(entries[x]) in families then Times(ids, x) else 0
  {
    if families != [] {
      var n := |families| - 1;
      assert families == families[..n] + [families[n]] && families[n] !in families[..n];
      FiledHolds(entries, ids, families[..n], x);
      OfFamilyHolds(entries, ids, families[n], x);
      FileOneMore(entries, ids, families, x);
    }
  }

  lemma {:induction false} FamilyKeysHold(entries: seq<Entry>, ids: seq<int>, x: int)
    requires InLog(entries, x) && Times(ids, x) > 0
    ensures FamilyKey(entries[x]) in FamilyKeys(entries, ids)
  {
    var n := |ids| - 1;
    if x != ids[n] {
      FamilyKeysHold(entries, ids[..n], x);
    }
  }

  lemma {:induction false} OnlyMembers(ids: seq<int>, x: int)
    ensures Times(ids, x) > 0 <==> x in ids
  {
    if ids != [] {
      OnlyMembers(ids[..|ids| - 1], x);
    }
  }

  /** Everything loose is filed, as often as it was loose. */
  lemma {:induction false} LooseIsFiled(entries: seq<Entry>, ids: seq<int>, x: int)
    requires forall id :: id in ids ==> InLog(entries, id)
    ensures var families := FamilyOrder(entries, ids);
            Held(Recovered(entries, ids, families), x) + Times(Rest(entries, ids, families), x) == Times(ids, x)
  {
    FiledHolds(entries, ids, FamilyOrder(entries, ids), x);
    OnlyMembers(ids, x);
    if x in ids {
      FamilyKeysHold(entries, ids, x);
    }
  }

  lemma {:induction false} BucketHolds(entries: seq<Entry>, rest: seq<int>, x: int)
    ensures Held(Bucket(entries, rest), x) == Times(rest, x)
  {
    if rest != [] {
      HeldOne(Bucket(entries, rest)[0], x);
    }
  }

  /** The reconciled findings hold every entry of the log exactly once, and nothing else. */
  lemma {:induction false} EveryEntryOnce(entries: seq<Entry>, fs: seq<EntryFinding>, x: int)
    requires Groupable(entries, fs)
    ensures Held(Reconciliation(entries, fs), x) == if InLog(entries, x) then 1 else 0
  {
    var loose := Unclaimed(entries, fs);
    var families := FamilyOrder(entries, loose);
    var grouped := GroupedAll(entries, fs);
    var recovered, rest := Recovered(entries, loose, families), Rest(entries, loose, families);
    HeldConcat(grouped + recovered, Bucket(entries, rest), x);
    HeldConcat(grouped, recovered, x);
    assert grouped[..|fs|] == grouped;
    GroupedHolds(entries, fs, grouped, |fs|, x);
    ClaimedInLog(entries, fs, |fs|);
    LooseIsFiled(entries, loose, x);
    SortedBelowHolds(|entries|, LogIds(entries) - Claimed(entries, fs, |fs|), x);
    BucketHolds(entries, rest, x);
  }

  lemma {:induction false} HeldBy(fs: seq<EntryFinding>, i: nat, x: int)
    requires i < |fs|
    ensures Times(EvidenceOf(fs[i]), x) <= Held(fs, x)
  {
    if i < |fs| - 1 {
      HeldBy(fs[..|fs| - 1], i, x);
    }
  }

  lemma {:induction false} HeldByTwo(fs: seq<EntryFinding>, i: nat, j: nat, x: int)
    requires i < j < |fs|
    ensures Times(EvidenceOf(fs[i]), x) + Times(EvidenceOf(fs[j]), x) <= Held(fs, x)
  {
    if j < |fs| - 1 {
      HeldByTwo(fs[..|fs| - 1], i, j, x);
    } else {
      HeldBy(fs[..j], i, x);
    }
  }

  lemma {:induction false} SomeHolder(fs: seq<EntryFinding>, x: int) returns (i: nat)
    requires Held(fs, x) > 0
    ensures i < |fs| && x in EvidenceOf(fs[i])
  {
    var n := |fs| - 1;
    OnlyMembers(EvidenceOf(fs[n]), x);
    if Times(EvidenceOf(fs[n]), x) > 0 {
      i := n;
    } else {
      i := SomeHolder(fs[..n], x);
    }
  }

  /** The evidence lists are disjoint and cover the log. */
  ghost predicate Partitions(entries: seq<Entry>, fs: seq<EntryFinding>) {
    && (forall i, j, x :: 0 <= i < j < |fs| && x in EvidenceOf(fs[i]) ==> x !in EvidenceOf(fs[j]))
    && (forall i :: 0 <= i < |fs| ==> Distinct(EvidenceOf(fs[i])))
    && (forall i, x :: 0 <= i < |fs| && x in EvidenceOf(fs[i]) ==> InLog(entries, x))
    && (forall x :: InLog(entries, x) ==> exists i :: 0 <= i < |fs| && x in EvidenceOf(fs[i]))
  }

  lemma {:induction false} TwoTimes(ids: seq<int>, j: nat, k: nat)
    requires j < k < |ids| && ids[j] == ids[k]
    ensures Times(ids, ids[j]) >= 2
  {
    var n := |ids| - 1;
    if k < n {
      TwoTimes(ids[..n], j, k);
    } else {
      OnlyMembers(ids[..n], ids[j]);
      assert ids[..n][j] == ids[j];
    }
  }

  /** Every entry of the log is held once, and nothing else. */
  ghost predicate HoldsOnce(entries: seq<Entry>, fs: seq<EntryFinding>) {
    forall x :: Held(fs, x) == if InLog(entries, x) then 1 else 0
  }

  lemma {:induction false} ReconciliationHoldsOnce(entries: seq<Entry>, fs: seq<EntryFinding>)
    requires Groupable(entries, fs)
    ensures HoldsOnce(entries, Reconciliation(entries, fs))
  {
    forall x
      ensures Held(Reconciliation(entries, fs), x) == if InLog(entries, x) then 1 else 0
    {
      EveryEntryOnce(entries, fs, x);
    }
  }

  /** Holding every entry once is partitioning the log. */
  lemma {:induction false} HoldingOncePartitions(entries: seq<Entry>, out: seq<EntryFinding>)
    requires HoldsOnce(entries, out)
    ensures Partitions(entries, out)
  {
    forall x | InLog(entries, x)
      ensures exists i :: 0 <= i < |out| && x in EvidenceOf(out[i])
    {
      var i := SomeHolder(out, x);
    }
    forall i, x | 0 <= i < |out| && x in EvidenceOf(out[i])
      ensures InLog(entries, x)
    {
      OnlyMembers(EvidenceOf(out[i]), x);
      HeldBy(out, i, x);
    }
    forall i, j, x | 0 <= i < j < |out| && x in EvidenceOf(out[i])
      ensures x !in EvidenceOf(out[j])
    {
      HeldByTwo(out, i, j, x);
      OnlyMembers(EvidenceOf(out[i]), x);
      OnlyMembers(EvidenceOf(out[j]), x);
    }
    forall i | 0 <= i < |out|
      ensures Distinct(EvidenceOf(out[i]))
    {
      HeldOnceIsDistinct(entries, out, i);
    }
  }

  lemma {:induction false} HeldOnceIsDistinct(entries: seq<Entry>, out: seq<EntryFinding>, i: nat)
    requires HoldsOnce(entries, out) && i < |out|
    ensures Distinct(EvidenceOf(out[i]))
  {
    var ids := EvidenceOf(out[i]);
    forall j, k | 0 <= j < k < |ids|
      ensures ids[j] != ids[k]
    {
      HeldBy(out, i, ids[j]);
      if ids[j] == ids[k] {
        TwoTimes(ids, j, k);
      }
    }
  }

  /** Whatever the families, the reconciled evidence lists partition the log. */
  lemma {:induction false} EvidencePartitionsLog(entries: seq<Entry>, fs: seq<EntryFinding>)
    requires Groupable(entries, fs)
    ensures Partitions(entries, Reconciliation(entries, fs))
  {
    ReconciliationHoldsOnce(entries, fs);
    HoldingOncePartitions(entries, Reconciliation(entries, fs));
  }
}
