/** The entry pass: claims whole families for the findings that cite them, then
    files what no finding claimed. */
module EntryPass {
  import opened Results
  import opened Findings
  import opened Entries

  /** The key an entry is filed under in one of the two indexes. */
  function IndexKey(e: Entry, byFamily: bool): Option<string> {
    if !byFamily then Some(e.pattern) else if HasFamily(e) then e.family else None
  }

  /** `m` files the first `n` entries under their keys. */
  ghost predicate Files(entries: seq<Entry>, m: map<string, set<int>>, n: nat, byFamily: bool) {
    && n <= |entries|
    && forall k, id :: FiledAt(m, k, id) <==> 0 <= id < n && IndexKey(entries[id], byFamily) == Some(k)
  }

  ghost predicate FiledAt(m: map<string, set<int>>, k: string, id: int) {
    k in m && id in m[k]
  }

  function File(m: map<string, set<int>>, e: Entry, byFamily: bool, id: int): map<string, set<int>> {
    match IndexKey(e, byFamily)
    case None => m
    case Some(k) => m[k := (if k in m then m[k] else {}) + {id}]
  }

  lemma {:induction false} FileOne(entries: seq<Entry>, m: map<string, set<int>>, n: nat, byFamily: bool)
    requires n < |entries| && Files(entries, m, n, byFamily)
    ensures Files(entries, File(m, entries[n], byFamily, n), n + 1, byFamily)
  {
    var m' := File(m, entries[n], byFamily, n);
    forall k, id
      ensures FiledAt(m', k, id) <==> 0 <= id < n + 1 && IndexKey(entries[id], byFamily) == Some(k)
    {
      assert FiledAt(m, k, id) <==> 0 <= id < n && IndexKey(entries[id], byFamily) == Some(k);
    }
  }

  method IndexEntries(entries: seq<Entry>) returns (byFamily: map<string, set<int>>, byPattern: map<string, set<int>>)
    ensures Files(entries, byFamily, |entries|, true) && Files(entries, byPattern, |entries|, false)
  {
    byFamily, byPattern := map[], map[];
    for id := 0 to |entries|
      invariant Files(entries, byFamily, id, true) && Files(entries, byPattern, id, false)
    {
      FileOne(entries, byPattern, id, false);
      byPattern := File(byPattern, entries[id], false, id);
      FileOne(entries, byFamily, id, true);
      byFamily := File(byFamily, entries[id], true, id);
    }
  }

  /** The entries that citing `id` brings in, looked up. */
  lemma {:induction false} LookupBringsIn(entries: seq<Entry>, m: map<string, set<int>>, id: int)
    requires InLog(entries, id) && Files(entries, m, |entries|, HasFamily(entries[id]))
    ensures var k := IndexKey(entries[id], HasFamily(entries[id])).value;
            k in m && forall b :: b in m[k] <==> BringsIn(entries, id, b)
  {
    var k := IndexKey(entries[id], HasFamily(entries[id])).value;
    assert FiledAt(m, k, id);
    forall b
      ensures b in m[k] <==> BringsIn(entries, id, b)
    {
      assert FiledAt(m, k, b) <==> b in m[k];
    }
  }

  /** Expands cited entries through their families, or patterns. */
  method Expand(entries: seq<Entry>, byFamily: map<string, set<int>>, byPattern: map<string, set<int>>, ids: seq<int>)
    returns (expanded: set<int>)
    requires Files(entries, byFamily, |entries|, true) && Files(entries, byPattern, |entries|, false)
    requires forall id :: id in ids ==> InLog(entries, id)
    ensures expanded == Expansion(entries, ids)
  {
    expanded := {};
    for k := 0 to |ids|
      invariant expanded == Expansion(entries, ids[..k])
    {
      assert ids[..k + 1] == ids[..k] + [ids[k]];
      assert ids[k] in ids;
      var entry := entries[ids[k]];
      if HasFamily(entry) {
        LookupBringsIn(entries, byFamily, ids[k]);
        ExpansionGrows(entries, ids[..k], ids[k], byFamily[entry.family.value]);
        expanded := expanded + byFamily[entry.family.value];
      } else {
        LookupBringsIn(entries, byPattern, ids[k]);
        ExpansionGrows(entries, ids[..k], ids[k], byPattern[entry.pattern]);
        expanded := expanded + byPattern[entry.pattern];
      }
    }
    assert ids[..|ids|] == ids;
  }

  lemma {:induction false} ExpansionGrows(entries: seq<Entry>, ids: seq<int>, id: int, brought: set<int>)
    requires forall b :: b in brought <==> BringsIn(entries, id, b)
    ensures Expansion(entries, ids + [id]) == Expansion(entries, ids) + brought
  {
    var grown := ids + [id];
    forall b
      ensures BroughtIn(entries, grown, b) <==> BroughtIn(entries, ids, b) || b in brought
    {
      if a :| a in ids && BringsIn(entries, a, b) {
        assert a in grown;
      }
      if b in brought {
        assert id in grown;
      }
    }
  }

  /** The first `i` findings are acceptable, and this is what the pass makes of them. */
  ghost predicate GroupedUpTo(entries: seq<Entry>, fs: seq<EntryFinding>, i: nat, grouped: seq<EntryFinding>,
      claimed: set<int>) {
    && i <= |fs| && |grouped| == i && claimed == Claimed(entries, fs, i)
    && (forall k :: 0 <= k < i ==> FindingGroupable(entries, fs, k) && grouped[k] == Grouped(entries, fs, k))
  }

  lemma {:induction false} GroupOne(entries: seq<Entry>, fs: seq<EntryFinding>, i: nat, grouped: seq<EntryFinding>,
      claimed: set<int>)
    requires i < |fs| && GroupedUpTo(entries, fs, i, grouped, claimed) && FindingGroupable(entries, fs, i)
    ensures GroupedUpTo(entries, fs, i + 1, grouped + [Grouped(entries, fs, i)], Claimed(entries, fs, i + 1))
  {
  }

  /** Rewrites a finding with evidence, unless it cites what it must not. */
  method GroupListed(entries: seq<Entry>, byFamily: map<string, set<int>>, byPattern: map<string, set<int>>,
      f: EntryFinding, claimed: set<int>) returns (out: Result<EntryFinding>, expanded: set<int>)
    requires Files(entries, byFamily, |entries|, true) && Files(entries, byPattern, |entries|, false)
    requires f.evidence.Listed?
    ensures out.Success? <==> forall id :: id in f.evidence.ids ==> InLog(entries, id) && id !in claimed
    ensures out.Failure? ==> out.error == Rejected
    ensures out.Success? ==> expanded == Expansion(entries, f.evidence.ids)
    ensures out.Success? ==>
              var owned := SortedBelow(|entries|, expanded - claimed);
              out.value == if owned != [] then Quantify(entries, f, owned) else
                           f.(patternIds := [UNQUANTIFIED], count := None, percentage := None)
  {
    expanded := {};
    var ids := f.evidence.ids;
    if exists id :: id in ids && (!InLog(entries, id) || id in claimed) {
      return Failure(Rejected), expanded;
    }
    expanded := Expand(entries, byFamily, byPattern, ids);
    var owned := SortedBelow(|entries|, expanded - claimed);
    if owned != [] {
      out := Success(Quantify(entries, f, owned));
    } else {
      out := Success(f.(patternIds := [UNQUANTIFIED], count := None, percentage := None));
    }
  }

  /** Rewrites every finding with evidence; rejects malformed, unknown and twice-claimed ids. */
  method GroupFindings(entries: seq<Entry>, fs: seq<EntryFinding>)
    returns (out: Result<seq<EntryFinding>>, claimed: set<int>)
    ensures out.Success? <==> Groupable(entries, fs)
    ensures out.Failure? ==> out.error == Rejected
    ensures out.Success? ==> out.value == GroupedAll(entries, fs) && claimed == Claimed(entries, fs, |fs|)
  {
    var byFamily, byPattern := IndexEntries(entries);
    var grouped: seq<EntryFinding> := [];
    claimed := {};
    for i := 0 to |fs|
      invariant GroupedUpTo(entries, fs, i, grouped, claimed)
    {
      match fs[i].evidence
      case Absent =>
        GroupOne(entries, fs, i, grouped, claimed);
        grouped := grouped + [fs[i]];
      case Malformed =>
        assert !FindingGroupable(entries, fs, i);
        return Failure(Rejected), claimed;
      case Listed(_) =>
        var one, expanded := GroupListed(entries, byFamily, byPattern, fs[i], claimed);
        if one.Failure? {
          assert !FindingGroupable(entries, fs, i);
          return Failure(Rejected), claimed;
        }
        GroupOne(entries, fs, i, grouped, claimed);
        grouped := grouped + [one.value];
        claimed := claimed + expanded;
    }
    out := Success(grouped);
  }

  /** Files what no finding claimed: recoverable families apart, the rest in one bucket. */
  method FileLoose(entries: seq<Entry>, loose: seq<int>) returns (filed: seq<EntryFinding>)
    ensures filed == Recovered(entries, loose, FamilyOrder(entries, loose)) +
                     Bucket(entries, Rest(entries, loose, FamilyOrder(entries, loose)))
  {
    var families := FamilyOrder(entries, loose);
    filed := [];
    var rest: seq<int> := [];
    for n := 0 to |families|
      invariant filed == Recovered(entries, loose, families[..n])
      invariant rest == Rest(entries, loose, families[..n])
    {
      assert families[..n + 1][..n] == families[..n];
      var ids := OfFamily(entries, loose, families[n]);
      if families[n] in RECOVERABLE {
        filed := filed + [Quantify(entries, Blank("recovered-" + families[n]), ids)];
      } else {
        rest := rest + ids;
      }
    }
    assert families[..|families|] == families;
    if rest != [] {
      filed := filed + [Quantify(entries, Blank("other-observed-log-activity"), rest)];
    }
  }

  /** The whole entry path. */
  method ReconcileEntries(entries: seq<Entry>, r: EntryReport) returns (out: Result<EntryReport>)
    ensures out.Success? <==> Groupable(entries, r.findings)
    ensures out.Failure? ==> out.error == Rejected
    ensures out.Success? ==> out.value == EntryReport(Reconciliation(entries, r.findings), r.keyCount)
  {
    var grouped, claimed := GroupFindings(entries, r.findings);
    if grouped.Failure? {
      return Failure(grouped.error);
    }
    var loose := SortedBelow(|entries|, LogIds(entries) - claimed);
    var filed: seq<EntryFinding> := [];
    if loose != [] {
      filed := FileLoose(entries, loose);
    }
    out := Success(EntryReport(grouped.value + filed, r.keyCount));
  }
}
