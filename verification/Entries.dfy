/** Findings that cite log entries, and their expansion to whole cause families. */
module Entries {
  import opened CodePointOrder
  import opened Results
  import opened Findings

  /** An entry of the log; its id is its position.  A missing family is `None`. */
  datatype Entry = Entry(pattern: string, family: Option<string>, trace: Option<string>)

  /** `evidence_entry_ids`: absent, not a list of integers, or a list. */
  datatype Evidence = Absent | Malformed | Listed(ids: seq<int>)

  datatype EntryFinding = EntryFinding(
    name: string, evidence: Evidence, patternIds: seq<string>,
    count: Option<nat>, percentage: Option<nat>, physical: Option<nat>, occurrences: Option<nat>)

  datatype EntryReport = EntryReport(findings: seq<EntryFinding>, keyCount: nat)

  /** The persisted identity of a cause group; the digest is kept as its argument. */
  function SemanticId(name: string): string {
    "semantic-v1:" + if name == "" then "finding" else name
  }

  predicate InLog(entries: seq<Entry>, id: int) {
    0 <= id < |entries|
  }

  predicate HasFamily(e: Entry) {
    e.family.Some? && e.family.value != ""
  }

  /** Citing `a` brings in `b`: same family, or same pattern when `a` has no family. */
  predicate BringsIn(entries: seq<Entry>, a: int, b: int) {
    && InLog(entries, a) && InLog(entries, b)
    && if HasFamily(entries[a]) then entries[b].family == entries[a].family
       else entries[b].pattern == entries[a].pattern
  }

  predicate BroughtIn(entries: seq<Entry>, ids: seq<int>, b: int) {
    exists a :: a in ids && BringsIn(entries, a, b)
  }

  /** Every entry that the cited ones bring in. */
  function Expansion(entries: seq<Entry>, ids: seq<int>): (r: set<int>)
    ensures forall b :: b in r <==> BroughtIn(entries, ids, b)
  {
    set b | 0 <= b < |entries| && BroughtIn(entries, ids, b)
  }

  function LogIds(entries: seq<Entry>): (r: set<int>)
    ensures forall id :: id in r <==> InLog(entries, id)
  {
    set id | 0 <= id < |entries| && InLog(entries, id)
  }

  /** The members of `s` below `n`, ascending: `sorted(s)`. */
  function SortedBelow(n: nat, s: set<int>): (r: seq<int>)
    ensures forall k :: 0 <= k < |r| ==> 0 <= r[k] < n && r[k] in s
    ensures forall x :: x in s && 0 <= x < n ==> x in r
    ensures forall j, k :: 0 <= j < k < |r| ==> r[j] < r[k]
  {
    if n == 0 then [] else SortedBelow(n - 1, s) + if n - 1 in s then [n - 1] else []
  }

  /** What the findings before `i` claim. */
  function Claimed(entries: seq<Entry>, fs: seq<EntryFinding>, i: nat): set<int>
    requires i <= |fs|
  {
    if i == 0 then {} else
      Claimed(entries, fs, i - 1) +
      if fs[i - 1].evidence.Listed? then Expansion(entries, fs[i - 1].evidence.ids) else {}
  }

  /** Exactly when the entry pass raises nothing. */
  ghost predicate Groupable(entries: seq<Entry>, fs: seq<EntryFinding>) {
    forall i :: 0 <= i < |fs| ==> FindingGroupable(entries, fs, i)
  }

  ghost predicate FindingGroupable(entries: seq<Entry>, fs: seq<EntryFinding>, i: nat)
    requires i < |fs|
  {
    match fs[i].evidence
    case Absent => true
    case Malformed => false
    case Listed(ids) => forall id :: id in ids ==> InLog(entries, id) && id !in Claimed(entries, fs, i)
  }

  datatype Key = OneTrace(trace: string) | OneEntry(id: int)

  function OccurrenceKey(entries: seq<Entry>, id: int): Key {
    if InLog(entries, id) && entries[id].trace.Some? && entries[id].trace.value != "" then
      OneTrace(entries[id].trace.value)
    else OneEntry(id)
  }

  /** Correlated occurrences: entries of one trace count once. */
  function OccurrenceCount(entries: seq<Entry>, ids: seq<int>): nat {
    |set id | id in ids :: OccurrenceKey(entries, id)|
  }

  /** `f` over the entries `ids`, with every number derived from them. */
  function Quantify(entries: seq<Entry>, f: EntryFinding, ids: seq<int>): EntryFinding {
    f.(evidence := Listed(ids), patternIds := [SemanticId(f.name)],
       count := Some(|ids|), percentage := Some(Percentage(|ids|, |entries|)),
       physical := Some(|ids|), occurrences := Some(OccurrenceCount(entries, ids)))
  }

  /** What the pass makes of finding `i`. */
  function Grouped(entries: seq<Entry>, fs: seq<EntryFinding>, i: nat): EntryFinding
    requires i < |fs|
  {
    match fs[i].evidence
    case Listed(ids) =>
      var owned := SortedBelow(|entries|, Expansion(entries, ids) - Claimed(entries, fs, i));
      if owned != [] then Quantify(entries, fs[i], owned) else
        fs[i].(patternIds := [UNQUANTIFIED], count := None, percentage := None)
    case _ => fs[i]
  }

  // ---- The recovery of unclaimed entries ----

  /** The families that have a presentation of their own when no finding claims them. */
  const RECOVERABLE: set<string> := {
    "sms-opted-out", "sms-invalid-destination", "sms-command-failure", "sms-missing-phone",
    "face-compare-timeout", "login-account-empty", "google-login-null", "generic:zipexception",
    "third-party-game-api", "withdrawal-order-status", "export-file-missing",
    "generic:resourceaccessexception:sslexception"
  }

  function FamilyKey(e: Entry): string {
    match e.family case Some(family) => family case None => OTHER
  }

  function Unclaimed(entries: seq<Entry>, fs: seq<EntryFinding>): seq<int> {
    SortedBelow(|entries|, LogIds(entries) - Claimed(entries, fs, |fs|))
  }

  /** The members of `ids` filed under `family`, in order. */
  function OfFamily(entries: seq<Entry>, ids: seq<int>, family: string): (r: seq<int>)
    ensures forall x :: x in r <==> x in ids && InLog(entries, x) && FamilyKey(entries[x]) == family
  {
    if ids == [] then [] else
      var n := |ids| - 1;
      assert ids == ids[..n] + [ids[n]];
      OfFamily(entries, ids[..n], family) +
      if InLog(entries, ids[n]) && FamilyKey(entries[ids[n]]) == family then [ids[n]] else []
  }

  function FamilyKeys(entries: seq<Entry>, ids: seq<int>): seq<string> {
    if ids == [] then [] else
      var n := |ids| - 1;
      FamilyKeys(entries, ids[..n]) + if InLog(entries, ids[n]) then [FamilyKey(entries[ids[n]])] else []
  }

  function InsertSorted(x: string, s: seq<string>): (r: seq<string>)
    ensures forall y :: y in r <==> y == x || y in s
    ensures NoDuplicates(s) && x !in s ==> NoDuplicates(r)
  {
    if s == [] then [x]
    else if Precedes(x, s[0]) then [x] + s
    else
      assert s == [s[0]] + s[1..];
      var tail := InsertSorted(x, s[1..]);
      assert NoDuplicates(s) && x !in s ==> s[0] !in tail;
      assert forall k :: 0 <= k < |tail| ==> tail[k] in tail;
      [s[0]] + tail
  }

  /** `sorted` over distinct keys. */
  function Sorted(s: seq<string>): (r: seq<string>)
    ensures forall y :: y in r <==> y in s
    ensures NoDuplicates(s) ==> NoDuplicates(r)
  {
    if s == [] then [] else
      assert s == [s[0]] + s[1..];
      InsertSorted(s[0], Sorted(s[1..]))
  }

  function FamilyOrder(entries: seq<Entry>, ids: seq<int>): seq<string> {
    Sorted(Deduplicated(FamilyKeys(entries, ids)))
  }

  function Blank(name: string): EntryFinding {
    EntryFinding(name, Absent, [], None, None, None, None)
  }

  /** One finding for each recoverable family among the first `n`. */
  function Recovered(entries: seq<Entry>, ids: seq<int>, families: seq<string>): seq<EntryFinding> {
    if families == [] then [] else
      var n := |families| - 1;
      Recovered(entries, ids, families[..n]) +
      if families[n] in RECOVERABLE then
        [Quantify(entries, Blank("recovered-" + families[n]), OfFamily(entries, ids, families[n]))]
      else []
  }

  /** The entries of the other families, family by family. */
  function Rest(entries: seq<Entry>, ids: seq<int>, families: seq<string>): seq<int> {
    if families == [] then [] else
      var n := |families| - 1;
      Rest(entries, ids, families[..n]) + if families[n] in RECOVERABLE then [] else OfFamily(entries, ids, families[n])
  }

  function Bucket(entries: seq<Entry>, rest: seq<int>): seq<EntryFinding> {
    if rest == [] then [] else [Quantify(entries, Blank("other-observed-log-activity"), rest)]
  }

  function GroupedAll(entries: seq<Entry>, fs: seq<EntryFinding>): (r: seq<EntryFinding>)
    ensures |r| == |fs|
    ensures forall i :: 0 <= i < |fs| ==> r[i] == Grouped(entries, fs, i)
  {
    seq(|fs|, i requires 0 <= i < |fs| => Grouped(entries, fs, i))
  }

  /** The reconciled findings: the grouped ones, the recovered ones, the catch-all bucket. */
  function Reconciliation(entries: seq<Entry>, fs: seq<EntryFinding>): seq<EntryFinding> {
    var loose := Unclaimed(entries, fs);
    var families := FamilyOrder(entries, loose);
    GroupedAll(entries, fs) + Recovered(entries, loose, families) + Bucket(entries, Rest(entries, loose, families))
  }

  ghost predicate InOrder(s: seq<string>) {
    forall j, k :: 0 <= j < k < |s| ==> Precedes(s[j], s[k])
  }

  lemma {:induction false} InsertKeepsOrder(x: string, s: seq<string>)
    requires InOrder(s)
    ensures InOrder(InsertSorted(x, s))
  {
    if s != [] {
      if Precedes(x, s[0]) {
        forall k | 0 <= k < |s|
          ensures Precedes(x, s[k])
        {
          if k > 0 {
            PrecedesTransitive(x, s[0], s[k]);
          }
        }
      } else {
        PrecedesTotal(x, s[0]);
        InsertKeepsOrder(x, s[1..]);
        var tail := InsertSorted(x, s[1..]);
        forall k | 0 <= k < |tail|
          ensures Precedes(s[0], tail[k])
        {
          assert tail[k] in tail;
        }
      }
    }
  }

  /** Families are recovered in code point order. */
  lemma {:induction false} SortedIsInOrder(s: seq<string>)
    ensures InOrder(Sorted(s))
  {
    if s != [] {
      SortedIsInOrder(s[1..]);
      InsertKeepsOrder(s[0], Sorted(s[1..]));
    }
  }
}
