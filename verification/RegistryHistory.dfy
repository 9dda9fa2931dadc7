/** What any sequence of registry calls keeps. */
module RegistryHistory {
  import opened Results
  import opened Snapshots
  import opened Registry

  function CountOf(rows: Rows, name: string): nat {
    if rows == [] then 0 else
      var n := |rows| - 1;
      CountOf(rows[..n], name) + if rows[n].name == name then 1 else 0
  }

  /** Each skill's versions are 1, 2, 3, ... in the order of creation. */
  ghost predicate Numbered(rows: Rows) {
    forall i :: 0 <= i < |rows| ==> rows[i].version == CountOf(rows[..i], rows[i].name) + 1
  }

  ghost predicate OneActive(rows: Rows) {
    forall i, j ::
             0 <= i < |rows| && 0 <= j < |rows| && rows[i].active && rows[j].active && rows[i].name == rows[j].name ==>
               i == j
  }

  ghost predicate History(rows: Rows) {
    Numbered(rows) && OneActive(rows)
  }

  ghost predicate HasActive(rows: Rows, name: string) {
    exists i :: 0 <= i < |rows| && rows[i].name == name && rows[i].active
  }

  /** A skill with a row has an active one. */
  ghost predicate Led(rows: Rows, name: string) {
    Known(rows, name) ==> HasActive(rows, name)
  }

  /** Rows are only added, and of a row only the active flag ever changes. */
  ghost predicate Extends(rows: Rows, later: Rows) {
    |rows| <= |later| && forall i :: 0 <= i < |rows| ==> later[i].(active := rows[i].active) == rows[i]
  }

  lemma {:induction false} ExtendsTransitive(a: Rows, b: Rows, c: Rows)
    requires Extends(a, b) && Extends(b, c)
    ensures Extends(a, c)
  {
    forall i | 0 <= i < |a|
      ensures c[i].(active := a[i].active) == a[i]
    {
      assert c[i].(active := b[i].active) == b[i];
    }
  }

  lemma {:induction false} MaxIsCount(rows: Rows, name: string)
    requires Numbered(rows)
    ensures MaxVersion(rows, name) == CountOf(rows, name)
  {
    if rows != [] {
      var n := |rows| - 1;
      assert forall i :: 0 <= i < n ==> rows[..n][..i] == rows[..i];
      MaxIsCount(rows[..n], name);
    }
  }

  lemma {:induction false} SameCounts(a: Rows, b: Rows, name: string)
    requires |a| == |b| && forall i :: 0 <= i < |a| ==> a[i].name == b[i].name
    ensures CountOf(a, name) == CountOf(b, name)
  {
    if a != [] {
      SameCounts(a[..|a| - 1], b[..|b| - 1], name);
    }
  }

  lemma {:induction false} DeactivatedIsNumbered(rows: Rows, name: string)
    requires Numbered(rows)
    ensures Numbered(Deactivated(rows, name))
  {
    var cleared := Deactivated(rows, name);
    forall i | 0 <= i < |cleared|
      ensures cleared[i].version == CountOf(cleared[..i], cleared[i].name) + 1
    {
      SameCounts(rows[..i], cleared[..i], rows[i].name);
    }
  }

  lemma {:induction false} AppendIsNumbered(rows: Rows, row: Row)
    requires Numbered(rows) && row.version == CountOf(rows, row.name) + 1
    ensures Numbered(rows + [row])
  {
    var longer := rows + [row];
    forall i | 0 <= i < |longer|
      ensures longer[i].version == CountOf(longer[..i], longer[i].name) + 1
    {
      assert longer[..i] == rows[..i];
      assert rows[..|rows|] == rows;
    }
  }

  lemma {:induction false} ClearedKeeps(rows: Rows, name: string)
    requires History(rows)
    ensures var cleared := Deactivated(rows, name);
            History(cleared) && Extends(rows, cleared) && !HasActive(cleared, name)
            && forall m :: CountOf(cleared, m) == CountOf(rows, m)
  {
    DeactivatedIsNumbered(rows, name);
    forall m
      ensures CountOf(Deactivated(rows, name), m) == CountOf(rows, m)
    {
      SameCounts(rows, Deactivated(rows, name), m);
    }
  }

  lemma {:induction false} AppendKeeps(rows: Rows, row: Row)
    requires History(rows) && row.version == CountOf(rows, row.name) + 1 && (row.active ==> !HasActive(rows, row.name))
    ensures History(rows + [row]) && Extends(rows, rows + [row])
  {
    AppendIsNumbered(rows, row);
  }

  /** What one creation leaves. */
  lemma {:induction false} CreationKeeps(w: World, rows: Rows, name: string, pins: map<string, Id>,
      activate: Option<bool>)
    requires History(rows) && name in w.skills && Created(w, rows, name, pins, activate).Success?
    ensures var (later, id) := Created(w, rows, name, pins, activate).value;
            && History(later) && Extends(rows, later) && id == |rows| && |later| == |rows| + 1
            && later[id].name == name
            && (forall m :: Led(rows, m) && (m != name || activate != Some(false) || Known(rows, m)) ==> Led(later, m))
  {
    var (later, id) := Created(w, rows, name, pins, activate).value;
    var cleared := if later[id].active then Deactivated(rows, name) else rows;
    MaxIsCount(rows, name);
    ClearedKeeps(rows, name);
    AppendKeeps(cleared, later[id]);
    ExtendsTransitive(rows, cleared, later);
    assert later[..id] == cleared;
    forall m | Led(rows, m) && (m != name || activate != Some(false) || Known(rows, m))
      ensures Led(later, m)
    {
      CreationLeads(rows, later, name, m);
    }
  }

  lemma {:induction false} CreationLeads(rows: Rows, later: Rows, name: string, m: string)
    requires |later| == |rows| + 1 && later[|rows|].name == name && Led(rows, m)
    requires later[..|rows|] == if later[|rows|].active then Deactivated(rows, name) else rows
    requires m != name || later[|rows|].active || Known(rows, m)
    ensures Led(later, m)
  {
    assert forall i :: 0 <= i < |rows| ==> later[i] == later[..|rows|][i];
    if later[|rows|].active && m == name {
      assert HasActive(later, m);
    } else if Known(later, m) {
      var i :| 0 <= i < |later| && later[i].name == m;
      assert i < |rows| ==> rows[i].name == m;
      assert Known(rows, m);
      var j :| 0 <= j < |rows| && rows[j].name == m && rows[j].active;
      assert later[j].active;
    }
  }

  /** What recording a skill and, on the way, its dependencies leaves. */
  ghost predicate Kept(rows: Rows, later: Rows) {
    History(later) && Extends(rows, later) && forall m :: Led(rows, m) ==> Led(later, m)
  }

  lemma {:induction false} KeptTransitive(a: Rows, b: Rows, c: Rows)
    requires Kept(a, b) && Kept(b, c)
    ensures Kept(a, c)
  {
    ExtendsTransitive(a, b, c);
  }

  lemma {:induction false} GetKeeps(w: World, rows: Rows, name: string, activate: Option<bool>)
    requires Acyclic(w) && History(rows) && Get(w, rows, name, activate).Success?
    ensures var (later, id) := Get(w, rows, name, activate).value;
            && History(later) && Extends(rows, later) && id < |later| && later[id].name == name
            && (forall m :: Led(rows, m) && (m != name || activate != Some(false) || Known(rows, m)) ==> Led(later, m))
    decreases w.rank(name), 1, 0
  {
    PinsKeep(w, rows, name, Declared(w, name));
    var (rows1, pins) := Pins(w, rows, name, Declared(w, name)).value;
    if Candidate(rows1, name, w.skills[name].contentHash, pins).None? {
      CreationKeeps(w, rows1, name, pins, activate);
      var (later, id) := Created(w, rows1, name, pins, activate).value;
      ExtendsTransitive(rows, rows1, later);
      forall m | Led(rows, m) && (m != name || activate != Some(false) || Known(rows, m))
        ensures Led(later, m)
      {
        if i :| 0 <= i < |rows| && rows[i].name == m {
          assert rows1[i].name == m;
        }
      }
    }
  }

  lemma {:induction false} PinsKeep(w: World, rows: Rows, name: string, dependencies: seq<Dependency>)
    requires Acyclic(w) && History(rows) && forall d :: d in dependencies ==> Below(w, d, name)
    requires Pins(w, rows, name, dependencies).Success?
    ensures Kept(rows, Pins(w, rows, name, dependencies).value.0)
    decreases w.rank(name), 0, |dependencies|
  {
    if dependencies != [] {
      var n := |dependencies| - 1;
      PinsKeep(w, rows, name, dependencies[..n]);
      var rows1 := Pins(w, rows, name, dependencies[..n]).value.0;
      var d := dependencies[n];
      assert d in dependencies && Below(w, d, name);
      if Needed(d) && Lookup(rows1, d.name.value, d.version).None? {
        GetKeeps(w, rows1, d.name.value, None);
        KeptTransitive(rows, rows1, Resolve(w, rows1, name, d).value.0);
      }
    }
  }

  // ---- Sequences of calls ----

  datatype Call = GetOrCreate(w: World, name: string, activate: Option<bool>) |
    SetActive(w: World, name: string, version: int)

  ghost predicate Sane(c: Call) {
    c.GetOrCreate? ==> Acyclic(c.w)
  }

  ghost function After(rows: Rows, c: Call): Rows
    requires Sane(c)
  {
    match c
    case GetOrCreate(w, name, activate) =>
      (match Get(w, rows, name, activate) case Success((later, _)) => later case Failure(_) => rows)
    case SetActive(w, name, version) =>
      match Activated(w, rows, name, version) case Success((later, _)) => later case Failure(_) => rows
  }

  ghost predicate SaneCalls(calls: seq<Call>) {
    forall c :: c in calls ==> Sane(c)
  }

  ghost function Table(calls: seq<Call>): Rows
    requires SaneCalls(calls)
  {
    if calls == [] then [] else After(Table(calls[..|calls| - 1]), calls[|calls| - 1])
  }

  lemma {:induction false} ActivateOne(rows: Rows, id: Id)
    requires History(rows) && id < |rows| && !HasActive(rows, rows[id].name)
    ensures History(rows[id := rows[id].(active := true)]) && Extends(rows, rows[id := rows[id].(active := true)])
  {
    var later := rows[id := rows[id].(active := true)];
    forall i | 0 <= i < |later|
      ensures later[i].version == CountOf(later[..i], later[i].name) + 1
    {
      SameCounts(rows[..i], later[..i], rows[i].name);
    }
  }

  lemma {:induction false} ActivationKeeps(w: World, rows: Rows, name: string, version: int)
    requires History(rows) && Activated(w, rows, name, version).Success?
    ensures var (later, id) := Activated(w, rows, name, version).value;
            && History(later) && Extends(rows, later) && |later| == |rows|
            && (forall i :: 0 <= i < |later| && later[i].name == name ==> (later[i].active <==> i == id))
            && id < |later| && later[id].name == name && later[id].version == version
            && (forall m :: Led(rows, m) ==> Led(later, m))
  {
    var (later, id) := Activated(w, rows, name, version).value;
    var cleared := Deactivated(rows, name);
    ClearedKeeps(rows, name);
    ActivateOne(cleared, id);
    assert later == cleared[id := cleared[id].(active := true)];
    ExtendsTransitive(rows, cleared, later);
    forall m | Led(rows, m)
      ensures Led(later, m)
    {
      ActivationLeads(rows, later, name, id, m);
    }
  }

  lemma {:induction false} ActivationLeads(rows: Rows, later: Rows, name: string, id: Id, m: string)
    requires |later| == |rows| && id < |rows| && rows[id].name == name && Led(rows, m)
    requires later == Deactivated(rows, name)[id := rows[id].(active := true)]
    ensures Led(later, m)
  {
    if m == name {
      assert later[id].active && later[id].name == m;
    } else if Known(later, m) {
      var i :| 0 <= i < |later| && later[i].name == m;
      assert rows[i].name == m;
      var j :| 0 <= j < |rows| && rows[j].name == m && rows[j].active;
      assert later[j] == rows[j];
    }
  }

  /** `m` may be left without an active row only by a first recording as a draft. */
  predicate DraftsFirst(rows: Rows, c: Call, m: string) {
    c.GetOrCreate? && c.name == m && c.activate == Some(false) && !Known(rows, m)
  }

  lemma {:induction false} CallKeeps(rows: Rows, c: Call, m: string)
    requires Sane(c) && History(rows)
    ensures History(After(rows, c)) && Extends(rows, After(rows, c))
    ensures Led(rows, m) && !DraftsFirst(rows, c, m) ==> Led(After(rows, c), m)
  {
    match c {
      case GetOrCreate(w, name, activate) =>
        if Get(w, rows, name, activate).Success? {
          GetKeeps(w, rows, name, activate);
        }
      case SetActive(w, name, version) =>
        if Activated(w, rows, name, version).Success? {
          ActivationKeeps(w, rows, name, version);
        }
    }
  }

  /** After any calls: versions are numbered from one per skill, no skill has two active
      rows, and one never first recorded as a draft has exactly one. */
  lemma {:induction false} CallsKeepHistory(calls: seq<Call>, m: string)
    requires SaneCalls(calls)
    ensures History(Table(calls))
    ensures (forall k :: 0 <= k < |calls| ==> !DraftsFirst(Table(calls[..k]), calls[k], m)) ==> Led(Table(calls), m)
  {
    if calls != [] {
      var n := |calls| - 1;
      CallsKeepHistory(calls[..n], m);
      assert calls[n] in calls;
      CallKeeps(Table(calls[..n]), calls[n], m);
      assert forall k :: 0 <= k < n ==> calls[..n][..k] == calls[..k];
    }
  }

  lemma {:induction false} LastCall(calls: seq<Call>)
    requires SaneCalls(calls) && calls != []
    ensures var n := |calls| - 1;
            SaneCalls(calls[..n]) && Extends(Table(calls[..n]), Table(calls))
  {
    var n := |calls| - 1;
    CallsKeepHistory(calls[..n], "");
    assert calls[n] in calls;
    CallKeeps(Table(calls[..n]), calls[n], "");
  }

  /** No call changes anything but active flags in the rows that are there. */
  lemma {:induction false} CallsOnlyExtend(calls: seq<Call>, k: nat)
    requires SaneCalls(calls) && k <= |calls|
    ensures SaneCalls(calls[..k]) && Extends(Table(calls[..k]), Table(calls))
    decreases |calls|
  {
    if k == |calls| {
      assert calls[..k] == calls;
    } else {
      LastCall(calls);
      var front := calls[..|calls| - 1];
      CallsOnlyExtend(front, k);
      assert front[..k] == calls[..k];
      ExtendsTransitive(Table(calls[..k]), Table(front), Table(calls));
    }
  }
}
