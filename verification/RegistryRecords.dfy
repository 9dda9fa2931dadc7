/** What the row that a recording returns holds: the files on disk, and its dependencies. */
module RegistryRecords {
  import opened Results
  import opened Snapshots
  import opened Registry
  import opened RegistryRepeat

  predicate Named(d: Dependency, name: string) {
    d.name == Some(name) && name != ""
  }

  /** Dependency `k` is the last one of its name. */
  ghost predicate LastNamed(dependencies: seq<Dependency>, k: nat, name: string) {
    && k < |dependencies| && Named(dependencies[k], name)
    && forall m :: k < m < |dependencies| ==> !Named(dependencies[m], name)
  }

  /** The row a dependency asks for: of the version, or else the active one. */
  predicate Asked(row: Row, d: Dependency) {
    Some(row.name) == d.name && if d.version.Exactly? then row.version == d.version.number else row.active
  }

  /** `pins` has the needed names, each with a row of that name in `later`; where `rows`
      had the row that was asked for, it is that row. */
  ghost predicate PinsHold(rows: Rows, later: Rows, dependencies: seq<Dependency>, pins: map<string, Id>) {
    && (forall n :: n in pins <==> exists d :: d in dependencies && Named(d, n))
    && (forall n :: n in pins ==> pins[n] < |later| && later[pins[n]].name == n)
    && (forall k: nat, n :: LastNamed(dependencies, k, n) && n in pins && IsThere(rows, dependencies[k]) ==>
          pins[n] < |rows| && Asked(rows[pins[n]], dependencies[k]))
  }

  ghost predicate IsThere(rows: Rows, d: Dependency) {
    exists row :: row in rows && Asked(row, d)
  }

  lemma {:induction false} OneMoreName(dependencies: seq<Dependency>, d: Dependency, n: string)
    ensures (exists e :: e in dependencies + [d] && Named(e, n)) <==>
              (exists e :: e in dependencies && Named(e, n)) || Named(d, n)
  {
    assert forall e :: e in dependencies + [d] <==> e in dependencies || e == d;
  }

  lemma {:induction false} LastOfMore(dependencies: seq<Dependency>, d: Dependency, k: nat, n: string)
    requires LastNamed(dependencies + [d], k, n)
    ensures if Named(d, n) then k == |dependencies| else LastNamed(dependencies, k, n)
  {
    var all := dependencies + [d];
    assert all[|dependencies|] == d;
    forall m | k < m < |dependencies|
      ensures !Named(dependencies[m], n)
    {
      assert all[m] == dependencies[m];
    }
  }

  /** Another needed dependency, pinned to row `i` of a table that has only grown. */
  lemma {:induction false} OneMorePin(rows: Rows, before: Rows, later: Rows, dependencies: seq<Dependency>,
      d: Dependency, pins: map<string, Id>, i: Id)
    requires rows <= before <= later && PinsHold(rows, before, dependencies, pins)
    requires Needed(d) && i < |later| && later[i].name == d.name.value
    requires IsThere(rows, d) ==> i < |rows| && Asked(rows[i], d)
    ensures PinsHold(rows, later, dependencies + [d], pins[d.name.value := i])
  {
    var all, more := dependencies + [d], pins[d.name.value := i];
    forall n
      ensures n in more <==> exists e :: e in all && Named(e, n)
    {
      OneMoreName(dependencies, d, n);
    }
    forall k: nat, n | LastNamed(all, k, n) && n in more && IsThere(rows, all[k])
      ensures more[n] < |rows| && Asked(rows[more[n]], all[k])
    {
      LastOfMore(dependencies, d, k, n);
      if !Named(d, n) {
        assert all[k] == dependencies[k];
      }
    }
  }

  lemma {:induction false} UnneededPin(rows: Rows, later: Rows, dependencies: seq<Dependency>, d: Dependency,
      pins: map<string, Id>)
    requires PinsHold(rows, later, dependencies, pins) && !Needed(d)
    ensures PinsHold(rows, later, dependencies + [d], pins)
  {
    var all := dependencies + [d];
    forall n
      ensures n in pins <==> exists e :: e in all && Named(e, n)
    {
      OneMoreName(dependencies, d, n);
    }
    forall k: nat, n | LastNamed(all, k, n) && n in pins && IsThere(rows, all[k])
      ensures pins[n] < |rows| && Asked(rows[pins[n]], all[k])
    {
      LastOfMore(dependencies, d, k, n);
      assert all[k] == dependencies[k];
    }
  }

  lemma {:induction false} ResolvedIsAsked(w: World, rows: Rows, before: Rows, name: string, d: Dependency)
    requires Acyclic(w) && Needed(d) && Below(w, d, name) && Resolve(w, before, name, d).Success? && rows <= before
    ensures var (later, i) := Resolve(w, before, name, d).value;
            && before <= later && i < |later| && later[i].name == d.name.value
            && (IsThere(rows, d) ==> i < |rows| && Asked(rows[i], d))
  {
    var (later, i) := Resolve(w, before, name, d).value;
    if IsThere(rows, d) {
      var row :| row in rows && Asked(row, d);
      var j :| 0 <= j < |rows| && rows[j] == row;
      assert Fits(before[j], d.name.value, d.version);
      assert before[..|rows|] == rows;
      assert i <= j && before[i] == rows[i];
    }
    if Lookup(before, d.name.value, d.version).None? {
      GetAppends(w, before, d.name.value);
      GetIsNamed(w, before, d.name.value);
    }
  }

  lemma {:induction false} GetIsNamed(w: World, rows: Rows, name: string)
    requires Acyclic(w) && Get(w, rows, name, None).Success?
    ensures var (later, id) := Get(w, rows, name, None).value;
            id < |later| && later[id].name == name
  {
    GetAppends(w, rows, name);
  }

  lemma {:induction false} PinsAreHeld(w: World, rows: Rows, name: string, dependencies: seq<Dependency>)
    requires Acyclic(w) && BelowAll(w, dependencies, name) && Pins(w, rows, name, dependencies).Success?
    ensures var (later, pins) := Pins(w, rows, name, dependencies).value;
            rows <= later && PinsHold(rows, later, dependencies, pins)
    decreases |dependencies|
  {
    PinsAppend(w, rows, name, dependencies);
    if dependencies != [] {
      var n := |dependencies| - 1;
      var front, d := dependencies[..n], dependencies[n];
      assert dependencies == front + [d];
      PinsAreHeld(w, rows, name, front);
      var (before, pins) := Pins(w, rows, name, front).value;
      assert d in dependencies && Below(w, d, name);
      if Needed(d) {
        ResolvedIsAsked(w, rows, before, name, d);
        var (later, i) := Resolve(w, before, name, d).value;
        OneMorePin(rows, before, later, front, d, pins, i);
      } else {
        UnneededPin(rows, before, front, d, pins);
      }
    }
  }

  // ---- The row returned ----

  /** A row with the files on disk and these pins. */
  ghost predicate HasRecord(w: World, rows: Rows, name: string, pins: map<string, Id>)
    requires name in w.skills
  {
    exists j :: 0 <= j < |rows| && rows[j].name == name && rows[j].contentHash == w.skills[name].contentHash
                && rows[j].pins == pins
  }

  /** A row of the name that was not there before. */
  ghost predicate Adds(rows: Rows, later: Rows, name: string) {
    exists j :: |rows| <= j < |later| && later[j].name == name
  }

  lemma {:induction false} SameRecords(w: World, rows: Rows, more: Rows, name: string, pins: map<string, Id>)
    requires name in w.skills && rows <= more
    requires forall j :: |rows| <= j < |more| ==> more[j].name != name
    ensures HasRecord(w, rows, name, pins) <==> HasRecord(w, more, name, pins)
  {
    if HasRecord(w, more, name, pins) {
      var j :| 0 <= j < |more| && more[j].name == name && more[j].contentHash == w.skills[name].contentHash
               && more[j].pins == pins;
      assert rows[j] == more[j];
    }
    if HasRecord(w, rows, name, pins) {
      var j :| 0 <= j < |rows| && rows[j].name == name && rows[j].contentHash == w.skills[name].contentHash
               && rows[j].pins == pins;
      assert rows[j] == more[j];
    }
  }

  /** The row that is found or created, once the dependencies are pinned. */
  lemma {:induction false} FoundOrCreated(w: World, before: Rows, name: string, pins: map<string, Id>,
      activate: Option<bool>)
    requires name in w.skills
    requires Candidate(before, name, w.skills[name].contentHash, pins).None? ==>
               Created(w, before, name, pins, activate).Success?
    ensures var found := Candidate(before, name, w.skills[name].contentHash, pins);
            var (later, id) :=
              if found.Some? then (before, found.value) else Created(w, before, name, pins, activate).value;
            && id < |later| && later[id].name == name && later[id].contentHash == w.skills[name].contentHash
            && later[id].pins == pins && |before| <= |later|
            && (forall j :: 0 <= j < |before| ==> later[j].name == before[j].name)
            && (if HasRecord(w, before, name, pins) then later == before
                else |later| == |before| + 1 && id == |before|
                     && (later[id].active <==> activate == Some(true) || (activate == None && !Known(before, name))))
  {
    var found := Candidate(before, name, w.skills[name].contentHash, pins);
    if HasRecord(w, before, name, pins) {
      var j :| 0 <= j < |before| && before[j].name == name && before[j].contentHash == w.skills[name].contentHash
               && before[j].pins == pins;
      assert Records(before[j], name, w.skills[name].contentHash, pins);
    }
    if found.Some? {
      assert before[found.value].contentHash == w.skills[name].contentHash;
      assert HasRecord(w, before, name, pins);
    }
  }

  lemma {:induction false} SameKnown(rows: Rows, more: Rows, name: string)
    requires rows <= more && forall j :: |rows| <= j < |more| ==> more[j].name != name
    ensures Known(rows, name) <==> Known(more, name)
  {
    if j :| 0 <= j < |more| && more[j].name == name {
      assert rows[j] == more[j];
    }
    if j :| 0 <= j < |rows| && rows[j].name == name {
      assert rows[j] == more[j];
    }
  }

  /** Recording a skill returns a row with the hash of the files on disk and a pin for each
      declared dependency.  A row is added for the skill if and only if there was none with
      that hash and those pins, and is active if it was asked to be, or is the first. */
  lemma {:induction false} GetRecords(w: World, rows: Rows, name: string, activate: Option<bool>)
    requires Acyclic(w) && Get(w, rows, name, activate).Success?
    ensures name in w.skills
    ensures var (later, id) := Get(w, rows, name, activate).value;
            && id < |later| && later[id].name == name && later[id].contentHash == w.skills[name].contentHash
            && PinsHold(rows, later, Declared(w, name), later[id].pins)
            && (Adds(rows, later, name) <==> !HasRecord(w, rows, name, later[id].pins))
            && (Adds(rows, later, name) ==>
                  (later[id].active <==> activate == Some(true) || (activate == None && !Known(rows, name))))
            && (!Adds(rows, later, name) ==> rows <= later)
  {
    var dependencies := Declared(w, name);
    PinsAreHeld(w, rows, name, dependencies);
    PinsAppend(w, rows, name, dependencies);
    var (before, pins) := Pins(w, rows, name, dependencies).value;
    SameRecords(w, rows, before, name, pins);
    SameKnown(rows, before, name);
    FoundOrCreated(w, before, name, pins, activate);
    var (later, id) := Get(w, rows, name, activate).value;
    LaterPinsHold(rows, before, later, dependencies, pins);
  }

  lemma {:induction false} LaterPinsHold(rows: Rows, before: Rows, later: Rows, dependencies: seq<Dependency>,
      pins: map<string, Id>)
    requires PinsHold(rows, before, dependencies, pins) && |before| <= |later|
    requires forall j :: 0 <= j < |before| ==> later[j].name == before[j].name
    ensures PinsHold(rows, later, dependencies, pins)
  {
  }
}
