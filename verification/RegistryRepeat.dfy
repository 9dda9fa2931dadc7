/** Recording unchanged files again changes nothing and finds the same row. */
module RegistryRepeat {
  import opened Results
  import opened Snapshots
  import opened Registry

  /** Recording `name` would change nothing and find row `id`. */
  ghost predicate Settled(w: World, rows: Rows, name: string, id: Id)
    requires Acyclic(w)
  {
    Get(w, rows, name, None) == Success((rows, id))
  }

  ghost predicate BelowAll(w: World, dependencies: seq<Dependency>, name: string) {
    forall d :: d in dependencies ==> Below(w, d, name)
  }

  /** The dependencies resolve to `pins` without any change. */
  ghost predicate Pinned(w: World, rows: Rows, name: string, dependencies: seq<Dependency>, pins: map<string, Id>)
    requires Acyclic(w) && BelowAll(w, dependencies, name)
  {
    Pins(w, rows, name, dependencies) == Success((rows, pins))
  }

  // ---- Rows are only appended ----

  /** What is appended on the way is on disk and below `name`, but for the row asked for. */
  lemma {:induction false} GetAppends(w: World, rows: Rows, name: string)
    requires Acyclic(w) && Get(w, rows, name, None).Success?
    ensures var (later, id) := Get(w, rows, name, None).value;
            && rows <= later && id < |later|
            && forall j :: |rows| <= j < |later| ==>
                 later[j].name in w.skills && (j == id || w.rank(later[j].name) < w.rank(name))
    decreases w.rank(name), 1, 0
  {
    PinsAppend(w, rows, name, Declared(w, name));
    var (rows1, pins) := Pins(w, rows, name, Declared(w, name)).value;
    if !Known(rows1, name) {
      assert Deactivated(rows1, name) == rows1;
    }
  }

  lemma {:induction false} PinsAppend(w: World, rows: Rows, name: string, dependencies: seq<Dependency>)
    requires Acyclic(w) && BelowAll(w, dependencies, name) && Pins(w, rows, name, dependencies).Success?
    ensures var later := Pins(w, rows, name, dependencies).value.0;
            && rows <= later
            && forall j :: |rows| <= j < |later| ==> later[j].name in w.skills && w.rank(later[j].name) < w.rank(name)
    decreases w.rank(name), 0, |dependencies|
  {
    if dependencies != [] {
      var n := |dependencies| - 1;
      PinsAppend(w, rows, name, dependencies[..n]);
      var rows1, d := Pins(w, rows, name, dependencies[..n]).value.0, dependencies[n];
      assert d in dependencies && Below(w, d, name);
      if Needed(d) && Lookup(rows1, d.name.value, d.version).None? {
        GetAppends(w, rows1, d.name.value);
      }
    }
  }

  /** If the whole list changes nothing, no part of it does. */
  lemma {:induction false} PinnedFront(w: World, rows: Rows, name: string, dependencies: seq<Dependency>,
      pins: map<string, Id>) returns (front: map<string, Id>)
    requires Acyclic(w) && BelowAll(w, dependencies, name) && Pinned(w, rows, name, dependencies, pins)
    requires dependencies != []
    ensures var n, d := |dependencies| - 1, dependencies[|dependencies| - 1];
            && BelowAll(w, dependencies[..n], name) && Pinned(w, rows, name, dependencies[..n], front)
            && (!Needed(d) ==> pins == front)
            && (Needed(d) ==> exists i ::
                  Resolve(w, rows, name, d) == Success((rows, i)) && pins == front[d.name.value := i])
  {
    var n, d := |dependencies| - 1, dependencies[|dependencies| - 1];
    PinsAppend(w, rows, name, dependencies[..n]);
    var rows1 := Pins(w, rows, name, dependencies[..n]).value.0;
    front := Pins(w, rows, name, dependencies[..n]).value.1;
    if Needed(d) {
      assert d in dependencies && Below(w, d, name);
      assert Resolve(w, rows1, name, d).Success? && Resolve(w, rows1, name, d).value.0 == rows;
      if Lookup(rows1, d.name.value, d.version).None? {
        GetAppends(w, rows1, d.name.value);
      }
      assert rows1 == rows;
      assert Resolve(w, rows, name, d) == Success((rows, Resolve(w, rows, name, d).value.1));
    }
  }

  // ---- Changes that do not show below a rank ----

  /** Up to rank `r`, the rows stay, and only unsettled skills get a new row. */
  ghost predicate Keeps(w: World, rows: Rows, later: Rows, r: int)
    requires Acyclic(w)
  {
    && |rows| <= |later|
    && (forall i :: 0 <= i < |rows| ==> later[i].name == rows[i].name)
    && (forall i :: 0 <= i < |rows| && (rows[i].name in w.skills ==> w.rank(rows[i].name) <= r) ==> later[i] == rows[i])
    && (forall i :: |rows| <= i < |later| ==> later[i].name in w.skills)
    && (forall i, id :: |rows| <= i < |later| && w.rank(later[i].name) <= r ==> !Settled(w, rows, later[i].name, id))
  }

  lemma {:induction false} SettledHasNoNewRow(w: World, rows: Rows, later: Rows, r: int, name: string, id: Id)
    requires Acyclic(w) && Keeps(w, rows, later, r) && w.rank(name) <= r && Settled(w, rows, name, id)
    ensures forall i :: |rows| <= i < |later| ==> later[i].name != name
  {
  }

  lemma {:induction false} FoundAmongNew(rows: Rows, later: Rows, name: string, version: Version)
    requires rows <= later && Lookup(rows, name, version).None?
    ensures Lookup(later, name, version).Some? ==> Lookup(later, name, version).value >= |rows|
  {
    assert forall i :: 0 <= i < |rows| ==> later[i] == rows[i];
  }

  lemma {:induction false} SameLookup(w: World, rows: Rows, later: Rows, r: int, name: string, version: Version, id: Id)
    requires Acyclic(w) && Keeps(w, rows, later, r) && (name in w.skills ==> w.rank(name) <= r)
    requires Lookup(rows, name, version) == Some(id) ||
               (Lookup(rows, name, version).None? && name in w.skills && Settled(w, rows, name, id))
    ensures Lookup(later, name, version) == Lookup(rows, name, version)
  {
    forall i | 0 <= i < |rows|
      ensures Fits(later[i], name, version) <==> Fits(rows[i], name, version)
    {
      assert rows[i].name == name ==> later[i] == rows[i];
    }
    if Lookup(rows, name, version).None? {
      SettledHasNoNewRow(w, rows, later, r, name, id);
    }
  }

  lemma {:induction false} KeptSettled(w: World, rows: Rows, later: Rows, r: int, name: string, id: Id)
    requires Acyclic(w) && Keeps(w, rows, later, r) && w.rank(name) <= r && Settled(w, rows, name, id)
    ensures Settled(w, later, name, id)
    decreases w.rank(name), 1, 0
  {
    var dependencies := Declared(w, name);
    PinsAppend(w, rows, name, dependencies);
    var (rows1, pins) := Pins(w, rows, name, dependencies).value;
    GetAppends(w, rows, name);
    assert rows1 == rows;
    KeptPinned(w, rows, later, r, name, dependencies, pins);
    SettledHasNoNewRow(w, rows, later, r, name, id);
  }

  lemma {:induction false} KeptPinned(w: World, rows: Rows, later: Rows, r: int, name: string,
      dependencies: seq<Dependency>, pins: map<string, Id>)
    requires Acyclic(w) && Keeps(w, rows, later, r) && w.rank(name) <= r + 1
    requires BelowAll(w, dependencies, name) && Pinned(w, rows, name, dependencies, pins)
    ensures Pinned(w, later, name, dependencies, pins)
    decreases w.rank(name), 0, |dependencies|
  {
    if dependencies != [] {
      var n, d := |dependencies| - 1, dependencies[|dependencies| - 1];
      var front := PinnedFront(w, rows, name, dependencies, pins);
      KeptPinned(w, rows, later, r, name, dependencies[..n], front);
      if Needed(d) {
        var i :| Resolve(w, rows, name, d) == Success((rows, i)) && pins == front[d.name.value := i];
        assert d in dependencies && Below(w, d, name);
        KeptResolved(w, rows, later, r, name, d, i);
      }
    }
  }

  lemma {:induction false} KeptResolved(w: World, rows: Rows, later: Rows, r: int, name: string, d: Dependency, id: Id)
    requires Acyclic(w) && Keeps(w, rows, later, r) && w.rank(name) <= r + 1
    requires Needed(d) && Below(w, d, name) && Resolve(w, rows, name, d) == Success((rows, id))
    ensures Resolve(w, later, name, d) == Success((later, id))
    decreases w.rank(name), 0, 0
  {
    SameLookup(w, rows, later, r, d.name.value, d.version, id);
    if Lookup(rows, d.name.value, d.version).None? {
      KeptSettled(w, rows, later, r, d.name.value, id);
    }
  }

  // ---- Recording one skill unsettles no other ----

  /** What is settled stays so. */
  ghost predicate Preserves(w: World, rows: Rows, later: Rows)
    requires Acyclic(w)
  {
    && (forall name, id :: Settled(w, rows, name, id) ==> Settled(w, later, name, id))
    && (forall name, dependencies, pins ::
          BelowAll(w, dependencies, name) && Pinned(w, rows, name, dependencies, pins) ==>
          Pinned(w, later, name, dependencies, pins))
  }

  lemma {:induction false} NewRowPreserves(w: World, rows: Rows, row: Row)
    requires Acyclic(w) && row.name in w.skills && forall id :: !Settled(w, rows, row.name, id)
    ensures Preserves(w, rows, rows + [row])
  {
    var later := rows + [row];
    forall name, id | Settled(w, rows, name, id)
      ensures Settled(w, later, name, id)
    {
      KeptSettled(w, rows, later, w.rank(name), name, id);
    }
    forall name, dependencies, pins | BelowAll(w, dependencies, name) && Pinned(w, rows, name, dependencies, pins)
      ensures Pinned(w, later, name, dependencies, pins)
    {
      KeptPinned(w, rows, later, w.rank(name), name, dependencies, pins);
    }
  }

  lemma {:induction false} GetPreserves(w: World, rows: Rows, name: string)
    requires Acyclic(w) && Get(w, rows, name, None).Success?
    ensures var (later, id) := Get(w, rows, name, None).value;
            Preserves(w, rows, later) && Settled(w, later, name, id)
    decreases w.rank(name), 1, 0
  {
    var dependencies := Declared(w, name);
    PinsPreserve(w, rows, name, dependencies);
    var (rows1, pins) := Pins(w, rows, name, dependencies).value;
    var (later, id) := Get(w, rows, name, None).value;
    if Candidate(rows1, name, w.skills[name].contentHash, pins).None? {
      assert !Known(rows1, name) ==> Deactivated(rows1, name) == rows1;
      assert later == rows1 + [later[id]];
      assert forall other :: !Settled(w, rows1, name, other);
      NewRowPreserves(w, rows1, later[id]);
      assert Pinned(w, later, name, dependencies, pins);
      assert Candidate(later, name, w.skills[name].contentHash, pins) == Some(id);
    }
  }

  lemma {:induction false} PinsPreserve(w: World, rows: Rows, name: string, dependencies: seq<Dependency>)
    requires Acyclic(w) && BelowAll(w, dependencies, name) && Pins(w, rows, name, dependencies).Success?
    ensures var (later, pins) := Pins(w, rows, name, dependencies).value;
            Preserves(w, rows, later) && Pinned(w, later, name, dependencies, pins)
    decreases w.rank(name), 0, |dependencies|
  {
    if dependencies != [] {
      var n, d := |dependencies| - 1, dependencies[|dependencies| - 1];
      PinsPreserve(w, rows, name, dependencies[..n]);
      var (rows1, front) := Pins(w, rows, name, dependencies[..n]).value;
      if Needed(d) {
        assert d in dependencies && Below(w, d, name);
        ResolvePreserves(w, rows1, name, d);
        var (later, i) := Resolve(w, rows1, name, d).value;
        assert Pinned(w, later, name, dependencies[..n], front);
      }
    }
  }

  lemma {:induction false} ResolvePreserves(w: World, rows: Rows, name: string, d: Dependency)
    requires Acyclic(w) && Needed(d) && Below(w, d, name) && Resolve(w, rows, name, d).Success?
    ensures var (later, id) := Resolve(w, rows, name, d).value;
            Preserves(w, rows, later) && Resolve(w, later, name, d) == Success((later, id))
    decreases w.rank(name), 0, 0
  {
    if Lookup(rows, d.name.value, d.version).None? {
      GetPreserves(w, rows, d.name.value);
      GetAppends(w, rows, d.name.value);
      var (later, id) := Resolve(w, rows, name, d).value;
      FoundAmongNew(rows, later, d.name.value, d.version);
    }
  }

  /** Recording unchanged files again, whatever is asked about activation, finds the same
      row and changes nothing. */
  lemma {:induction false} RepeatFindsTheSame(w: World, rows: Rows, name: string, activate: Option<bool>,
      again: Option<bool>)
    requires Acyclic(w) && Get(w, rows, name, activate).Success?
    ensures var (later, id) := Get(w, rows, name, activate).value;
            Get(w, later, name, again) == Success((later, id))
  {
    var dependencies := Declared(w, name);
    PinsPreserve(w, rows, name, dependencies);
    var (rows1, pins) := Pins(w, rows, name, dependencies).value;
    var (later, id) := Get(w, rows, name, activate).value;
    if Candidate(rows1, name, w.skills[name].contentHash, pins).None? {
      assert Keeps(w, rows1, later, w.rank(name) - 1);
      KeptPinned(w, rows1, later, w.rank(name) - 1, name, dependencies, pins);
      assert Candidate(later, name, w.skills[name].contentHash, pins) == Some(id);
    }
  }

  /** Once a skill has an active row, what is on disk decides neither which row that is nor
      what it holds. */
  lemma {:induction false} EditsActivateNothing(w: World, rows: Rows, name: string)
    requires Acyclic(w) && Lookup(rows, name, Unpinned).Some? && Get(w, rows, name, None).Success?
    ensures var later := Get(w, rows, name, None).value.0;
            Lookup(later, name, Unpinned) == Lookup(rows, name, Unpinned) && rows <= later
  {
    GetAppends(w, rows, name);
  }
}
