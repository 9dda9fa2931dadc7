/** The skill registry: versions, the active pointer, and recording what is on disk. */
module Registry {
  import opened Results
  import opened Snapshots

  /** `pins` are the rows the dependencies stood for when the row was created. */
  datatype Row = Row(name: string, version: int, contentHash: string, pins: map<string, Id>, active: bool)

  type Rows = seq<Row>

  /** A skill's files: the hash of their bytes, and the manifest's dependencies. */
  datatype Skill = Skill(contentHash: string, dependencies: Dependencies)

  /** The skills on disk; a rank that falls along dependencies; and what the contract
      check and the execution hash accept. */
  datatype World = World(skills: map<string, Skill>, rank: string -> nat, valid: (Rows, Row) -> bool)

  predicate Needed(d: Dependency) {
    d.name.Some? && d.name.value != ""
  }

  function Declared(w: World, name: string): seq<Dependency> {
    if name in w.skills && w.skills[name].dependencies.Listed? then w.skills[name].dependencies.list else []
  }

  predicate Below(w: World, d: Dependency, name: string) {
    Needed(d) && d.name.value in w.skills ==> w.rank(d.name.value) < w.rank(name)
  }

  /** The dependencies on disk have no cycle. */
  ghost predicate Acyclic(w: World) {
    forall name, d :: d in Declared(w, name) ==> Below(w, d, name)
  }

  // ---- Reading the table ----

  predicate Fits(row: Row, name: string, version: Version) {
    row.name == name && if version.Exactly? then row.version == version.number else row.active
  }

  /** The row of the asked version, or the active row. */
  function Lookup(rows: Rows, name: string, version: Version): (found: Option<Id>)
    ensures found.Some? ==> found.value < |rows| && Fits(rows[found.value], name, version)
    ensures found.Some? ==> forall j :: 0 <= j < found.value ==> !Fits(rows[j], name, version)
    ensures found.None? ==> forall j :: 0 <= j < |rows| ==> !Fits(rows[j], name, version)
  {
    if rows == [] then None else
      var n := |rows| - 1;
      var front := Lookup(rows[..n], name, version);
      if front.Some? then front else if Fits(rows[n], name, version) then Some(n) else None
  }

  predicate Records(row: Row, name: string, contentHash: string, pins: map<string, Id>) {
    row.name == name && row.contentHash == contentHash && row.pins == pins
  }

  /** The newest row of this content with these pins. */
  function Candidate(rows: Rows, name: string, contentHash: string, pins: map<string, Id>): (found: Option<Id>)
    ensures found.Some? ==> found.value < |rows| && Records(rows[found.value], name, contentHash, pins)
    ensures found.Some? ==> forall j :: found.value < j < |rows| ==> !Records(rows[j], name, contentHash, pins)
    ensures found.None? ==> forall j :: 0 <= j < |rows| ==> !Records(rows[j], name, contentHash, pins)
  {
    if rows == [] then None else
      var n := |rows| - 1;
      if Records(rows[n], name, contentHash, pins) then Some(n) else Candidate(rows[..n], name, contentHash, pins)
  }

  /** The largest version of the name, or zero. */
  function MaxVersion(rows: Rows, name: string): (max: int)
    ensures forall i :: 0 <= i < |rows| && rows[i].name == name ==> rows[i].version <= max
  {
    if rows == [] then 0 else
      var n := |rows| - 1;
      var front := MaxVersion(rows[..n], name);
      if rows[n].name == name && rows[n].version > front then rows[n].version else front
  }

  predicate Known(rows: Rows, name: string) {
    exists i :: 0 <= i < |rows| && rows[i].name == name
  }

  function Deactivated(rows: Rows, name: string): (r: Rows)
    ensures |r| == |rows|
    ensures forall i :: 0 <= i < |rows| ==> r[i] == if rows[i].name == name then rows[i].(active := false) else rows[i]
  {
    seq(|rows|, i requires 0 <= i < |rows| => if rows[i].name == name then rows[i].(active := false) else rows[i])
  }

  // ---- Recording what is on disk ----

  function Created(w: World, rows: Rows, name: string, pins: map<string, Id>, activate: Option<bool>)
    : Result<(Rows, Id)>
    requires name in w.skills
  {
    var activates := match activate case Some(b) => b case None => !Known(rows, name);
    var cleared := if activates then Deactivated(rows, name) else rows;
    var row := Row(name, MaxVersion(rows, name) + 1, w.skills[name].contentHash, pins, activates);
    if w.valid(cleared, row) then Success((cleared + [row], |rows|)) else Failure(Rejected)
  }

  /** `get_or_create_snapshot`: the table afterwards and the row. */
  function Get(w: World, rows: Rows, name: string, activate: Option<bool>): Result<(Rows, Id)>
    requires Acyclic(w)
    decreases w.rank(name), 1, 0
  {
    if name !in w.skills || w.skills[name].dependencies.Null? then Failure(Rejected) else
      match Pins(w, rows, name, Declared(w, name))
      case Failure(e) => Failure(e)
      case Success((rows1, pins)) =>
        match Candidate(rows1, name, w.skills[name].contentHash, pins)
        case Some(i) => Success((rows1, i))
        case None => Created(w, rows1, name, pins, activate)
  }

  function Pins(w: World, rows: Rows, name: string, dependencies: seq<Dependency>): Result<(Rows, map<string, Id>)>
    requires Acyclic(w) && forall d :: d in dependencies ==> Below(w, d, name)
    decreases w.rank(name), 0, |dependencies|
  {
    if dependencies == [] then Success((rows, map[])) else
      var n := |dependencies| - 1;
      match Pins(w, rows, name, dependencies[..n])
      case Failure(e) => Failure(e)
      case Success((rows1, pins)) =>
        if !Needed(dependencies[n]) then Success((rows1, pins)) else
          match Resolve(w, rows1, name, dependencies[n])
          case Failure(e) => Failure(e)
          case Success((rows2, i)) => Success((rows2, pins[dependencies[n].name.value := i]))
  }

  /** The row a dependency stands for now, recorded first if there is none. */
  function Resolve(w: World, rows: Rows, name: string, d: Dependency): Result<(Rows, Id)>
    requires Acyclic(w) && Needed(d) && Below(w, d, name)
    decreases w.rank(name), 0, 0
  {
    if d.version.Malformed? then Failure(Rejected) else
      match Lookup(rows, d.name.value, d.version)
      case Some(i) => Success((rows, i))
      case None => if d.name.value in w.skills then Get(w, rows, d.name.value, None) else Failure(Rejected)
  }

  function Activated(w: World, rows: Rows, name: string, version: int): Result<(Rows, Id)> {
    match Lookup(rows, name, Exactly(version))
    case None => Failure(Rejected)
    case Some(i) =>
      if w.valid(rows, rows[i]) then Success((Deactivated(rows, name)[i := rows[i].(active := true)], i))
      else Failure(Rejected)
  }

  lemma {:induction false} NextPin(w: World, rows: Rows, name: string, dependencies: seq<Dependency>, n: nat)
    requires Acyclic(w) && (forall d :: d in dependencies ==> Below(w, d, name)) && n < |dependencies|
    ensures Pins(w, rows, name, dependencies[..n]).Failure? ==> Pins(w, rows, name, dependencies[..n + 1]).Failure?
    ensures var d := dependencies[n];
            match Pins(w, rows, name, dependencies[..n])
            case Failure(_) => true
            case Success((rows1, pins)) =>
              var longer := Pins(w, rows, name, dependencies[..n + 1]);
              if !Needed(d) then longer == Success((rows1, pins)) else
                match Resolve(w, rows1, name, d)
                case Failure(_) => longer.Failure?
                case Success((rows2, i)) => longer == Success((rows2, pins[d.name.value := i]))
  {
    assert dependencies[..n + 1][..n] == dependencies[..n];
  }

  lemma {:induction false} FailedPins(w: World, rows: Rows, name: string, dependencies: seq<Dependency>, n: nat)
    requires Acyclic(w) && (forall d :: d in dependencies ==> Below(w, d, name)) && n <= |dependencies|
    requires Pins(w, rows, name, dependencies[..n]).Failure?
    ensures Pins(w, rows, name, dependencies).Failure?
    decreases |dependencies| - n
  {
    if n < |dependencies| {
      NextPin(w, rows, name, dependencies, n);
      FailedPins(w, rows, name, dependencies, n + 1);
    } else {
      assert dependencies[..n] == dependencies;
    }
  }

  // ---- The registry as the API changes it ----

  class SkillRegistry {
    var rows: Rows

    constructor ()
      ensures rows == []
    {
      rows := [];
    }

    method Record(w: World, name: string, activate: Option<bool>) returns (id: Result<Id>)
      requires Acyclic(w)
      modifies this
      ensures id.Success? <==> Get(w, old(rows), name, activate).Success?
      ensures id.Success? ==> Get(w, old(rows), name, activate).value == (rows, id.value)
      decreases w.rank(name), 1
    {
      if name !in w.skills || w.skills[name].dependencies.Null? {
        return Failure(Rejected);
      }
      var pins := PinDependencies(w, name);
      if pins.Failure? {
        return Failure(Rejected);
      }
      var found := Candidate(rows, name, w.skills[name].contentHash, pins.value);
      if found.Some? {
        return Success(found.value);
      }
      var activates := match activate case Some(b) => b case None => !Known(rows, name);
      var row := Row(name, MaxVersion(rows, name) + 1, w.skills[name].contentHash, pins.value, activates);
      if activates {
        rows := Deactivated(rows, name);
      }
      if !w.valid(rows, row) {
        return Failure(Rejected);
      }
      rows := rows + [row];
      return Success(|rows| - 1);
    }

    method PinDependencies(w: World, name: string) returns (pinned: Result<map<string, Id>>)
      requires Acyclic(w)
      modifies this
      ensures pinned.Success? <==> Pins(w, old(rows), name, Declared(w, name)).Success?
      ensures pinned.Success? ==> Pins(w, old(rows), name, Declared(w, name)).value == (rows, pinned.value)
      decreases w.rank(name), 0
    {
      var dependencies := Declared(w, name);
      var pins: map<string, Id> := map[];
      for n := 0 to |dependencies|
        invariant Pins(w, old(rows), name, dependencies[..n]) == Success((rows, pins))
      {
        var d := dependencies[n];
        NextPin(w, old(rows), name, dependencies, n);
        if Needed(d) {
          assert d in Declared(w, name) && Below(w, d, name);
          var id := ResolveDependency(w, name, d);
          if id.Failure? {
            FailedPins(w, old(rows), name, dependencies, n + 1);
            return Failure(Rejected);
          }
          pins := pins[d.name.value := id.value];
        }
      }
      assert dependencies[..|dependencies|] == dependencies;
      return Success(pins);
    }

    method ResolveDependency(w: World, ghost name: string, d: Dependency) returns (id: Result<Id>)
      requires Acyclic(w) && Needed(d) && Below(w, d, name)
      modifies this
      ensures id.Success? <==> Resolve(w, old(rows), name, d).Success?
      ensures id.Success? ==> Resolve(w, old(rows), name, d).value == (rows, id.value)
      decreases w.rank(name), 0, 0
    {
      if d.version.Malformed? {
        return Failure(Rejected);
      }
      var found := Lookup(rows, d.name.value, d.version);
      if found.Some? {
        return Success(found.value);
      }
      if d.name.value !in w.skills {
        return Failure(Rejected);
      }
      id := Record(w, d.name.value, None);
    }

    /** A call that fails is rolled back. */
    method GetOrCreateSnapshot(w: World, name: string, activate: Option<bool>) returns (id: Result<Id>)
      requires Acyclic(w)
      modifies this
      ensures id.Success? <==> Get(w, old(rows), name, activate).Success?
      ensures id.Success? ==> Get(w, old(rows), name, activate).value == (rows, id.value)
      ensures id.Failure? ==> rows == old(rows)
    {
      var before := rows;
      id := Record(w, name, activate);
      if id.Failure? {
        rows := before;
      }
    }

    method SetActiveSnapshot(w: World, name: string, version: int) returns (id: Result<Id>)
      modifies this
      ensures id.Success? <==> Activated(w, old(rows), name, version).Success?
      ensures id.Success? ==> Activated(w, old(rows), name, version).value == (rows, id.value)
      ensures id.Failure? ==> rows == old(rows)
    {
      var found := Lookup(rows, name, Exactly(version));
      if found.None? || !w.valid(rows, rows[found.value]) {
        return Failure(Rejected);
      }
      var target := rows[found.value];
      rows := Deactivated(rows, name);
      rows := rows[found.value := target.(active := true)];
      return Success(found.value);
    }

    /** The snapshot a new job is stamped with: the active one, whatever is on disk. */
    method ResolveActiveSnapshot(w: World, name: string) returns (id: Result<Id>)
      requires Acyclic(w)
      modifies this
      ensures id.Success? ==> Get(w, old(rows), name, None).Success? && rows == Get(w, old(rows), name, None).value.0
      ensures id.Success? ==> id.value < |rows| && rows[id.value].name == name && rows[id.value].active
      ensures id.Failure? ==> rows == old(rows)
    {
      var before := rows;
      var recorded := Record(w, name, None);
      if recorded.Failure? {
        rows := before;
        return Failure(Rejected);
      }
      var active := Lookup(rows, name, Unpinned);
      if active.None? {
        rows := before;
        return Failure(Rejected);
      }
      return Success(active.value);
    }
  }
}
