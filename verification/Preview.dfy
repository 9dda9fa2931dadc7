/** The browser-safe preview of a report document: screenshots become numbers, and the
    private list says which object each number stands for. */
module Preview {
  import opened Results

  /** Where the bytes are; never part of the payload. */
  datatype Screenshot = Screenshot(bucket: string, objectKey: string, filename: string)

  /** `Text` is any block that holds no other; a group holds its slots in the order in
      which they are turned into JSON; `Unknown` is a value that is no block. */
  datatype Block = Text(kind: string) | Shot(shot: Screenshot) | Group(kind: string, slots: seq<Slot>) | Unknown

  datatype Slot = Slot(key: string, block: Block)

  datatype Json = Plain(kind: string) | Numbered(index: nat, filename: string) |
    Object(kind: string, fields: seq<Field>)

  /** A list is several fields of one key. */
  datatype Field = Field(key: string, value: Json)

  function Each(key: string, blocks: seq<Block>): seq<Slot> {
    seq(|blocks|, k requires 0 <= k < |blocks| => Slot(key, blocks[k]))
  }

  function Maybe(key: string, block: Option<Block>): seq<Slot> {
    match block case Some(b) => [Slot(key, b)] case None => []
  }

  function IncidentEvidence(metadata: seq<Block>, link: Option<Block>, links: seq<Block>, logFile: Option<Block>,
                            screenshots: seq<Block>): Block {
    Group("incident_evidence",
          Each("metadata", metadata) + Maybe("links", link) + Each("links", links) + Maybe("log_file", logFile) +
          Each("screenshots", screenshots))
  }

  function AnalysisReference(children: seq<Block>, screenshots: seq<Block>, logFile: Option<Block>,
      summary: Option<Block>, keyFinds: Option<Block>, secondaryFinds: Option<Block>, likelyCause: Option<Block>,
      recommendedAction: Option<Block>): Block {
    Group("analysis_reference",
          Each("children", children) + Each("screenshots", screenshots) + Maybe("log_file", logFile) +
          Maybe("summary", summary) + Maybe("key_finds", keyFinds) + Maybe("secondary_finds", secondaryFinds) +
          Maybe("likely_cause", likelyCause) + Maybe("recommended_action", recommendedAction))
  }

  // ---- What the walk must produce ----

  /** The screenshots below a block, in walk order. */
  function Shots(b: Block): seq<Screenshot> {
    match b
    case Shot(shot) => [shot]
    case Group(_, slots) => SlotShots(slots)
    case _ => []
  }

  function SlotShots(slots: seq<Slot>): seq<Screenshot> {
    if slots == [] then [] else Shots(slots[0].block) + SlotShots(slots[1..])
  }

  predicate Known(b: Block) {
    match b
    case Group(_, slots) => SlotsKnown(slots)
    case _ => !b.Unknown?
  }

  predicate SlotsKnown(slots: seq<Slot>) {
    slots == [] || (Known(slots[0].block) && SlotsKnown(slots[1..]))
  }

  /** The block's JSON with numbers from `base`. */
  function NumberedFrom(b: Block, base: nat): Json {
    match b
    case Text(kind) => Plain(kind)
    case Shot(shot) => Numbered(base, shot.filename)
    case Group(kind, slots) => Object(kind, FieldsFrom(slots, base))
    case Unknown => Plain("")
  }

  function FieldsFrom(slots: seq<Slot>, base: nat): (fields: seq<Field>)
    ensures |fields| == |slots|
  {
    if slots == [] then [] else
      [Field(slots[0].key, NumberedFrom(slots[0].block, base))] + FieldsFrom(slots[1..], base + |Shots(slots[0].block)|)
  }

  // ---- The walk ----

  class Index {
    var screenshots: seq<Screenshot>

    constructor ()
      ensures screenshots == []
    {
      screenshots := [];
    }

    method BlockToJson(b: Block) returns (json: Result<Json>)
      modifies this
      ensures json.Success? <==> Known(b)
      ensures json.Success? ==> json.value == NumberedFrom(b, |old(screenshots)|)
      ensures json.Success? ==> screenshots == old(screenshots) + Shots(b)
      decreases b
    {
      match b {
        case Text(kind) =>
          json := Success(Plain(kind));
        case Shot(shot) =>
          var index := |screenshots|;
          screenshots := screenshots + [shot];
          json := Success(Numbered(index, shot.filename));
        case Group(kind, slots) =>
          var fields := SlotsToJson(slots);
          json := match fields case Failure(e) => Failure(e) case Success(fs) => Success(Object(kind, fs));
        case Unknown =>
          json := Failure(Rejected);
      }
    }

    method SlotsToJson(slots: seq<Slot>) returns (fields: Result<seq<Field>>)
      modifies this
      ensures fields.Success? <==> SlotsKnown(slots)
      ensures fields.Success? ==> fields.value == FieldsFrom(slots, |old(screenshots)|)
      ensures fields.Success? ==> screenshots == old(screenshots) + SlotShots(slots)
      decreases slots
    {
      if slots == [] {
        return Success([]);
      }
      var first := BlockToJson(slots[0].block);
      if first.Failure? {
        return Failure(Rejected);
      }
      ghost var before := screenshots;
      var rest := SlotsToJson(slots[1..]);
      if rest.Failure? {
        return Failure(Rejected);
      }
      assert before == old(screenshots) + Shots(slots[0].block);
      assert screenshots == old(screenshots) + (Shots(slots[0].block) + SlotShots(slots[1..]));
      return Success([Field(slots[0].key, first.value)] + rest.value);
    }
  }

  // ---- The numbers agree with the list ----

  /** The numbers in the JSON, in walk order. */
  function Indices(j: Json): seq<nat> {
    match j
    case Plain(_) => []
    case Numbered(index, _) => [index]
    case Object(_, fields) => FieldIndices(fields)
  }

  function FieldIndices(fields: seq<Field>): seq<nat> {
    if fields == [] then [] else Indices(fields[0].value) + FieldIndices(fields[1..])
  }

  function Range(from: nat, count: nat): (r: seq<nat>)
    ensures |r| == count && forall k :: 0 <= k < count ==> r[k] == from + k
  {
    seq(count, k requires 0 <= k < count => from + k)
  }

  lemma {:induction false} NumbersAreConsecutive(b: Block, base: nat)
    ensures Indices(NumberedFrom(b, base)) == Range(base, |Shots(b)|)
    decreases b
  {
    if b.Group? {
      FieldsAreConsecutive(b.slots, base);
    }
  }

  lemma {:induction false} FieldsAreConsecutive(slots: seq<Slot>, base: nat)
    ensures FieldIndices(FieldsFrom(slots, base)) == Range(base, |SlotShots(slots)|)
    decreases slots
  {
    if slots != [] {
      var m := |Shots(slots[0].block)|;
      NumbersAreConsecutive(slots[0].block, base);
      FieldsAreConsecutive(slots[1..], base + m);
      assert FieldsFrom(slots, base)[1..] == FieldsFrom(slots[1..], base + m);
    }
  }

  /** The number `i` in `j` stands where the screenshot `s` stands in `b`. */
  ghost predicate SamePlace(b: Block, j: Json, i: nat, s: Screenshot) {
    match b
    case Shot(shot) => shot == s && j.Numbered? && j.index == i
    case Group(_, slots) => j.Object? && SameSlot(slots, j.fields, i, s)
    case _ => false
  }

  ghost predicate SameSlot(slots: seq<Slot>, fields: seq<Field>, i: nat, s: Screenshot) {
    slots != [] && fields != [] &&
    (SamePlace(slots[0].block, fields[0].value, i, s) || SameSlot(slots[1..], fields[1..], i, s))
  }

  /** A number's place in the list holds the screenshot that produced it. */
  lemma {:induction false} NumberNamesItsShot(b: Block, base: nat, i: nat, s: Screenshot)
    requires SamePlace(b, NumberedFrom(b, base), i, s)
    ensures base <= i < base + |Shots(b)| && Shots(b)[i - base] == s
    decreases b
  {
    if b.Group? {
      SlotNamesItsShot(b.slots, base, i, s);
    }
  }

  lemma {:induction false} SlotNamesItsShot(slots: seq<Slot>, base: nat, i: nat, s: Screenshot)
    requires SameSlot(slots, FieldsFrom(slots, base), i, s)
    ensures base <= i < base + |SlotShots(slots)| && SlotShots(slots)[i - base] == s
    decreases slots
  {
    var m := |Shots(slots[0].block)|;
    var fields := FieldsFrom(slots, base);
    if SamePlace(slots[0].block, fields[0].value, i, s) {
      NumberNamesItsShot(slots[0].block, base, i, s);
    } else {
      assert fields[1..] == FieldsFrom(slots[1..], base + m);
      SlotNamesItsShot(slots[1..], base + m, i, s);
    }
  }

  /** And every screenshot is named by the number of its place in the list. */
  lemma {:induction false} ShotIsNumbered(b: Block, base: nat, k: nat)
    requires k < |Shots(b)|
    ensures SamePlace(b, NumberedFrom(b, base), base + k, Shots(b)[k])
    decreases b
  {
    if b.Group? {
      SlotShotIsNumbered(b.slots, base, k);
    }
  }

  lemma {:induction false} SlotShotIsNumbered(slots: seq<Slot>, base: nat, k: nat)
    requires k < |SlotShots(slots)|
    ensures SameSlot(slots, FieldsFrom(slots, base), base + k, SlotShots(slots)[k])
    decreases slots
  {
    var m := |Shots(slots[0].block)|;
    if k < m {
      ShotIsNumbered(slots[0].block, base, k);
    } else {
      SlotShotIsNumbered(slots[1..], base + m, k - m);
      assert FieldsFrom(slots, base)[1..] == FieldsFrom(slots[1..], base + m);
    }
  }

  // ---- The order within a block ----

  /** The screenshots below a list of blocks. */
  function AllShots(blocks: seq<Block>): seq<Screenshot> {
    if blocks == [] then [] else Shots(blocks[0]) + AllShots(blocks[1..])
  }

  function OptionalShots(block: Option<Block>): seq<Screenshot> {
    match block case Some(b) => Shots(b) case None => []
  }

  lemma {:induction false} ShotsJoin(a: seq<Slot>, b: seq<Slot>)
    ensures SlotShots(a + b) == SlotShots(a) + SlotShots(b)
    decreases |a|
  {
    if a == [] {
      assert a + b == b;
    } else {
      ShotsJoin(a[1..], b);
      OneMoreSlot(a[0], a[1..] + b);
      OneMoreSlot(a[0], a[1..]);
      assert [a[0]] + (a[1..] + b) == a + b && [a[0]] + a[1..] == a;
    }
  }

  lemma {:induction false} OneMoreSlot(slot: Slot, slots: seq<Slot>)
    ensures SlotShots([slot] + slots) == Shots(slot.block) + SlotShots(slots)
  {
    assert ([slot] + slots)[1..] == slots;
  }

  lemma {:induction false} ShotsOfEach(key: string, blocks: seq<Block>)
    ensures SlotShots(Each(key, blocks)) == AllShots(blocks)
  {
    if blocks != [] {
      ShotsOfEach(key, blocks[1..]);
      assert Each(key, blocks)[1..] == Each(key, blocks[1..]);
    }
  }

  lemma {:induction false} ShotsOfMaybe(key: string, block: Option<Block>)
    ensures SlotShots(Maybe(key, block)) == OptionalShots(block)
  {
    if block.Some? {
      assert Maybe(key, block)[1..] == [];
    }
  }

  /** An analysis numbers what its children show, then its own screenshots, then what
      its texts show. */
  lemma {:induction false} AnalysisOrder(children: seq<Block>, screenshots: seq<Block>, logFile: Option<Block>,
      summary: Option<Block>, keyFinds: Option<Block>, secondaryFinds: Option<Block>, likelyCause: Option<Block>,
      recommendedAction: Option<Block>)
    ensures Shots(AnalysisReference(children, screenshots, logFile, summary, keyFinds, secondaryFinds, likelyCause,
                                    recommendedAction)) ==
            AllShots(children) + AllShots(screenshots) + OptionalShots(logFile) + OptionalShots(summary) +
            OptionalShots(keyFinds) + OptionalShots(secondaryFinds) + OptionalShots(likelyCause) +
            OptionalShots(recommendedAction)
  {
    var own := Each("children", children) + Each("screenshots", screenshots);
    var upToSummary := own + Maybe("log_file", logFile) + Maybe("summary", summary);
    var upToFinds := upToSummary + Maybe("key_finds", keyFinds) + Maybe("secondary_finds", secondaryFinds);
    ShotsOfEach("children", children);
    ShotsOfEach("screenshots", screenshots);
    ShotsJoin(Each("children", children), Each("screenshots", screenshots));
    TwoMore(own, "log_file", logFile, "summary", summary);
    TwoMore(upToSummary, "key_finds", keyFinds, "secondary_finds", secondaryFinds);
    TwoMore(upToFinds, "likely_cause", likelyCause, "recommended_action", recommendedAction);
  }

  lemma {:induction false} TwoMore(slots: seq<Slot>, key: string, block: Option<Block>, key': string,
      block': Option<Block>)
    ensures SlotShots(slots + Maybe(key, block) + Maybe(key', block')) ==
            SlotShots(slots) + OptionalShots(block) + OptionalShots(block')
  {
    ShotsOfMaybe(key, block);
    ShotsOfMaybe(key', block');
    ShotsJoin(slots, Maybe(key, block));
    ShotsJoin(slots + Maybe(key, block), Maybe(key', block'));
  }

  /** Incident evidence numbers its own screenshots last. */
  lemma {:induction false} EvidenceOrder(metadata: seq<Block>, link: Option<Block>, links: seq<Block>,
      logFile: Option<Block>, screenshots: seq<Block>)
    ensures Shots(IncidentEvidence(metadata, link, links, logFile, screenshots)) ==
            AllShots(metadata) + OptionalShots(link) + AllShots(links) + OptionalShots(logFile) + AllShots(screenshots)
  {
    var a, b, c := Each("metadata", metadata), Maybe("links", link), Each("links", links);
    var d, e := Maybe("log_file", logFile), Each("screenshots", screenshots);
    ShotsOfEach("metadata", metadata);
    ShotsOfMaybe("links", link);
    ShotsOfEach("links", links);
    ShotsOfMaybe("log_file", logFile);
    ShotsOfEach("screenshots", screenshots);
    ShotsJoin(a, b);
    ShotsJoin(a + b, c);
    ShotsJoin(a + b + c, d);
    ShotsJoin(a + b + c + d, e);
  }

  // ---- Whole documents ----

  datatype Document = Document(blocks: seq<Block>, metadata: seq<Block>)

  /** The document as one group: its blocks are walked first, then its metadata. */
  function Whole(d: Document): Block {
    Group("document", Each("blocks", d.blocks) + Each("metadata", d.metadata))
  }

  /** The metadata is numbered after all blocks. */
  lemma {:induction false} DocumentOrder(d: Document)
    ensures Shots(Whole(d)) == AllShots(d.blocks) + AllShots(d.metadata)
  {
    ShotsOfEach("blocks", d.blocks);
    ShotsOfEach("metadata", d.metadata);
    ShotsJoin(Each("blocks", d.blocks), Each("metadata", d.metadata));
  }

  method DocumentToPreview(d: Document) returns (preview: Result<(Json, seq<Screenshot>)>)
    ensures preview.Success? <==> Known(Whole(d))
    ensures preview.Success? ==> preview.value == (NumberedFrom(Whole(d), 0), Shots(Whole(d)))
  {
    var index := new Index();
    var json := index.BlockToJson(Whole(d));
    assert [] + Shots(Whole(d)) == Shots(Whole(d));
    preview := match json case Failure(e) => Failure(e) case Success(j) => Success((j, index.screenshots));
  }

  /** In a preview the numbers are exactly those of the list, once each and in walk order,
      and number and screenshot share a place exactly when the list has one at the other. */
  lemma {:induction false} PreviewAgrees(d: Document, payload: Json, list: seq<Screenshot>)
    requires payload == NumberedFrom(Whole(d), 0) && list == Shots(Whole(d))
    ensures Indices(payload) == Range(0, |list|)
    ensures forall i: nat, s :: SamePlace(Whole(d), payload, i, s) <==> i < |list| && list[i] == s
  {
    NumbersAreConsecutive(Whole(d), 0);
    forall i: nat, s
      ensures SamePlace(Whole(d), payload, i, s) <==> i < |list| && list[i] == s
    {
      if SamePlace(Whole(d), payload, i, s) {
        NumberNamesItsShot(Whole(d), 0, i, s);
      }
      if i < |list| && list[i] == s {
        ShotIsNumbered(Whole(d), 0, i);
      }
    }
  }
}
