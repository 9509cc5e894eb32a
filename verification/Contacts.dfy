/**
 The contacts of an organization: entities (persons) and their data rows (a phone, an address). A save
 sends the whole list; rows are updated or added one entry after another, rows that were not named are
 deleted, and so are entities left without rows.
 */
module Contacts {
  import opened Options
  import opened Text

  type Id = nat
  type OrgId = nat

  /** Payload ids are any integers; zero counts as absent in some tests of the code. */
  datatype Input = Input(entityId: Option<int>, dataId: Option<int>, key: Option<string>,
                         name: Option<string>, post: Option<string>, typeId: Option<int>, value: Option<string>)

  /** `_PreparedContact` */
  datatype Entry = Entry(entityId: Option<int>, dataId: Option<int>, key: Option<string>,
                         name: Option<string>, post: Option<string>, typeId: int, value: string)

  datatype Entity = Entity(org: OrgId, name: Option<string>, post: Option<string>)
  datatype Row = Row(entity: Id, typeId: int, data: Option<string>)

  datatype Db = Db(entities: map<Id, Entity>, rows: map<Id, Row>, nextEntity: Id, nextRow: Id)

  datatype Error = TooLong | NoType | NoValue | UnknownType | RowGone | EntityGone | Conflict

  // ---- _prepare_contacts ----

  const MAX_NAME := 255
  const MAX_POST := 1024
  const MAX_VALUE := 255
  const MAX_KEY := 128

  predicate Truthy(id: Option<int>) {
    id.Some? && id.value != 0
  }

  predicate HasAnyValue(input: Input) {
    || Normalize(input.name).Some? || Normalize(input.post).Some? || Normalize(input.value).Some?
    || Truthy(input.typeId) || Truthy(input.entityId) || Truthy(input.dataId)
  }

  /** `None` inside `Ok` is an entry that is skipped. */
  function Prepare(input: Input): Result<Option<Entry>, Error> {
    if !FitsLimit(input.name, MAX_NAME) || !FitsLimit(input.post, MAX_POST)
       || !FitsLimit(input.value, MAX_VALUE) || !FitsLimit(input.key, MAX_KEY) then Err(TooLong)
    else if !HasAnyValue(input) then Ok(None)
    else if input.typeId.None? then Err(NoType)
    else if Normalize(input.value).None? then Err(NoValue)
    else Ok(Some(Entry(input.entityId, input.dataId, Normalize(input.key), Normalize(input.name), Normalize(input.post),
                       input.typeId.value, Normalize(input.value).value)))
  }

  function PrepareAll(inputs: seq<Input>): Result<seq<Entry>, Error> {
    if inputs == [] then Ok([])
    else
      match PrepareAll(inputs[..|inputs| - 1])
      case Err(e) => Err(e)
      case Ok(entries) =>
        match Prepare(inputs[|inputs| - 1])
        case Err(e) => Err(e)
        case Ok(None) => Ok(entries)
        case Ok(Some(entry)) => Ok(entries + [entry])
  }

  predicate KnownTypes(types: set<int>, entries: seq<Entry>) {
    forall i | 0 <= i < |entries| :: entries[i].typeId in types
  }

  // ---- the loop of _sync_contacts ----

  /** The tables in the middle of the loop, the rows to keep, and the entities made for client keys. */
  datatype Draft = Draft(db: Db, retained: set<Id>, byKey: map<string, Id>)

  predicate MyEntity(db: Db, org: OrgId, e: int) {
    e in db.entities && db.entities[e].org == org
  }

  predicate MyRow(db: Db, org: OrgId, r: int) {
    r in db.rows && MyEntity(db, org, db.rows[r].entity)
  }

  /** The entity an entry belongs to; `nextEntity` stands for a new one. */
  function ChooseEntity(d: Draft, org: OrgId, c: Entry): Result<Id, Error> {
    if c.dataId.Some? then
      if !MyRow(d.db, org, c.dataId.value) then Err(RowGone)
      else if Truthy(c.entityId) && c.entityId.value != d.db.rows[c.dataId.value].entity then Err(Conflict)
      else Ok(d.db.rows[c.dataId.value].entity)
    else if c.entityId.Some? then
      if MyEntity(d.db, org, c.entityId.value) then Ok(c.entityId.value) else Err(EntityGone)
    else if c.key.Some? && c.key.value in d.byKey then Ok(d.byKey[c.key.value])
    else Ok(d.db.nextEntity)
  }

  function ChooseRow(d: Draft, c: Entry): Id
    requires c.dataId.Some? ==> c.dataId.value >= 0
  {
    if c.dataId.Some? then c.dataId.value else d.db.nextRow
  }

  /** Why an entry is refused: its row is gone, or is another person's, or the person it is for is gone. */
  predicate Refuses(db: Db, org: OrgId, c: Entry, e: Error) {
    var mine := c.dataId.Some? && MyRow(db, org, c.dataId.value);
    match e
    case RowGone => c.dataId.Some? && !mine
    case Conflict =>
      mine && c.entityId.Some? && c.entityId.value != 0 && c.entityId.value != db.rows[c.dataId.value].entity
    case EntityGone =>
      && c.dataId.None? && c.entityId.Some?
      && !(c.entityId.value in db.entities && db.entities[c.entityId.value].org == org)
    case _ => false
  }

  /** Exactly when an entry is refused at its turn, and with which error. */
  lemma EntryRefusedIff(d: Draft, org: OrgId, c: Entry, e: Error)
    ensures Place(d, org, c) == Err(e) <==> Refuses(d.db, org, c, e)
  {
  }

  /** Neither id is given: the entry makes an entity, or shares one under its client key. */
  predicate Unplaced(c: Entry) {
    c.dataId.None? && c.entityId.None?
  }

  function Put(d: Draft, org: OrgId, c: Entry, e: Id): Draft
    requires c.dataId.Some? ==> c.dataId.value >= 0
  {
    var r := ChooseRow(d, c);
    Draft(
      Db(d.db.entities[e := Entity(org, c.name, c.post)],
         d.db.rows[r := Row(e, c.typeId, Some(c.value))],
         if e == d.db.nextEntity then d.db.nextEntity + 1 else d.db.nextEntity,
         if c.dataId.None? then d.db.nextRow + 1 else d.db.nextRow),
      d.retained + {r},
      if Unplaced(c) && c.key.Some? then d.byKey[c.key.value := e] else d.byKey)
  }

  function Place(d: Draft, org: OrgId, c: Entry): Result<Draft, Error> {
    match ChooseEntity(d, org, c)
    case Err(e) => Err(e)
    case Ok(e) => Ok(Put(d, org, c, e))
  }

  function PlaceAll(db: Db, org: OrgId, entries: seq<Entry>): Result<Draft, Error> {
    if entries == [] then Ok(Draft(db, {}, map[]))
    else
      match PlaceAll(db, org, entries[..|entries| - 1])
      case Err(e) => Err(e)
      case Ok(d) => Place(d, org, entries[|entries| - 1])
  }

  // ---- the deletions ----

  predicate Dropped(db: Db, org: OrgId, retained: set<Id>, r: Id) {
    MyRow(db, org, r) && r !in retained
  }

  predicate HasRows(rows: map<Id, Row>, e: Id) {
    exists r :: r in rows && rows[r].entity == e
  }

  function KeptRows(db: Db, org: OrgId, retained: set<Id>): map<Id, Row> {
    map r | r in db.rows && !Dropped(db, org, retained, r) :: db.rows[r]
  }

  function KeptEntities(entities: map<Id, Entity>, rows: map<Id, Row>, org: OrgId): map<Id, Entity> {
    map e | e in entities && (entities[e].org == org ==> HasRows(rows, e)) :: entities[e]
  }

  function Swept(db: Db, org: OrgId, retained: set<Id>): Db {
    db.(rows := KeptRows(db, org, retained), entities := KeptEntities(db.entities, KeptRows(db, org, retained), org))
  }

  /** `_sync_contacts` on the prepared list. */
  function SyncEntries(db: Db, types: set<int>, org: OrgId, entries: seq<Entry>): Result<Db, Error> {
    if !KnownTypes(types, entries) then Err(UnknownType)
    else
      match PlaceAll(db, org, entries)
      case Err(e) => Err(e)
      case Ok(d) => Ok(Swept(d.db, org, d.retained))
  }

  function Sync(db: Db, types: set<int>, org: OrgId, inputs: seq<Input>): Result<Db, Error> {
    match PrepareAll(inputs)
    case Err(e) => Err(e)
    case Ok(entries) => SyncEntries(db, types, org, entries)
  }

  /** Ids in use are below the next ones, and every row has its entity. */
  ghost predicate Valid(db: Db) {
    && (forall e | e in db.entities :: e < db.nextEntity)
    && (forall r | r in db.rows :: r < db.nextRow && db.rows[r].entity in db.entities)
  }

  ghost predicate ValidDraft(d: Draft, org: OrgId) {
    && Valid(d.db)
    && (forall r | r in d.retained :: MyRow(d.db, org, r))
    && (forall k | k in d.byKey :: MyEntity(d.db, org, d.byKey[k]))
  }

  lemma {:induction false} PlaceAllKeepsValid(db: Db, org: OrgId, entries: seq<Entry>)
    requires Valid(db) && PlaceAll(db, org, entries).Ok?
    ensures ValidDraft(PlaceAll(db, org, entries).value, org)
  {
    if entries != [] {
      PlaceAllKeepsValid(db, org, entries[..|entries| - 1]);
    }
  }

  // ---- the loops themselves ----

  method PrepareContacts(inputs: seq<Input>) returns (prepared: Result<seq<Entry>, Error>)
    ensures prepared == PrepareAll(inputs)
  {
    var entries: seq<Entry> := [];
    var i := 0;
    while i < |inputs|
      invariant 0 <= i <= |inputs|
      invariant PrepareAll(inputs[..i]) == Ok(entries)
    {
      assert inputs[..i + 1][..i] == inputs[..i];
      var next := Prepare(inputs[i]);
      match next {
        case Err(e) =>
          PrepareFailurePropagates(inputs, i + 1, e);
          return Err(e);
        case Ok(None) =>
        case Ok(Some(entry)) => entries := entries + [entry];
      }
      i := i + 1;
    }
    assert inputs[..i] == inputs;
    prepared := Ok(entries);
  }

  lemma {:induction false} PrepareFailurePropagates(inputs: seq<Input>, i: nat, e: Error)
    requires i <= |inputs| && PrepareAll(inputs[..i]) == Err(e)
    ensures PrepareAll(inputs) == Err(e)
    decreases |inputs|
  {
    if i == |inputs| {
      assert inputs[..i] == inputs;
    } else {
      assert inputs[..|inputs| - 1][..i] == inputs[..i];
      PrepareFailurePropagates(inputs[..|inputs| - 1], i, e);
    }
  }

  lemma {:induction false} PlaceFailurePropagates(db: Db, org: OrgId, entries: seq<Entry>, i: nat, e: Error)
    requires i <= |entries| && PlaceAll(db, org, entries[..i]) == Err(e)
    ensures PlaceAll(db, org, entries) == Err(e)
    decreases |entries|
  {
    if i == |entries| {
      assert entries[..i] == entries;
    } else {
      assert entries[..|entries| - 1][..i] == entries[..i];
      PlaceFailurePropagates(db, org, entries[..|entries| - 1], i, e);
    }
  }

  /** The contact tables in one session. A failure leaves them as the rollback of the caller does. */
  class ContactTables {
    const types: set<int>
    var entities: map<Id, Entity>
    var rows: map<Id, Row>
    var nextEntity: Id
    var nextRow: Id

    constructor (types: set<int>, db: Db)
      ensures this.types == types && Tables() == db
    {
      this.types := types;
      entities, rows, nextEntity, nextRow := db.entities, db.rows, db.nextEntity, db.nextRow;
    }

    function Tables(): Db
      reads this
    {
      Db(entities, rows, nextEntity, nextRow)
    }

    method AddEntity(org: OrgId) returns (e: Id)
      modifies this
      ensures e == old(nextEntity)
      ensures Tables() == old(Tables()).(entities := old(entities)[e := Entity(org, None, None)], nextEntity := e + 1)
    {
      e := nextEntity;
      entities := entities[e := Entity(org, None, None)];
      nextEntity := e + 1;
    }

    /** The body of the loop for one entry. */
    method PlaceEntry(org: OrgId, c: Entry, retained: set<Id>, byKey: map<string, Id>)
      returns (outcome: Result<(set<Id>, map<string, Id>), Error>)
      requires ValidDraft(Draft(Tables(), retained, byKey), org)
      modifies this
      ensures match Place(Draft(old(Tables()), retained, byKey), org, c)
              case Err(e) => outcome == Err(e) && Tables() == old(Tables())
              case Ok(d) => outcome == Ok((d.retained, d.byKey)) && Tables() == d.db
    {
      var e: Id;
      if c.dataId.Some? {
        var r := c.dataId.value;
        if !MyRow(Tables(), org, r) {
          return Err(RowGone);
        }
        if Truthy(c.entityId) && c.entityId.value != rows[r].entity {
          return Err(Conflict);
        }
        e := rows[r].entity;
        entities := entities[e := entities[e].(name := c.name, post := c.post)];
        rows := rows[r := rows[r].(typeId := c.typeId, data := Some(c.value))];
        return Ok((retained + {r}, byKey));
      }
      var keys := byKey;
      if c.entityId.Some? {
        if !MyEntity(Tables(), org, c.entityId.value) {
          return Err(EntityGone);
        }
        e := c.entityId.value;
      } else if c.key.Some? && c.key.value in byKey {
        e := byKey[c.key.value];
        assert keys[c.key.value := e] == keys;
      } else {
        e := AddEntity(org);
        keys := if c.key.Some? then byKey[c.key.value := e] else byKey;
      }
      assert entities[e := entities[e].(name := c.name, post := c.post)]
        == old(entities)[e := Entity(org, c.name, c.post)];
      var r := nextRow;
      rows := rows[r := Row(e, c.typeId, Some(c.value))];
      nextRow := r + 1;
      entities := entities[e := entities[e].(name := c.name, post := c.post)];
      outcome := Ok((retained + {r}, keys));
    }

    method DeleteUnlisted(org: OrgId, retained: set<Id>)
      modifies this
      ensures Tables() == old(Tables()).(rows := KeptRows(old(Tables()), org, retained))
    {
      ghost var before := Tables();
      var todo := rows.Keys;
      while todo != {}
        invariant todo <= old(rows).Keys
        invariant entities == old(entities) && nextEntity == old(nextEntity) && nextRow == old(nextRow)
        invariant forall r :: r in rows <==> r in old(rows) && (r in todo || !Dropped(before, org, retained, r))
        invariant forall r | r in rows :: rows[r] == old(rows)[r]
        decreases |todo|
      {
        var r :| r in todo;
        if MyRow(Tables(), org, r) && r !in retained {
          rows := rows - {r};
        }
        todo := todo - {r};
      }
      assert rows == KeptRows(before, org, retained);
    }

    method DeleteOrphans(org: OrgId)
      modifies this
      ensures Tables() == old(Tables()).(entities := KeptEntities(old(entities), old(rows), org))
    {
      var todo := entities.Keys;
      while todo != {}
        invariant todo <= old(entities).Keys
        invariant rows == old(rows) && nextEntity == old(nextEntity) && nextRow == old(nextRow)
        invariant forall e :: e in entities <==>
                    e in old(entities) && (e in todo || (old(entities)[e].org == org ==> HasRows(rows, e)))
        invariant forall e | e in entities :: entities[e] == old(entities)[e]
        decreases |todo|
      {
        var e :| e in todo;
        if entities[e].org == org && !HasRows(rows, e) {
          entities := entities - {e};
        }
        todo := todo - {e};
      }
      assert entities == KeptEntities(old(entities), old(rows), org);
    }

    method Sweep(org: OrgId, retained: set<Id>)
      modifies this
      ensures Tables() == Swept(old(Tables()), org, retained)
    {
      DeleteUnlisted(org, retained);
      DeleteOrphans(org);
    }

    /** `_sync_contacts` */
    method SyncContacts(org: OrgId, inputs: seq<Input>) returns (outcome: Result<(), Error>)
      requires Valid(Tables())
      modifies this
      ensures match Sync(old(Tables()), types, org, inputs)
              case Err(e) => outcome == Err(e) && Tables() == old(Tables())
              case Ok(db) => outcome == Ok(()) && Tables() == db
    {
      var prepared := PrepareContacts(inputs);
      if prepared.Err? {
        return Err(prepared.error);
      }
      outcome := SyncPrepared(org, prepared.value);
    }

    method SyncPrepared(org: OrgId, entries: seq<Entry>) returns (outcome: Result<(), Error>)
      requires Valid(Tables())
      modifies this
      ensures match SyncEntries(old(Tables()), types, org, entries)
              case Err(e) => outcome == Err(e) && Tables() == old(Tables())
              case Ok(db) => outcome == Ok(()) && Tables() == db
    {
      if !KnownTypes(types, entries) {
        return Err(UnknownType);
      }
      var placed := PlaceEntries(org, entries);
      if placed.Err? {
        return Err(placed.error);
      }
      Sweep(org, placed.value);
      outcome := Ok(());
    }

    method PlaceEntries(org: OrgId, entries: seq<Entry>) returns (outcome: Result<set<Id>, Error>)
      requires Valid(Tables())
      modifies this
      ensures match PlaceAll(old(Tables()), org, entries)
              case Err(e) => outcome == Err(e) && Tables() == old(Tables())
              case Ok(d) => outcome == Ok(d.retained) && Tables() == d.db
    {
      var before := Tables();
      var retained: set<Id> := {};
      var byKey: map<string, Id> := map[];
      var i := 0;
      while i < |entries|
        invariant 0 <= i <= |entries|
        invariant before == old(Tables())
        invariant PlaceAll(before, org, entries[..i]) == Ok(Draft(Tables(), retained, byKey))
      {
        assert entries[..i + 1][..i] == entries[..i];
        PlaceAllKeepsValid(before, org, entries[..i]);
        var placed := PlaceEntry(org, entries[i], retained, byKey);
        match placed {
          case Err(e) =>
            PlaceFailurePropagates(before, org, entries, i + 1, e);
            entities, rows, nextEntity, nextRow := before.entities, before.rows, before.nextEntity, before.nextRow;
            return Err(e);
          case Ok((ids, keys)) =>
            retained, byKey := ids, keys;
        }
        i := i + 1;
      }
      assert entries[..i] == entries;
      outcome := Ok(retained);
    }
  }
}
