/** What saving contacts guarantees, whatever list is sent. */
module ContactGuarantees {
  import opened Options
  import opened Text
  import opened Contacts

  // ---- which rows an entry list stands for ----

  /** How many entries bring no row id. */
  function NewCount(cs: seq<Entry>): nat {
    if cs == [] then 0 else NewCount(cs[..|cs| - 1]) + (if cs[|cs| - 1].dataId.None? then 1 else 0)
  }

  /** The row of entry `i`: the one it names, or the next new one after `base`. */
  function RowOf(base: int, cs: seq<Entry>, i: nat): int
    requires i < |cs|
  {
    if cs[i].dataId.Some? then cs[i].dataId.value else base + NewCount(cs[..i])
  }

  lemma RowOfPrefix(base: int, cs: seq<Entry>, n: nat, i: nat)
    requires i < n <= |cs|
    ensures RowOf(base, cs[..n], i) == RowOf(base, cs, i)
  {
    assert cs[..n][..i] == cs[..i];
  }

  ghost predicate Names(base: int, cs: seq<Entry>, r: int) {
    exists i :: 0 <= i < |cs| && RowOf(base, cs, i) == r
  }

  /** No later entry stands for the same row. */
  ghost predicate LastForRow(base: int, cs: seq<Entry>, i: nat)
    requires i < |cs|
  {
    forall j | i < j < |cs| :: RowOf(base, cs, j) != RowOf(base, cs, i)
  }

  lemma NamesGrow(base: int, cs: seq<Entry>, r: int)
    requires cs != []
    ensures Names(base, cs, r) <==> Names(base, cs[..|cs| - 1], r) || RowOf(base, cs, |cs| - 1) == r
  {
    var front := cs[..|cs| - 1];
    if i :| 0 <= i < |front| && RowOf(base, front, i) == r {
      RowOfPrefix(base, cs, |front|, i);
      assert RowOf(base, cs, i) == r;
    }
    if i :| 0 <= i < |cs| && RowOf(base, cs, i) == r {
      if i < |front| {
        RowOfPrefix(base, cs, |front|, i);
        assert RowOf(base, front, i) == r;
      }
    }
  }

  lemma {:induction false} RetainedAreNamed(db: Db, org: OrgId, cs: seq<Entry>)
    requires Valid(db) && PlaceAll(db, org, cs).Ok?
    ensures var d := PlaceAll(db, org, cs).value;
            && d.db.nextRow == db.nextRow + NewCount(cs)
            && (forall r: Id :: r in d.retained <==> Names(db.nextRow, cs, r))
            && (forall i | 0 <= i < |cs| :: RowOf(db.nextRow, cs, i) >= 0)
  {
    if cs != [] {
      var front := cs[..|cs| - 1];
      RetainedAreNamed(db, org, front);
      forall r: Id
        ensures r in PlaceAll(db, org, cs).value.retained <==> Names(db.nextRow, cs, r)
      {
        NamesGrow(db.nextRow, cs, r);
      }
      forall i | 0 <= i < |cs|
        ensures RowOf(db.nextRow, cs, i) >= 0
      {
        if i < |front| {
          RowOfPrefix(db.nextRow, cs, |front|, i);
        }
      }
    }
  }

  // ---- what one entry does ----

  /** The effect of one entry, in terms of the row `r` and the entity `e` it ends up with. */
  ghost predicate Placed(d: Draft, org: OrgId, c: Entry, r: Id, e: Id, d': Draft) {
    && d'.db.rows == d.db.rows[r := Row(e, c.typeId, Some(c.value))]
    && d'.db.entities == d.db.entities[e := Entity(org, c.name, c.post)]
    && d'.retained == d.retained + {r}
    && (r in d.db.rows ==> d.db.rows[r].entity == e)
    && (e in d.db.entities ==> d.db.entities[e].org == org)
  }

  /** The draft after all entries but the last. */
  function Before(db: Db, org: OrgId, cs: seq<Entry>): Draft
    requires cs != [] && PlaceAll(db, org, cs).Ok?
  {
    PlaceAll(db, org, cs[..|cs| - 1]).value
  }

  lemma LastPlaced(db: Db, org: OrgId, cs: seq<Entry>)
    requires cs != [] && Valid(db) && PlaceAll(db, org, cs).Ok?
    ensures var d, last := Before(db, org, cs), cs[|cs| - 1];
            && ValidDraft(d, org)
            && RowOf(db.nextRow, cs, |cs| - 1) >= 0
            && ChooseEntity(d, org, last).Ok?
            && Placed(d, org, last, RowOf(db.nextRow, cs, |cs| - 1),
                      ChooseEntity(d, org, last).value, PlaceAll(db, org, cs).value)
  {
    var d := Before(db, org, cs);
    PlaceAllKeepsValid(db, org, cs[..|cs| - 1]);
    RetainedAreNamed(db, org, cs[..|cs| - 1]);
  }

  // ---- rows and entities that stay ----

  /** Rows keep their entity, entities keep their organization, and only listed rows change. */
  ghost predicate Framed(db: Db, org: OrgId, d: Draft) {
    && (forall r | r in db.rows :: r in d.db.rows && d.db.rows[r].entity == db.rows[r].entity)
    && (forall r | r in d.db.rows && r !in d.retained :: r in db.rows && d.db.rows[r] == db.rows[r])
    && (forall e | e in db.entities :: e in d.db.entities && d.db.entities[e].org == db.entities[e].org)
    && (forall e | e in d.db.entities && d.db.entities[e].org != org ::
         e in db.entities && d.db.entities[e] == db.entities[e])
  }

  lemma {:induction false} PlaceAllFrames(db: Db, org: OrgId, cs: seq<Entry>)
    requires Valid(db) && PlaceAll(db, org, cs).Ok?
    ensures Framed(db, org, PlaceAll(db, org, cs).value)
  {
    if cs != [] {
      PlaceAllFrames(db, org, cs[..|cs| - 1]);
      LastPlaced(db, org, cs);
    }
  }

  // ---- the last entry for a row wins ----

  ghost predicate Stored(d: Draft, base: int, cs: seq<Entry>, i: nat)
    requires i < |cs|
  {
    var r := RowOf(base, cs, i);
    r in d.db.rows
      && (LastForRow(base, cs, i) ==> d.db.rows[r].typeId == cs[i].typeId && d.db.rows[r].data == Some(cs[i].value))
  }

  lemma {:induction false} EntriesAreStored(db: Db, org: OrgId, cs: seq<Entry>)
    requires Valid(db) && PlaceAll(db, org, cs).Ok?
    ensures forall i | 0 <= i < |cs| :: Stored(PlaceAll(db, org, cs).value, db.nextRow, cs, i)
  {
    if cs != [] {
      var base, front, last := db.nextRow, cs[..|cs| - 1], |cs| - 1;
      EntriesAreStored(db, org, front);
      LastPlaced(db, org, cs);
      forall i | 0 <= i < |cs|
        ensures Stored(PlaceAll(db, org, cs).value, base, cs, i)
      {
        if i < |front| {
          RowOfPrefix(base, cs, |front|, i);
          assert Stored(Before(db, org, cs), base, front, i);
          if LastForRow(base, cs, i) {
            assert RowOf(base, cs, last) != RowOf(base, cs, i);
            StillLast(base, cs, i);
          }
        }
      }
    }
  }

  lemma StillLast(base: int, cs: seq<Entry>, i: nat)
    requires i < |cs| - 1 && LastForRow(base, cs, i)
    ensures LastForRow(base, cs[..|cs| - 1], i)
  {
    var front := cs[..|cs| - 1];
    RowOfPrefix(base, cs, |front|, i);
    forall j | i < j < |front|
      ensures RowOf(base, front, j) != RowOf(base, front, i)
    {
      RowOfPrefix(base, cs, |front|, j);
      assert RowOf(base, cs, j) != RowOf(base, cs, i);
    }
  }

  // ---- which entity an entry belongs to ----

  /** The entity of entry `i` once all are placed. */
  function EntityOf(d: Draft, base: int, cs: seq<Entry>, i: nat): Id
    requires i < |cs| && RowOf(base, cs, i) in d.db.rows
  {
    d.db.rows[RowOf(base, cs, i)].entity
  }

  lemma EntityOfFront(db: Db, org: OrgId, cs: seq<Entry>, i: nat)
    requires cs != [] && Valid(db) && PlaceAll(db, org, cs).Ok? && i < |cs| - 1
    ensures Stored(Before(db, org, cs), db.nextRow, cs[..|cs| - 1], i)
              && Stored(PlaceAll(db, org, cs).value, db.nextRow, cs, i)
    ensures EntityOf(PlaceAll(db, org, cs).value, db.nextRow, cs, i)
              == EntityOf(Before(db, org, cs), db.nextRow, cs[..|cs| - 1], i)
  {
    EntriesAreStored(db, org, cs);
    EntriesAreStored(db, org, cs[..|cs| - 1]);
    RowOfPrefix(db.nextRow, cs, |cs| - 1, i);
    LastPlaced(db, org, cs);
  }

  lemma EntityOfLast(db: Db, org: OrgId, cs: seq<Entry>)
    requires cs != [] && Valid(db) && PlaceAll(db, org, cs).Ok?
    ensures Stored(PlaceAll(db, org, cs).value, db.nextRow, cs, |cs| - 1)
    ensures ChooseEntity(Before(db, org, cs), org, cs[|cs| - 1])
              == Ok(EntityOf(PlaceAll(db, org, cs).value, db.nextRow, cs, |cs| - 1))
  {
    EntriesAreStored(db, org, cs);
    LastPlaced(db, org, cs);
  }

  /** Entry `i` under the entity the list asks for. */
  ghost predicate AtItsEntity(db: Db, d: Draft, cs: seq<Entry>, i: nat)
    requires i < |cs| && Stored(d, db.nextRow, cs, i)
  {
    var e := EntityOf(d, db.nextRow, cs, i);
    && (Truthy(cs[i].entityId) ==> e == cs[i].entityId.value)
    && (Unplaced(cs[i]) ==> e >= db.nextEntity)
    && (Unplaced(cs[i]) && cs[i].key.Some? ==> cs[i].key.value in d.byKey && d.byKey[cs[i].key.value] == e)
    && (Unplaced(cs[i]) ==> forall k | k in d.byKey && d.byKey[k] == e :: cs[i].key == Some(k))
    && e in d.db.entities
  }

  /** Client keys name entities made in this save, one each. */
  ghost predicate KeysApart(db: Db, d: Draft) {
    && d.db.nextEntity >= db.nextEntity
    && (forall k | k in d.byKey :: db.nextEntity <= d.byKey[k] < d.db.nextEntity)
    && (forall k, l | k in d.byKey && l in d.byKey && k != l :: d.byKey[k] != d.byKey[l])
  }

  lemma {:induction false} KeysStayApart(db: Db, org: OrgId, cs: seq<Entry>)
    requires Valid(db) && PlaceAll(db, org, cs).Ok?
    ensures KeysApart(db, PlaceAll(db, org, cs).value)
  {
    if cs != [] {
      KeysStayApart(db, org, cs[..|cs| - 1]);
      PlaceAllKeepsValid(db, org, cs[..|cs| - 1]);
    }
  }

  lemma FrontStaysAtItsEntity(db: Db, org: OrgId, cs: seq<Entry>, i: nat)
    requires cs != [] && Valid(db) && PlaceAll(db, org, cs).Ok? && i < |cs| - 1
    requires Stored(Before(db, org, cs), db.nextRow, cs[..|cs| - 1], i)
    requires AtItsEntity(db, Before(db, org, cs), cs[..|cs| - 1], i)
    ensures Stored(PlaceAll(db, org, cs).value, db.nextRow, cs, i)
    ensures AtItsEntity(db, PlaceAll(db, org, cs).value, cs, i)
  {
    EntityOfFront(db, org, cs, i);
    LastPlaced(db, org, cs);
  }

  lemma LastAtItsEntity(db: Db, org: OrgId, cs: seq<Entry>)
    requires cs != [] && Valid(db) && PlaceAll(db, org, cs).Ok?
    ensures Stored(PlaceAll(db, org, cs).value, db.nextRow, cs, |cs| - 1)
    ensures AtItsEntity(db, PlaceAll(db, org, cs).value, cs, |cs| - 1)
  {
    EntityOfLast(db, org, cs);
    LastPlaced(db, org, cs);
    KeysStayApart(db, org, cs[..|cs| - 1]);
  }

  lemma {:induction false} EntriesAtTheirEntities(db: Db, org: OrgId, cs: seq<Entry>)
    requires Valid(db) && PlaceAll(db, org, cs).Ok?
    ensures forall i | 0 <= i < |cs| :: Stored(PlaceAll(db, org, cs).value, db.nextRow, cs, i)
              && AtItsEntity(db, PlaceAll(db, org, cs).value, cs, i)
  {
    if cs != [] {
      EntriesAtTheirEntities(db, org, cs[..|cs| - 1]);
      forall i | 0 <= i < |cs|
        ensures Stored(PlaceAll(db, org, cs).value, db.nextRow, cs, i)
                  && AtItsEntity(db, PlaceAll(db, org, cs).value, cs, i)
      {
        if i < |cs| - 1 {
          FrontStaysAtItsEntity(db, org, cs, i);
        } else {
          LastAtItsEntity(db, org, cs);
        }
      }
    }
  }

  /** Two entries without ids share an entity exactly when they carry the same client key. */
  ghost predicate ShareByKey(d: Draft, base: int, cs: seq<Entry>, i: nat, j: nat)
    requires i < |cs| && j < |cs| && Stored(d, base, cs, i) && Stored(d, base, cs, j)
  {
    Unplaced(cs[i]) && Unplaced(cs[j]) ==>
      (EntityOf(d, base, cs, i) == EntityOf(d, base, cs, j) <==> cs[i].key.Some? && cs[i].key == cs[j].key)
  }

  lemma LastSharesByKey(db: Db, org: OrgId, cs: seq<Entry>, i: nat)
    requires cs != [] && Valid(db) && PlaceAll(db, org, cs).Ok? && i < |cs| - 1
    ensures var d := PlaceAll(db, org, cs).value;
            && Stored(d, db.nextRow, cs, i) && Stored(d, db.nextRow, cs, |cs| - 1)
            && ShareByKey(d, db.nextRow, cs, i, |cs| - 1)
  {
    EntityOfFront(db, org, cs, i);
    EntityOfLast(db, org, cs);
    EntriesAtTheirEntities(db, org, cs[..|cs| - 1]);
    assert AtItsEntity(db, Before(db, org, cs), cs[..|cs| - 1], i);
    PlaceAllKeepsValid(db, org, cs[..|cs| - 1]);
  }

  lemma {:induction false} EntriesShareByKey(db: Db, org: OrgId, cs: seq<Entry>, i: nat, j: nat)
    requires Valid(db) && PlaceAll(db, org, cs).Ok? && i < j < |cs|
    ensures var d := PlaceAll(db, org, cs).value;
            Stored(d, db.nextRow, cs, i) && Stored(d, db.nextRow, cs, j) && ShareByKey(d, db.nextRow, cs, i, j)
  {
    if j < |cs| - 1 {
      EntriesShareByKey(db, org, cs[..|cs| - 1], i, j);
      EntityOfFront(db, org, cs, i);
      EntityOfFront(db, org, cs, j);
    } else {
      LastSharesByKey(db, org, cs, i);
    }
  }

  // ---- the last entry for an entity wins ----

  predicate SameEntity(rows: map<Id, Row>, base: int, cs: seq<Entry>, i: nat, j: nat)
    requires i < |cs| && j < |cs|
  {
    var r, q := RowOf(base, cs, i), RowOf(base, cs, j);
    r in rows && q in rows && rows[r].entity == rows[q].entity
  }

  /** No later entry belongs to the same entity. */
  ghost predicate LastForEntity(rows: map<Id, Row>, base: int, cs: seq<Entry>, i: nat)
    requires i < |cs|
  {
    forall j | i < j < |cs| :: !SameEntity(rows, base, cs, i, j)
  }

  /** The entity of entry `i` bears its name and post, unless a later entry belongs to it too. */
  ghost predicate Named(db: Db, org: OrgId, base: int, cs: seq<Entry>, i: nat)
    requires i < |cs|
  {
    var r := RowOf(base, cs, i);
    && r in db.rows
    && db.rows[r].entity in db.entities
    && (LastForEntity(db.rows, base, cs, i) ==> db.entities[db.rows[r].entity] == Entity(org, cs[i].name, cs[i].post))
  }

  lemma StillLastForEntity(db: Db, org: OrgId, cs: seq<Entry>, i: nat)
    requires cs != [] && Valid(db) && PlaceAll(db, org, cs).Ok? && i < |cs| - 1
    requires LastForEntity(PlaceAll(db, org, cs).value.db.rows, db.nextRow, cs, i)
    ensures LastForEntity(Before(db, org, cs).db.rows, db.nextRow, cs[..|cs| - 1], i)
  {
    var front, rows, rows' := cs[..|cs| - 1], Before(db, org, cs).db.rows, PlaceAll(db, org, cs).value.db.rows;
    forall j | i < j < |front|
      ensures !SameEntity(rows, db.nextRow, front, i, j)
    {
      EntityOfFront(db, org, cs, i);
      EntityOfFront(db, org, cs, j);
      assert !SameEntity(rows', db.nextRow, cs, i, j);
    }
  }

  lemma {:induction false} EntitiesAreNamed(db: Db, org: OrgId, cs: seq<Entry>, i: nat)
    requires Valid(db) && PlaceAll(db, org, cs).Ok? && i < |cs|
    ensures Named(PlaceAll(db, org, cs).value.db, org, db.nextRow, cs, i)
  {
    var d' := PlaceAll(db, org, cs).value;
    LastPlaced(db, org, cs);
    EntityOfLast(db, org, cs);
    PlaceAllKeepsValid(db, org, cs);
    if i < |cs| - 1 {
      EntitiesAreNamed(db, org, cs[..|cs| - 1], i);
      EntityOfFront(db, org, cs, i);
      if LastForEntity(d'.db.rows, db.nextRow, cs, i) {
        StillLastForEntity(db, org, cs, i);
        assert !SameEntity(d'.db.rows, db.nextRow, cs, i, |cs| - 1);
      }
    }
  }

  // ---- after the deletions ----

  /** Deleting keeps exactly the retained rows of the organization and the entities that have rows. */
  ghost predicate SweptClean(d: Draft, org: OrgId, db': Db) {
    && Valid(db')
    && (forall r: Id :: MyRow(db', org, r) <==> r in d.retained)
    && (forall r: Id | MyRow(db', org, r) ::
          && MyRow(d.db, org, r)
          && db'.rows[r] == d.db.rows[r]
          && db'.entities[db'.rows[r].entity] == d.db.entities[d.db.rows[r].entity])
    && (forall e | MyEntity(db', org, e) :: HasRows(db'.rows, e))
  }

  lemma SweepIsClean(d: Draft, org: OrgId)
    requires ValidDraft(d, org)
    ensures SweptClean(d, org, Swept(d.db, org, d.retained))
  {
    var db' := Swept(d.db, org, d.retained);
    forall r | r in db'.rows
      ensures db'.rows[r].entity in db'.entities
    {
      assert HasRows(db'.rows, db'.rows[r].entity);
    }
  }

  /** What belongs to other organizations is neither changed, nor deleted, nor added to. */
  ghost predicate OthersUntouched(db: Db, org: OrgId, db': Db) {
    && (forall r | r in db.rows && !MyRow(db, org, r) :: r in db'.rows && db'.rows[r] == db.rows[r])
    && (forall r | r in db'.rows && !MyRow(db', org, r) :: r in db.rows && !MyRow(db, org, r))
    && (forall e | e in db.entities && db.entities[e].org != org ::
         e in db'.entities && db'.entities[e] == db.entities[e])
    && (forall e | e in db'.entities && db'.entities[e].org != org :: e in db.entities && db.entities[e].org != org)
  }

  /** A save of one organization's contacts leaves the contacts of all others alone. */
  lemma OtherOrganizationsUntouched(db: Db, types: set<int>, org: OrgId, inputs: seq<Input>)
    requires Valid(db) && Sync(db, types, org, inputs).Ok?
    ensures OthersUntouched(db, org, Sync(db, types, org, inputs).value)
  {
    var cs := PrepareAll(inputs).value;
    var d := PlaceAll(db, org, cs).value;
    PlaceAllKeepsValid(db, org, cs);
    PlaceAllFrames(db, org, cs);
    SweepIsClean(d, org);
  }

  function MyRows(db: Db, org: OrgId): (rows: set<Id>)
    ensures forall r: Id :: r in rows <==> MyRow(db, org, r)
  {
    set r | r in db.rows && MyRow(db, org, r)
  }

  ghost predicate Listed(cs: seq<Entry>, r: int) {
    exists i :: 0 <= i < |cs| && cs[i].dataId == Some(r)
  }

  lemma {:induction false} NewRowIsNamed(base: int, cs: seq<Entry>, k: nat)
    requires k < NewCount(cs)
    ensures Names(base, cs, base + k)
  {
    if k < NewCount(cs[..|cs| - 1]) {
      NewRowIsNamed(base, cs[..|cs| - 1], k);
      NamesGrow(base, cs, base + k);
    } else {
      assert RowOf(base, cs, |cs| - 1) == base + k;
    }
  }

  lemma {:induction false} NewCountBounds(cs: seq<Entry>, i: nat)
    requires i < |cs| && cs[i].dataId.None?
    ensures NewCount(cs[..i]) < NewCount(cs)
    decreases |cs|
  {
    if i < |cs| - 1 {
      NewCountBounds(cs[..|cs| - 1], i);
      assert cs[..|cs| - 1][..i] == cs[..i];
    }
  }

  lemma NamedIffListedOrNew(base: int, cs: seq<Entry>, r: int)
    ensures Names(base, cs, r) <==> Listed(cs, r) || base <= r < base + NewCount(cs)
  {
    if Names(base, cs, r) {
      var i :| 0 <= i < |cs| && RowOf(base, cs, i) == r;
      if cs[i].dataId.None? {
        NewCountBounds(cs, i);
      }
    }
    if i :| 0 <= i < |cs| && cs[i].dataId == Some(r) {
      assert RowOf(base, cs, i) == r;
    }
    if base <= r < base + NewCount(cs) {
      NewRowIsNamed(base, cs, r - base);
    }
  }

  /**
   After a save the organization has exactly the rows its list names, and one new row for each entry
   without a row id; each holds what the last entry for it says.
   */
  lemma RowsAreTheList(db: Db, types: set<int>, org: OrgId, inputs: seq<Input>)
    requires Valid(db) && Sync(db, types, org, inputs).Ok?
    ensures var cs, db' := PrepareAll(inputs).value, Sync(db, types, org, inputs).value;
            && Valid(db')
            && (forall r: Id :: MyRow(db', org, r) <==> Listed(cs, r) || db.nextRow <= r < db.nextRow + NewCount(cs))
            && (forall i | 0 <= i < |cs| && LastForRow(db.nextRow, cs, i) ::
                  var r := RowOf(db.nextRow, cs, i);
                  MyRow(db', org, r) && db'.rows[r].typeId == cs[i].typeId && db'.rows[r].data == Some(cs[i].value))
  {
    var cs := PrepareAll(inputs).value;
    var d := PlaceAll(db, org, cs).value;
    PlaceAllKeepsValid(db, org, cs);
    RetainedAreNamed(db, org, cs);
    EntriesAreStored(db, org, cs);
    SweepIsClean(d, org);
    forall r: Id
      ensures MyRow(Swept(d.db, org, d.retained), org, r) <==>
                Listed(cs, r) || db.nextRow <= r < db.nextRow + NewCount(cs)
    {
      NamedIffListedOrNew(db.nextRow, cs, r);
    }
    forall i | 0 <= i < |cs| && LastForRow(db.nextRow, cs, i)
      ensures var r := RowOf(db.nextRow, cs, i);
              r in d.retained && d.db.rows[r].typeId == cs[i].typeId && d.db.rows[r].data == Some(cs[i].value)
    {
      assert Names(db.nextRow, cs, RowOf(db.nextRow, cs, i));
      assert Stored(d, db.nextRow, cs, i);
    }
  }

  function Range(from: nat, n: nat): (r: set<Id>)
    ensures |r| == n && forall x: Id :: x in r <==> from <= x < from + n
  {
    if n == 0 then {} else Range(from, n - 1) + {from + n - 1}
  }

  function ListedIds(cs: seq<Entry>): (r: set<Id>)
    ensures forall x: Id :: x in r <==> Listed(cs, x)
  {
    if cs == [] then {}
    else
      var last := cs[|cs| - 1].dataId;
      var r := ListedIds(cs[..|cs| - 1]) + (if last.Some? && last.value >= 0 then {last.value} else {});
      assert forall x: Id :: Listed(cs, x) <==> Listed(cs[..|cs| - 1], x) || last == Some(x) by {
        forall x: Id
          ensures Listed(cs, x) <==> Listed(cs[..|cs| - 1], x) || last == Some(x)
        {
          ListedGrows(cs, x);
        }
      }
      r
  }

  lemma ListedGrows(cs: seq<Entry>, x: int)
    requires cs != []
    ensures Listed(cs, x) <==> Listed(cs[..|cs| - 1], x) || cs[|cs| - 1].dataId == Some(x)
  {
    var front := cs[..|cs| - 1];
    if i :| 0 <= i < |front| && front[i].dataId == Some(x) {
      assert cs[i].dataId == Some(x);
    }
    if i :| 0 <= i < |cs| && cs[i].dataId == Some(x) {
      if i < |front| {
        assert front[i].dataId == Some(x);
      }
    }
  }

  /**
   One row per entry without id, and one per distinct listed id that is not the id of such a new row: the
   number of rows adds up, also when a list guesses the ids of its own new rows.
   */
  lemma RowsAddUp(db: Db, types: set<int>, org: OrgId, inputs: seq<Input>)
    requires Valid(db) && Sync(db, types, org, inputs).Ok?
    ensures var cs := PrepareAll(inputs).value;
            var old' := ListedIds(cs) - Range(db.nextRow, NewCount(cs));
            && |MyRows(Sync(db, types, org, inputs).value, org)| == |old'| + NewCount(cs)
            && ((forall r: Id | Listed(cs, r) :: r in db.rows) ==> old' == ListedIds(cs))
  {
    var cs := PrepareAll(inputs).value;
    var all := MyRows(Sync(db, types, org, inputs).value, org);
    var listed, new' := ListedIds(cs), Range(db.nextRow, NewCount(cs));
    RowsAreTheList(db, types, org, inputs);
    assert all == (listed - new') + new';
  }

  /** The entity of each row, who shares one, and what the entities are called. */
  lemma EntitiesAreTheList(db: Db, types: set<int>, org: OrgId, inputs: seq<Input>)
    requires Valid(db) && Sync(db, types, org, inputs).Ok?
    ensures var cs, db' := PrepareAll(inputs).value, Sync(db, types, org, inputs).value;
            && (forall i | 0 <= i < |cs| :: MyRow(db', org, RowOf(db.nextRow, cs, i)))
            && (forall r | r in db.rows && r in db'.rows :: db'.rows[r].entity == db.rows[r].entity)
            && (forall i | 0 <= i < |cs| :: InItsPlace(db, db', cs, i))
            && (forall e | MyEntity(db', org, e) :: HasRows(db'.rows, e))
  {
    var cs := PrepareAll(inputs).value;
    var d := PlaceAll(db, org, cs).value;
    PlaceAllKeepsValid(db, org, cs);
    RetainedAreNamed(db, org, cs);
    EntriesAtTheirEntities(db, org, cs);
    PlaceAllFrames(db, org, cs);
    SweepIsClean(d, org);
    forall i | 0 <= i < |cs|
      ensures MyRow(Swept(d.db, org, d.retained), org, RowOf(db.nextRow, cs, i))
                && InItsPlace(db, Swept(d.db, org, d.retained), cs, i)
    {
      assert Names(db.nextRow, cs, RowOf(db.nextRow, cs, i));
      assert AtItsEntity(db, d, cs, i);
    }
  }

  /** The entity of entry `i` in the saved tables. */
  function SavedEntity(db: Db, db': Db, cs: seq<Entry>, i: nat): Id
    requires i < |cs| && RowOf(db.nextRow, cs, i) in db'.rows
  {
    db'.rows[RowOf(db.nextRow, cs, i)].entity
  }

  ghost predicate InItsPlace(db: Db, db': Db, cs: seq<Entry>, i: nat)
    requires i < |cs| && RowOf(db.nextRow, cs, i) in db'.rows
  {
    && (Truthy(cs[i].entityId) ==> SavedEntity(db, db', cs, i) == cs[i].entityId.value)
    && (Unplaced(cs[i]) ==> SavedEntity(db, db', cs, i) !in db.entities)
  }

  /** Entries without ids share an entity if and only if they carry the same client key. */
  lemma ClientKeysShareEntities(db: Db, types: set<int>, org: OrgId, inputs: seq<Input>, i: nat, j: nat)
    requires Valid(db) && Sync(db, types, org, inputs).Ok?
    requires i < j < |PrepareAll(inputs).value|
    requires Unplaced(PrepareAll(inputs).value[i]) && Unplaced(PrepareAll(inputs).value[j])
    ensures var cs, db' := PrepareAll(inputs).value, Sync(db, types, org, inputs).value;
            && RowOf(db.nextRow, cs, i) in db'.rows && RowOf(db.nextRow, cs, j) in db'.rows
            && (SavedEntity(db, db', cs, i) == SavedEntity(db, db', cs, j) <==>
                 cs[i].key.Some? && cs[i].key == cs[j].key)
  {
    var cs := PrepareAll(inputs).value;
    var d := PlaceAll(db, org, cs).value;
    PlaceAllKeepsValid(db, org, cs);
    RetainedAreNamed(db, org, cs);
    EntriesShareByKey(db, org, cs, i, j);
    SweepIsClean(d, org);
    assert Names(db.nextRow, cs, RowOf(db.nextRow, cs, i)) && Names(db.nextRow, cs, RowOf(db.nextRow, cs, j));
  }

  /** An entity is called what the last entry that belongs to it says. */
  lemma LastEntryNamesTheEntity(db: Db, types: set<int>, org: OrgId, inputs: seq<Input>, i: nat)
    requires Valid(db) && Sync(db, types, org, inputs).Ok? && i < |PrepareAll(inputs).value|
    ensures Named(Sync(db, types, org, inputs).value, org, db.nextRow, PrepareAll(inputs).value, i)
  {
    var cs := PrepareAll(inputs).value;
    var d := PlaceAll(db, org, cs).value;
    var rows, rows' := d.db.rows, Swept(d.db, org, d.retained).rows;
    PlaceAllKeepsValid(db, org, cs);
    RetainedAreNamed(db, org, cs);
    EntitiesAreNamed(db, org, cs, i);
    SweepIsClean(d, org);
    forall j | 0 <= j < |cs|
      ensures RowOf(db.nextRow, cs, j) in rows' && rows'[RowOf(db.nextRow, cs, j)] == rows[RowOf(db.nextRow, cs, j)]
    {
      assert Names(db.nextRow, cs, RowOf(db.nextRow, cs, j));
    }
    if LastForEntity(rows', db.nextRow, cs, i) {
      forall j | i < j < |cs|
        ensures !SameEntity(rows, db.nextRow, cs, i, j)
      {
        assert !SameEntity(rows', db.nextRow, cs, i, j);
      }
    }
    assert Names(db.nextRow, cs, RowOf(db.nextRow, cs, i));
  }

  // ---- sending back what is stored ----

  /** An entry that repeats a stored row and its entity; zero for the entity id counts as absent. */
  ghost predicate Repeats(db: Db, org: OrgId, c: Entry) {
    && c.dataId.Some? && MyRow(db, org, c.dataId.value)
    && var row := db.rows[c.dataId.value];
       && (Truthy(c.entityId) ==> c.entityId.value == row.entity)
       && row == Row(row.entity, c.typeId, Some(c.value))
       && db.entities[row.entity] == Entity(org, c.name, c.post)
  }

  lemma {:induction false} RepeatingPlacesNothing(db: Db, org: OrgId, cs: seq<Entry>)
    requires Valid(db) && forall i | 0 <= i < |cs| :: Repeats(db, org, cs[i])
    ensures PlaceAll(db, org, cs).Ok?
    ensures PlaceAll(db, org, cs).value.db == db
    ensures forall r: Id :: r in PlaceAll(db, org, cs).value.retained <==> Listed(cs, r)
  {
    if cs != [] {
      var front, c := cs[..|cs| - 1], cs[|cs| - 1];
      RepeatingPlacesNothing(db, org, front);
      assert Repeats(db, org, c);
      var r := c.dataId.value;
      assert db.rows[r := db.rows[r]] == db.rows;
      assert db.entities[db.rows[r].entity := db.entities[db.rows[r].entity]] == db.entities;
      forall x: Id
        ensures x in PlaceAll(db, org, cs).value.retained <==> Listed(cs, x)
      {
        ListedGrows(cs, x);
      }
    }
  }

  /** Every row of the organization repeated, in any order and any number of times, changes nothing. */
  lemma RepeatingChangesNothing(db: Db, types: set<int>, org: OrgId, cs: seq<Entry>)
    requires Valid(db) && KnownTypes(types, cs)
    requires forall e | MyEntity(db, org, e) :: HasRows(db.rows, e)
    requires forall i | 0 <= i < |cs| :: Repeats(db, org, cs[i])
    requires forall r: Id | MyRow(db, org, r) :: Listed(cs, r)
    ensures SyncEntries(db, types, org, cs) == Ok(db)
  {
    RepeatingPlacesNothing(db, org, cs);
    var d := PlaceAll(db, org, cs).value;
    assert KeptRows(db, org, d.retained) == db.rows;
    assert KeptEntities(db.entities, db.rows, org) == db.entities;
  }

  /** Everything a save writes is clean, short enough and of a known type. */
  ghost predicate CleanRow(types: set<int>, db: Db, org: OrgId, r: Id) {
    MyRow(db, org, r) ==>
      var row := db.rows[r];
      var entity := db.entities[row.entity];
      && row.data.Some? && Clean(row.data) && |row.data.value| <= MAX_VALUE
      && row.typeId in types
      && Clean(entity.name) && FitsLimit(entity.name, MAX_NAME)
      && Clean(entity.post) && FitsLimit(entity.post, MAX_POST)
  }

  predicate CleanEntry(c: Entry) {
    && Clean(Some(c.value)) && |c.value| <= MAX_VALUE
    && Clean(c.name) && FitsLimit(c.name, MAX_NAME)
    && Clean(c.post) && FitsLimit(c.post, MAX_POST)
  }

  lemma PreparedIsClean(input: Input)
    requires Prepare(input).Ok? && Prepare(input).value.Some?
    ensures CleanEntry(Prepare(input).value.value)
  {
    NormalizeIsClean(input.value);
    NormalizeIsClean(input.name);
    NormalizeIsClean(input.post);
  }

  lemma {:induction false} AllPreparedAreClean(inputs: seq<Input>)
    requires PrepareAll(inputs).Ok?
    ensures forall i | 0 <= i < |PrepareAll(inputs).value| :: CleanEntry(PrepareAll(inputs).value[i])
  {
    if inputs != [] {
      AllPreparedAreClean(inputs[..|inputs| - 1]);
      if Prepare(inputs[|inputs| - 1]).value.Some? {
        PreparedIsClean(inputs[|inputs| - 1]);
      }
    }
  }

  lemma {:induction false} PlacedAreClean(db: Db, types: set<int>, org: OrgId, cs: seq<Entry>)
    requires Valid(db) && KnownTypes(types, cs) && PlaceAll(db, org, cs).Ok?
    requires forall i | 0 <= i < |cs| :: CleanEntry(cs[i])
    ensures forall r | r in PlaceAll(db, org, cs).value.retained ::
              CleanRow(types, PlaceAll(db, org, cs).value.db, org, r)
  {
    if cs != [] {
      PlacedAreClean(db, types, org, cs[..|cs| - 1]);
      LastPlaced(db, org, cs);
      var d, d' := Before(db, org, cs), PlaceAll(db, org, cs).value;
      assert CleanEntry(cs[|cs| - 1]);
      forall r | r in d'.retained
        ensures CleanRow(types, d'.db, org, r)
      {
        assert r in d.retained ==> CleanRow(types, d.db, org, r);
      }
    }
  }

  /** A form field that shows one stored row. */
  ghost predicate ShowsRow(db: Db, org: OrgId, input: Input) {
    && input.dataId.Some? && MyRow(db, org, input.dataId.value)
    && var row := db.rows[input.dataId.value];
       && (Truthy(input.entityId) ==> input.entityId.value == row.entity)
       && input.key == None
       && input.typeId == Some(row.typeId) && input.value == row.data
       && input.name == db.entities[row.entity].name && input.post == db.entities[row.entity].post
  }

  lemma ShownRowRepeats(db: Db, types: set<int>, org: OrgId, input: Input)
    requires ShowsRow(db, org, input) && CleanRow(types, db, org, input.dataId.value)
    ensures Prepare(input).Ok? && Prepare(input).value.Some?
    ensures var c := Prepare(input).value.value;
            Repeats(db, org, c) && c.typeId in types && c.dataId == input.dataId
  {
  }

  lemma {:induction false} ShownRowsRepeat(db: Db, types: set<int>, org: OrgId, inputs: seq<Input>)
    requires forall i | 0 <= i < |inputs| :: ShowsRow(db, org, inputs[i])
    requires forall r: Id :: CleanRow(types, db, org, r)
    ensures PrepareAll(inputs).Ok? && |PrepareAll(inputs).value| == |inputs|
    ensures KnownTypes(types, PrepareAll(inputs).value)
    ensures forall i | 0 <= i < |inputs| ::
              Repeats(db, org, PrepareAll(inputs).value[i]) && PrepareAll(inputs).value[i].dataId == inputs[i].dataId
  {
    if inputs != [] {
      ShownRowsRepeat(db, types, org, inputs[..|inputs| - 1]);
      ShownRowRepeats(db, types, org, inputs[|inputs| - 1]);
    }
  }

  /** The form shows every row of the organization, in whatever order. */
  ghost predicate ShowsAll(db: Db, org: OrgId, inputs: seq<Input>) {
    && (forall i | 0 <= i < |inputs| :: ShowsRow(db, org, inputs[i]))
    && (forall r: Id | MyRow(db, org, r) :: exists i :: 0 <= i < |inputs| && inputs[i].dataId == Some(r))
  }

  /** Saving a form and sending back what it then shows changes nothing. */
  lemma ResubmittingChangesNothing(db: Db, types: set<int>, org: OrgId, inputs: seq<Input>, again: seq<Input>)
    requires Valid(db) && Sync(db, types, org, inputs).Ok?
    requires ShowsAll(Sync(db, types, org, inputs).value, org, again)
    ensures var db' := Sync(db, types, org, inputs).value;
            Sync(db', types, org, again) == Ok(db')
  {
    var cs, db' := PrepareAll(inputs).value, Sync(db, types, org, inputs).value;
    SavedRowsAreClean(db, types, org, inputs);
    ShownRowsRepeat(db', types, org, again);
    var shown := PrepareAll(again).value;
    forall r: Id | MyRow(db', org, r)
      ensures Listed(shown, r)
    {
      var i :| 0 <= i < |again| && again[i].dataId == Some(r);
      assert shown[i].dataId == Some(r);
    }
    RepeatingChangesNothing(db', types, org, shown);
  }

  lemma SavedRowsAreClean(db: Db, types: set<int>, org: OrgId, inputs: seq<Input>)
    requires Valid(db) && Sync(db, types, org, inputs).Ok?
    ensures var db' := Sync(db, types, org, inputs).value;
            && Valid(db')
            && (forall r: Id :: CleanRow(types, db', org, r))
            && (forall e | MyEntity(db', org, e) :: HasRows(db'.rows, e))
  {
    var cs, db' := PrepareAll(inputs).value, Sync(db, types, org, inputs).value;
    var d := PlaceAll(db, org, cs).value;
    AllPreparedAreClean(inputs);
    PlacedAreClean(db, types, org, cs);
    PlaceAllKeepsValid(db, org, cs);
    SweepIsClean(d, org);
    forall r: Id
      ensures CleanRow(types, db', org, r)
    {
      if MyRow(db', org, r) {
        assert CleanRow(types, d.db, org, r);
      }
    }
  }
}
