/**
 The requisites of an organization card and its INN column within one save: the payload is applied
 row by row, the INN is read back from the rows, and it may only change to a value for which the
 save took the INN lock beforehand.
 */
module CardInn {
  import opened Options
  import opened Text

  type Id = nat
  type TypeId = nat

  /** A row of the requisites of the organization being saved. */
  datatype Requisite = Requisite(id: Id, typeId: TypeId, data: Option<string>)
  datatype Input = Input(id: Option<Id>, typeId: Option<TypeId>, value: Option<string>)

  datatype Error = TooLong | Vanished | NoType | SeveralInns | MalformedInn | InnTaken

  const MAX_REQUISITE_LENGTH := 4096

  // ---- _sync_requisites ----

  /** The rows in the session, and the ids marked for deletion: they go at the flush, whatever else is set on them. */
  datatype Draft = Draft(rows: seq<Requisite>, deleted: set<Id>, nextId: Id)

  predicate HasRow(rows: seq<Requisite>, id: Id) {
    exists i :: 0 <= i < |rows| && rows[i].id == id
  }

  function UpdateRow(row: Requisite, id: Id, value: string, typeId: Option<TypeId>): Requisite {
    if row.id == id then row.(data := Some(value), typeId := typeId.GetOr(row.typeId)) else row
  }

  function UpdateRows(rows: seq<Requisite>, id: Id, value: string, typeId: Option<TypeId>): seq<Requisite> {
    seq(|rows|, i requires 0 <= i < |rows| => UpdateRow(rows[i], id, value, typeId))
  }

  /** One round of the loop; `existing` are the rows loaded before it. */
  function ApplyInput(existing: seq<Requisite>, d: Draft, input: Input): Result<Draft, Error> {
    if !FitsLimit(input.value, MAX_REQUISITE_LENGTH) then Err(TooLong)
    else
      var value := Normalize(input.value);
      if input.id.Some? then
        if !HasRow(existing, input.id.value) then Err(Vanished)
        else if value.None? then Ok(d.(deleted := d.deleted + {input.id.value}))
        else Ok(d.(rows := UpdateRows(d.rows, input.id.value, value.value, input.typeId)))
      else if value.None? then Ok(d)
      else if input.typeId.None? then Err(NoType)
      else Ok(d.(rows := d.rows + [Requisite(d.nextId, input.typeId.value, value)], nextId := d.nextId + 1))
  }

  function ApplyInputs(existing: seq<Requisite>, d: Draft, inputs: seq<Input>): Result<Draft, Error> {
    if inputs == [] then Ok(d)
    else
      match ApplyInputs(existing, d, inputs[..|inputs| - 1])
      case Err(e) => Err(e)
      case Ok(before) => ApplyInput(existing, before, inputs[|inputs| - 1])
  }

  function Flush(d: Draft): seq<Requisite> {
    Remaining(d.rows, d.deleted)
  }

  function Remaining(rows: seq<Requisite>, deleted: set<Id>): seq<Requisite> {
    if rows == [] then []
    else Remaining(rows[..|rows| - 1], deleted) + (if rows[|rows| - 1].id in deleted then [] else [rows[|rows| - 1]])
  }

  function SyncRequisites(existing: seq<Requisite>, nextId: Id, inputs: seq<Input>): Result<seq<Requisite>, Error> {
    match ApplyInputs(existing, Draft(existing, {}, nextId), inputs)
    case Err(e) => Err(e)
    case Ok(d) => Ok(Flush(d))
  }

  // ---- _prepare_inn_from_payload and _sync_organization_inn ----

  /** The values the payload gives under the INN type. */
  function PayloadInns(innType: TypeId, inputs: seq<Input>): seq<string> {
    if inputs == [] then []
    else
      var last := inputs[|inputs| - 1];
      PayloadInns(innType, inputs[..|inputs| - 1])
      + (if last.typeId == Some(innType) && Normalize(last.value).Some? then [Normalize(last.value).value] else [])
  }

  /** The non-empty INN values of the rows. */
  function StoredInns(innType: TypeId, rows: seq<Requisite>): seq<string> {
    if rows == [] then []
    else
      var last := rows[|rows| - 1];
      StoredInns(innType, rows[..|rows| - 1])
      + (if last.typeId == innType && Normalize(last.data).Some? then [Normalize(last.data).value] else [])
  }

  function SingleInn(values: seq<string>): Result<Option<string>, Error> {
    if |values| > 1 then Err(SeveralInns)
    else if values == [] then Ok(None)
    else if IsInn(values[0]) then Ok(Some(values[0]))
    else Err(MalformedInn)
  }

  function PrepareInn(innType: TypeId, inputs: seq<Input>): Result<Option<string>, Error> {
    SingleInn(PayloadInns(innType, inputs))
  }

  /** `others` are the INNs carried by other organizations at the locking read. */
  function SyncInn(innType: TypeId, rows: seq<Requisite>, previous: Option<string>, others: set<string>)
    : Result<Option<string>, Error>
  {
    match SingleInn(StoredInns(innType, rows))
    case Err(e) => Err(e)
    case Ok(None) => Ok(None)
    case Ok(Some(inn)) => if Some(inn) != previous && inn in others then Err(InnTaken) else Ok(Some(inn))
  }

  /** The INN lock this save takes before it writes. */
  function LockedInn(innType: TypeId, inputs: seq<Input>, previous: Option<string>): Option<string> {
    match PrepareInn(innType, inputs)
    case Ok(Some(inn)) => if Some(inn) != previous then Some(inn) else None
    case _ => None
  }

  /** The whole save as far as the INN is concerned: the new rows and the new column. */
  function Save(innType: TypeId, existing: seq<Requisite>, nextId: Id, previous: Option<string>,
                inputs: seq<Input>, others: set<string>): Result<(seq<Requisite>, Option<string>), Error>
  {
    match PrepareInn(innType, inputs)
    case Err(e) => Err(e)
    case Ok(_) =>
      match SyncRequisites(existing, nextId, inputs)
      case Err(e) => Err(e)
      case Ok(rows) =>
        match SyncInn(innType, rows, previous, others)
        case Err(e) => Err(e)
        case Ok(inn) => Ok((rows, inn))
  }

  // ---- the column follows the rows ----

  /** The INN column is the one trimmed INN requisite, or empty when there is none. */
  predicate Agrees(innType: TypeId, rows: seq<Requisite>, inn: Option<string>) {
    StoredInns(innType, rows) == if inn.Some? then [inn.value] else []
  }

  /** Every successful save leaves column and requisite in agreement, whatever they were before. */
  lemma SaveAgrees(innType: TypeId, existing: seq<Requisite>, nextId: Id, previous: Option<string>,
                   inputs: seq<Input>, others: set<string>)
    requires Save(innType, existing, nextId, previous, inputs, others).Ok?
    ensures var (rows, inn) := Save(innType, existing, nextId, previous, inputs, others).value;
            Agrees(innType, rows, inn) && (inn.Some? ==> IsInn(inn.value))
  {
  }

  /** No row under the INN type is blank; manual saves delete a row rather than blank it. */
  predicate NoBlankInn(innType: TypeId, rows: seq<Requisite>) {
    forall i | 0 <= i < |rows| && rows[i].typeId == innType :: Normalize(rows[i].data).Some?
  }

  /** Column and rows agree, and there is one INN row or none. */
  predicate Sound(innType: TypeId, rows: seq<Requisite>, inn: Option<string>) {
    NoBlankInn(innType, rows) && Agrees(innType, rows, inn)
  }

  lemma {:induction false} InputsLeaveNoBlank(innType: TypeId, existing: seq<Requisite>, nextId: Id, inputs: seq<Input>)
    requires NoBlankInn(innType, existing) && ApplyInputs(existing, Draft(existing, {}, nextId), inputs).Ok?
    ensures NoBlankInn(innType, ApplyInputs(existing, Draft(existing, {}, nextId), inputs).value.rows)
  {
    if inputs != [] {
      var front, last := inputs[..|inputs| - 1], inputs[|inputs| - 1];
      InputsLeaveNoBlank(innType, existing, nextId, front);
      NormalizeIsClean(last.value);
    }
  }

  /** A save keeps a sound card sound. */
  lemma SaveKeepsSound(innType: TypeId, existing: seq<Requisite>, nextId: Id, previous: Option<string>,
                       inputs: seq<Input>, others: set<string>)
    requires NoBlankInn(innType, existing) && Save(innType, existing, nextId, previous, inputs, others).Ok?
    ensures var (rows, inn) := Save(innType, existing, nextId, previous, inputs, others).value;
            Sound(innType, rows, inn)
  {
    var rows := Save(innType, existing, nextId, previous, inputs, others).value.0;
    var d := ApplyInputs(existing, Draft(existing, {}, nextId), inputs).value;
    InputsLeaveNoBlank(innType, existing, nextId, inputs);
    RemainingSubset(d.rows, d.deleted);
    forall i | 0 <= i < |rows| && rows[i].typeId == innType
      ensures Normalize(rows[i].data).Some?
    {
      assert rows[i] in d.rows;
    }
    SaveAgrees(innType, existing, nextId, previous, inputs, others);
  }

  predicate AtMostOneRow(innType: TypeId, rows: seq<Requisite>) {
    forall i, j | 0 <= i < j < |rows| && rows[i].typeId == innType :: rows[j].typeId != innType
  }

  lemma {:induction false} SoundHasOneRow(innType: TypeId, rows: seq<Requisite>)
    requires NoBlankInn(innType, rows) && |StoredInns(innType, rows)| <= 1
    ensures AtMostOneRow(innType, rows)
    ensures StoredInns(innType, rows) == [] ==> forall i | 0 <= i < |rows| :: rows[i].typeId != innType
  {
    if rows != [] {
      SoundHasOneRow(innType, rows[..|rows| - 1]);
      assert forall i | 0 <= i < |rows| - 1 :: rows[i] == rows[..|rows| - 1][i];
    }
  }

  lemma {:induction false} OneRowIsTheInn(innType: TypeId, rows: seq<Requisite>, k: nat)
    requires forall i | 0 <= i < |rows| && i != k :: rows[i].typeId != innType
    requires k < |rows| ==> rows[k].typeId == innType && Normalize(rows[k].data).Some?
    ensures StoredInns(innType, rows) == if k < |rows| then [Normalize(rows[k].data).value] else []
  {
    if rows != [] {
      OneRowIsTheInn(innType, rows[..|rows| - 1], k);
    }
  }

  // ---- a changed INN is a locked INN ----

  /** Every input that rewrites a row says which type it is. */
  predicate Typed(inputs: seq<Input>) {
    forall i | 0 <= i < |inputs| && inputs[i].id.Some? && Normalize(inputs[i].value).Some? :: inputs[i].typeId.Some?
  }

  /** An INN found in a row was there before, or stands in the payload under the INN type. */
  ghost predicate Accounted(innType: TypeId, existing: seq<Requisite>, inputs: seq<Input>, row: Requisite) {
    row.typeId == innType && Normalize(row.data).Some? ==>
      row in existing || Normalize(row.data).value in PayloadInns(innType, inputs)
  }

  lemma {:induction false} InputsAccounted(innType: TypeId, existing: seq<Requisite>, nextId: Id, inputs: seq<Input>)
    requires Typed(inputs) && ApplyInputs(existing, Draft(existing, {}, nextId), inputs).Ok?
    ensures var d := ApplyInputs(existing, Draft(existing, {}, nextId), inputs).value;
            forall i | 0 <= i < |d.rows| :: Accounted(innType, existing, inputs, d.rows[i])
  {
    if inputs != [] {
      var front, last := inputs[..|inputs| - 1], inputs[|inputs| - 1];
      InputsAccounted(innType, existing, nextId, front);
      var before := ApplyInputs(existing, Draft(existing, {}, nextId), front).value;
      var after := ApplyInputs(existing, Draft(existing, {}, nextId), inputs).value;
      NormalizeIsClean(last.value);
      forall i | 0 <= i < |after.rows|
        ensures Accounted(innType, existing, inputs, after.rows[i])
      {
        if i < |before.rows| {
          assert Accounted(innType, existing, front, before.rows[i]);
        }
      }
    }
  }

  lemma {:induction false} RemainingSubset(rows: seq<Requisite>, deleted: set<Id>)
    ensures forall row | row in Remaining(rows, deleted) :: row in rows && row.id !in deleted
    ensures forall row | row in rows && row.id !in deleted :: row in Remaining(rows, deleted)
  {
    if rows != [] {
      RemainingSubset(rows[..|rows| - 1], deleted);
      assert rows == rows[..|rows| - 1] + [rows[|rows| - 1]];
    }
  }

  lemma {:induction false} StoredInnsMember(innType: TypeId, rows: seq<Requisite>, inn: string)
    ensures inn in StoredInns(innType, rows) <==>
              exists i :: 0 <= i < |rows| && rows[i].typeId == innType && Normalize(rows[i].data) == Some(inn)
  {
    if rows != [] {
      var front := rows[..|rows| - 1];
      StoredInnsMember(innType, front, inn);
      if i :| 0 <= i < |rows| && rows[i].typeId == innType && Normalize(rows[i].data) == Some(inn) {
        if i < |front| {
          assert front[i] == rows[i];
        }
      }
      if inn in StoredInns(innType, front) {
        var i :| 0 <= i < |front| && front[i].typeId == innType && Normalize(front[i].data) == Some(inn);
        assert rows[i] == front[i];
      }
    }
  }

  /** An INN read back from the saved rows and not from the loaded ones stands in the payload. */
  lemma NewInnStandsInPayload(innType: TypeId, existing: seq<Requisite>, nextId: Id, inputs: seq<Input>, inn: string)
    requires Typed(inputs) && SyncRequisites(existing, nextId, inputs).Ok?
    requires inn in StoredInns(innType, SyncRequisites(existing, nextId, inputs).value)
    requires inn !in StoredInns(innType, existing)
    ensures inn in PayloadInns(innType, inputs)
  {
    var rows := SyncRequisites(existing, nextId, inputs).value;
    var d := ApplyInputs(existing, Draft(existing, {}, nextId), inputs).value;
    InputsAccounted(innType, existing, nextId, inputs);
    RemainingSubset(d.rows, d.deleted);
    StoredInnsMember(innType, rows, inn);
    var i :| 0 <= i < |rows| && rows[i].typeId == innType && Normalize(rows[i].data) == Some(inn);
    var row := rows[i];
    assert row in d.rows;
    var k :| 0 <= k < |d.rows| && d.rows[k] == row;
    assert Accounted(innType, existing, inputs, d.rows[k]);
    if row in existing {
      StoredInnsMember(innType, existing, inn);
    }
  }

  /**
   If the card agreed before and every rewritten row says its type, then a save that changes the INN
   changes it to the value whose lock it holds.
   */
  lemma ChangedInnIsLocked(innType: TypeId, existing: seq<Requisite>, nextId: Id, previous: Option<string>,
                           inputs: seq<Input>, others: set<string>)
    requires Agrees(innType, existing, previous) && Typed(inputs)
    requires Save(innType, existing, nextId, previous, inputs, others).Ok?
    ensures var inn := Save(innType, existing, nextId, previous, inputs, others).value.1;
            inn.Some? && inn != previous ==> LockedInn(innType, inputs, previous) == inn
  {
    var (rows, inn) := Save(innType, existing, nextId, previous, inputs, others).value;
    if inn.Some? && inn != previous {
      SaveAgrees(innType, existing, nextId, previous, inputs, others);
      assert inn.value in StoredInns(innType, rows);
      NewInnStandsInPayload(innType, existing, nextId, inputs, inn.value);
    }
  }

  // ---- a payload that names the INN ----

  predicate DistinctIds(inputs: seq<Input>) {
    forall i, j | 0 <= i < j < |inputs| && inputs[i].id.Some? :: inputs[i].id != inputs[j].id
  }

  ghost predicate Names(inputs: seq<Input>, id: Id) {
    exists i :: 0 <= i < |inputs| && inputs[i].id == Some(id)
  }

  /** New ids are above all the loaded ones. */
  predicate IdsBelow(rows: seq<Requisite>, nextId: Id) {
    forall i | 0 <= i < |rows| :: rows[i].id < nextId
  }

  /** Loaded rows keep their places, and only rows the payload names are deleted. */
  ghost predicate Shaped(existing: seq<Requisite>, nextId: Id, inputs: seq<Input>, d: Draft) {
    && d.nextId >= nextId
    && |d.rows| >= |existing|
    && (forall i | 0 <= i < |existing| :: d.rows[i].id == existing[i].id)
    && (forall id | id in d.deleted :: Names(inputs, id) && id < nextId)
  }

  lemma {:induction false} DraftShape(existing: seq<Requisite>, nextId: Id, inputs: seq<Input>)
    requires IdsBelow(existing, nextId) && ApplyInputs(existing, Draft(existing, {}, nextId), inputs).Ok?
    ensures var d := ApplyInputs(existing, Draft(existing, {}, nextId), inputs).value;
            Shaped(existing, nextId, inputs, d)
  {
    if inputs != [] {
      var front, last := inputs[..|inputs| - 1], inputs[|inputs| - 1];
      DraftShape(existing, nextId, front);
      var before := ApplyInputs(existing, Draft(existing, {}, nextId), front).value;
      var after := ApplyInputs(existing, Draft(existing, {}, nextId), inputs).value;
      forall id | id in after.deleted
        ensures Names(inputs, id) && id < nextId
      {
        if id in before.deleted {
          var i :| 0 <= i < |front| && front[i].id == Some(id);
          assert inputs[i].id == Some(id);
        } else {
          assert inputs[|front|].id == Some(id);
        }
      }
    }
  }

  /** A row that holds the INN and that no later input of a payload with distinct ids can touch. */
  ghost predicate Settled(innType: TypeId, nextId: Id, inputs: seq<Input>, d: Draft, row: Requisite, inn: string) {
    && row.typeId == innType
    && row.data == Some(inn)
    && row.id !in d.deleted
    && (Names(inputs, row.id) || row.id >= nextId)
  }

  ghost predicate HasSettled(innType: TypeId, nextId: Id, inputs: seq<Input>, d: Draft, inn: string) {
    exists i :: 0 <= i < |d.rows| && Settled(innType, nextId, inputs, d, d.rows[i], inn)
  }

  lemma SettledStays(
    innType: TypeId, existing: seq<Requisite>, nextId: Id, inputs: seq<Input>, before: Draft, inn: string)
    requires inputs != [] && DistinctIds(inputs) && IdsBelow(existing, nextId)
    requires HasSettled(innType, nextId, inputs[..|inputs| - 1], before, inn)
    requires ApplyInput(existing, before, inputs[|inputs| - 1]).Ok?
    ensures HasSettled(innType, nextId, inputs, ApplyInput(existing, before, inputs[|inputs| - 1]).value, inn)
  {
    var front, last := inputs[..|inputs| - 1], inputs[|inputs| - 1];
    var after := ApplyInput(existing, before, last).value;
    var i :| 0 <= i < |before.rows| && Settled(innType, nextId, front, before, before.rows[i], inn);
    var row := before.rows[i];
    if Names(front, row.id) {
      var k :| 0 <= k < |front| && front[k].id == Some(row.id);
      assert inputs[k].id == Some(row.id);
      assert inputs[k].id != last.id;
    }
    assert last.id != Some(row.id);
    assert after.rows[i] == row;
    assert Settled(innType, nextId, inputs, after, after.rows[i], inn);
  }

  lemma LastInputSettles(innType: TypeId, existing: seq<Requisite>, nextId: Id, inputs: seq<Input>, before: Draft)
    requires inputs != [] && DistinctIds(inputs) && Shaped(existing, nextId, inputs[..|inputs| - 1], before)
    requires inputs[|inputs| - 1].typeId == Some(innType) && Normalize(inputs[|inputs| - 1].value).Some?
    requires ApplyInput(existing, before, inputs[|inputs| - 1]).Ok?
    ensures HasSettled(innType, nextId, inputs, ApplyInput(existing, before, inputs[|inputs| - 1]).value,
                       Normalize(inputs[|inputs| - 1].value).value)
  {
    var last := inputs[|inputs| - 1];
    var inn := Normalize(last.value).value;
    var after := ApplyInput(existing, before, last).value;
    if last.id.Some? {
      var i :| 0 <= i < |existing| && existing[i].id == last.id.value;
      assert before.rows[i].id == last.id.value;
      assert Names(inputs, last.id.value);
      assert Settled(innType, nextId, inputs, after, after.rows[i], inn);
    } else {
      assert before.nextId !in before.deleted;
      assert Settled(innType, nextId, inputs, after, after.rows[|before.rows|], inn);
    }
  }

  lemma {:induction false} NamedInnSettles(
    innType: TypeId, existing: seq<Requisite>, nextId: Id, inputs: seq<Input>, inn: string)
    requires DistinctIds(inputs) && IdsBelow(existing, nextId)
    requires ApplyInputs(existing, Draft(existing, {}, nextId), inputs).Ok?
    requires inn in PayloadInns(innType, inputs)
    ensures HasSettled(innType, nextId, inputs, ApplyInputs(existing, Draft(existing, {}, nextId), inputs).value, inn)
  {
    var front, last := inputs[..|inputs| - 1], inputs[|inputs| - 1];
    if inn in PayloadInns(innType, front) {
      NamedInnSettles(innType, existing, nextId, front, inn);
      SettledStays(innType, existing, nextId, inputs,
                   ApplyInputs(existing, Draft(existing, {}, nextId), front).value, inn);
    } else {
      DraftShape(existing, nextId, front);
      LastInputSettles(innType, existing, nextId, inputs,
                       ApplyInputs(existing, Draft(existing, {}, nextId), front).value);
    }
  }

  lemma NamedInnIsInARow(innType: TypeId, existing: seq<Requisite>, nextId: Id, inputs: seq<Input>, inn: string)
    requires DistinctIds(inputs) && IdsBelow(existing, nextId) && SyncRequisites(existing, nextId, inputs).Ok?
    requires IsInn(inn) && inn in PayloadInns(innType, inputs)
    ensures inn in StoredInns(innType, SyncRequisites(existing, nextId, inputs).value)
  {
    var rows := SyncRequisites(existing, nextId, inputs).value;
    var d := ApplyInputs(existing, Draft(existing, {}, nextId), inputs).value;
    NamedInnSettles(innType, existing, nextId, inputs, inn);
    var i :| 0 <= i < |d.rows| && Settled(innType, nextId, inputs, d, d.rows[i], inn);
    RemainingSubset(d.rows, d.deleted);
    assert d.rows[i] in rows;
    var k :| 0 <= k < |rows| && rows[k] == d.rows[i];
    InnIsStripped(inn);
    StoredInnsMember(innType, rows, inn);
  }

  /**
   A payload that names the INN under its type, and names no row twice, makes that INN the new column
   or fails; whatever the card held before, a changed INN is the one whose lock the save holds.
   */
  lemma NamedInnIsStored(innType: TypeId, existing: seq<Requisite>, nextId: Id, previous: Option<string>,
                         inputs: seq<Input>, others: set<string>)
    requires DistinctIds(inputs) && IdsBelow(existing, nextId) && PayloadInns(innType, inputs) != []
    requires Save(innType, existing, nextId, previous, inputs, others).Ok?
    ensures var inn := Save(innType, existing, nextId, previous, inputs, others).value.1;
            && inn.Some?
            && PayloadInns(innType, inputs) == [inn.value]
            && (inn != previous ==> LockedInn(innType, inputs, previous) == inn)
  {
    var inn := PayloadInns(innType, inputs)[0];
    NamedInnIsInARow(innType, existing, nextId, inputs, inn);
    SaveAgrees(innType, existing, nextId, previous, inputs, others);
  }

  /**
   A save that changes the INN holds the lock of the new one if and only if that INN is the one its payload
   names; for payloads that name no row twice, if and only if the payload names an INN under its type at all.
   */
  lemma ChangedInnIsLockedIff(innType: TypeId, existing: seq<Requisite>, nextId: Id, previous: Option<string>,
                              inputs: seq<Input>, others: set<string>)
    requires Save(innType, existing, nextId, previous, inputs, others).Ok?
    requires var inn := Save(innType, existing, nextId, previous, inputs, others).value.1; inn.Some? && inn != previous
    ensures var inn := Save(innType, existing, nextId, previous, inputs, others).value.1;
            && (LockedInn(innType, inputs, previous) == inn <==> PayloadInns(innType, inputs) == [inn.value])
            && (DistinctIds(inputs) && IdsBelow(existing, nextId) ==>
                  (LockedInn(innType, inputs, previous) == inn <==> PayloadInns(innType, inputs) != []))
  {
    if DistinctIds(inputs) && IdsBelow(existing, nextId) && PayloadInns(innType, inputs) != [] {
      NamedInnIsStored(innType, existing, nextId, previous, inputs, others);
    }
  }

  /** An empty payload takes over, without a lock, an INN row that the column did not show. */
  lemma EmptyPayloadEscapesLock(innType: TypeId, nextId: Id, inn: string)
    requires IsInn(inn)
    ensures var existing := [Requisite(0, innType, Some(inn))];
            && Typed([])
            && LockedInn(innType, [], None) == None
            && Save(innType, existing, nextId, None, [], {}) == Ok((existing, Some(inn)))
  {
    InnIsStripped(inn);
    var existing := [Requisite(0, innType, Some(inn))];
    OneRow(innType, existing[0]);
    assert SyncRequisites(existing, nextId, []) == Ok(existing);
    assert StoredInns(innType, existing) == [inn];
    assert SyncInn(innType, existing, None, {}) == Ok(Some(inn));
  }

  /** With no rows before, every row has a new id, so nothing is rewritten or deleted. */
  lemma {:induction false} CreateOnlyAdds(innType: TypeId, nextId: Id, inputs: seq<Input>)
    requires ApplyInputs([], Draft([], {}, nextId), inputs).Ok?
    ensures var d := ApplyInputs([], Draft([], {}, nextId), inputs).value;
            d.deleted == {} && StoredInns(innType, d.rows) == PayloadInns(innType, inputs)
  {
    if inputs != [] {
      var front, last := inputs[..|inputs| - 1], inputs[|inputs| - 1];
      CreateOnlyAdds(innType, nextId, front);
      var before := ApplyInputs([], Draft([], {}, nextId), front).value;
      var value := Normalize(last.value);
      NormalizeIsClean(last.value);
      if value.Some? {
        var row := Requisite(before.nextId, last.typeId.value, value);
        assert (before.rows + [row])[..|before.rows|] == before.rows;
      }
    }
  }

  lemma {:induction false} NothingDeleted(rows: seq<Requisite>)
    ensures Remaining(rows, {}) == rows
  {
    if rows != [] {
      NothingDeleted(rows[..|rows| - 1]);
    }
  }

  /** A new card stores exactly the INN of its payload, and holds its lock. */
  lemma CreateKeepsPayloadInn(innType: TypeId, nextId: Id, inputs: seq<Input>, others: set<string>)
    requires PayloadInns(innType, inputs) != []
    requires Save(innType, [], nextId, None, inputs, others).Ok?
    ensures var inn := Save(innType, [], nextId, None, inputs, others).value.1;
            inn.Some? && PayloadInns(innType, inputs) == [inn.value] && LockedInn(innType, inputs, None) == inn
  {
    CreateOnlyAdds(innType, nextId, inputs);
    NothingDeleted(ApplyInputs([], Draft([], {}, nextId), inputs).value.rows);
  }

  /** A card whose INN does not change is savable even if others carry the same INN. */
  lemma UnchangedInnNeverRefused(innType: TypeId, rows: seq<Requisite>, previous: Option<string>, others: set<string>)
    requires Agrees(innType, rows, previous) && (previous.Some? ==> IsInn(previous.value))
    ensures SyncInn(innType, rows, previous, others) == Ok(previous)
  {
  }

  /** An input that rewrites the INN row without naming its type changes the INN with no lock taken. */
  lemma UntypedInputEscapesLock(innType: TypeId, nextId: Id, first: string, second: string)
    requires IsInn(first) && IsInn(second) && first != second
    ensures var existing := [Requisite(0, innType, Some(first))];
            var inputs := [Input(Some(0), None, Some(second))];
            && Agrees(innType, existing, Some(first))
            && LockedInn(innType, inputs, Some(first)) == None
            && Save(innType, existing, nextId, Some(first), inputs, {}).Ok?
            && Save(innType, existing, nextId, Some(first), inputs, {}).value.1 == Some(second)
  {
    var row, input := Requisite(0, innType, Some(first)), Input(Some(0), None, Some(second));
    InnRow(innType, row, first);
    InnRow(innType, row.(data := Some(second)), second);
    UntypedInputRewrites(row, nextId, second);
    UntypedInputNamesNothing(innType, input);
    UnnamedInnIsSaved(innType, [row], nextId, Some(first), [input], [row.(data := Some(second))], second);
  }

  lemma InnRow(innType: TypeId, row: Requisite, inn: string)
    requires row.typeId == innType && row.data == Some(inn) && IsInn(inn)
    ensures StoredInns(innType, [row]) == [inn]
    ensures Normalize(Some(inn)) == Some(inn) && FitsLimit(Some(inn), MAX_REQUISITE_LENGTH)
  {
    InnIsStripped(inn);
    OneRow(innType, row);
  }

  /** A payload that names no INN locks none, and the one INN its rows end up with is saved. */
  lemma UnnamedInnIsSaved(innType: TypeId, existing: seq<Requisite>, nextId: Id, previous: Option<string>,
                          inputs: seq<Input>, rows: seq<Requisite>, inn: string)
    requires PayloadInns(innType, inputs) == [] && SyncRequisites(existing, nextId, inputs) == Ok(rows)
    requires StoredInns(innType, rows) == [inn] && IsInn(inn)
    ensures LockedInn(innType, inputs, previous) == None
    ensures Save(innType, existing, nextId, previous, inputs, {}) == Ok((rows, Some(inn)))
  {
  }

  lemma UntypedInputNamesNothing(innType: TypeId, input: Input)
    requires input.typeId == None
    ensures PayloadInns(innType, [input]) == []
  {
    assert [input][..0] == [];
  }

  lemma UntypedInputRewrites(row: Requisite, nextId: Id, value: string)
    requires Normalize(Some(value)) == Some(value) && FitsLimit(Some(value), MAX_REQUISITE_LENGTH)
    ensures SyncRequisites([row], nextId, [Input(Some(row.id), None, Some(value))])
            == Ok([row.(data := Some(value))])
  {
    var inputs, d := [Input(Some(row.id), None, Some(value))], Draft([row], {}, nextId);
    assert inputs[..0] == [];
    assert HasRow([row], row.id) by {
      assert [row][0].id == row.id;
    }
    assert UpdateRows([row], row.id, value, None) == [row.(data := Some(value))];
    OneRow(row.typeId, row.(data := Some(value)));
    assert ApplyInputs([row], d, inputs[..0]) == Ok(d);
  }

  lemma OneRow(innType: TypeId, row: Requisite)
    ensures Remaining([row], {}) == [row]
    ensures row.typeId == innType && Normalize(row.data).Some? ==>
              StoredInns(innType, [row]) == [Normalize(row.data).value]
  {
    assert [row][..0] == [];
    assert Remaining([row][..0], {}) == [];
    assert StoredInns(innType, [row][..0]) == [];
  }

  // ---- the loop itself ----

  /** `_sync_requisites` and `_sync_organization_inn` on the rows of one organization. */
  class Card {
    const innType: TypeId
    var rows: seq<Requisite>
    var inn: Option<string>
    var nextId: Id

    constructor (innType: TypeId, rows: seq<Requisite>, inn: Option<string>, nextId: Id)
      ensures this.innType == innType && this.rows == rows && this.inn == inn && this.nextId == nextId
    {
      this.innType, this.rows, this.inn, this.nextId := innType, rows, inn, nextId;
    }

    /** An error leaves the card as the rollback of the caller does. */
    method SaveRequisites(inputs: seq<Input>, others: set<string>) returns (outcome: Result<Option<string>, Error>)
      modifies this
      ensures match Save(innType, old(rows), old(nextId), old(inn), inputs, others)
              case Err(e) => outcome == Err(e) && rows == old(rows) && inn == old(inn)
              case Ok(saved) => outcome == Ok(saved.1) && rows == saved.0 && inn == saved.1
    {
      match PrepareInn(innType, inputs) {
        case Err(e) => return Err(e);
        case Ok(_) =>
      }
      var draft := Draft(rows, {}, nextId);
      var i := 0;
      while i < |inputs|
        invariant 0 <= i <= |inputs|
        invariant ApplyInputs(rows, Draft(rows, {}, nextId), inputs[..i]) == Ok(draft)
        invariant rows == old(rows) && inn == old(inn) && nextId == old(nextId)
      {
        var next := ApplyInput(rows, draft, inputs[i]);
        assert inputs[..i + 1][..i] == inputs[..i];
        match next {
          case Err(e) =>
            FailurePropagates(rows, Draft(rows, {}, nextId), inputs, i + 1, e);
            return Err(e);
          case Ok(d) => draft := d;
        }
        i := i + 1;
      }
      assert inputs[..i] == inputs;
      var remaining := Flush(draft);
      var synced := SyncInn(innType, remaining, inn, others);
      match synced {
        case Err(e) => return Err(e);
        case Ok(value) =>
          rows, inn, nextId := remaining, value, draft.nextId;
          outcome := Ok(value);
      }
    }
  }

  lemma {:induction false} FailurePropagates(existing: seq<Requisite>, d: Draft, inputs: seq<Input>, i: nat, e: Error)
    requires i <= |inputs| && ApplyInputs(existing, d, inputs[..i]) == Err(e)
    ensures ApplyInputs(existing, d, inputs) == Err(e)
    decreases |inputs|
  {
    if i == |inputs| {
      assert inputs[..i] == inputs;
    } else {
      assert inputs[..|inputs| - 1][..i] == inputs[..i];
      FailurePropagates(existing, d, inputs[..|inputs| - 1], i, e);
    }
  }
}
