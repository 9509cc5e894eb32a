/**
 How the contacts of a payload are read: which inputs are refused and why, which are skipped, and which entry each of
 the others becomes; and from that, what the rows of the organization are after a save, input by input.
 */
module ContactInputs {
  import opened Options
  import opened Text
  import opened Contacts
  import opened ContactGuarantees

  function Trimmed(value: Option<string>): string {
    Strip(value.GetOr(""))
  }

  /** A text of the entry: absent when the field is blank. */
  predicate IsText(field: Option<string>, text: Option<string>) {
    text == if Trimmed(field) == "" then None else Some(Trimmed(field))
  }

  predicate Fits(input: Input) {
    && |Trimmed(input.name)| <= 255 && |Trimmed(input.post)| <= 1024
    && |Trimmed(input.value)| <= 255 && |Trimmed(input.key)| <= 128
  }

  predicate NoId(id: Option<int>) {
    id == None || id == Some(0)
  }

  /** An empty line of the form: no text, and no id other than zero. */
  predicate IsBlank(input: Input) {
    && Trimmed(input.name) == "" && Trimmed(input.post) == "" && Trimmed(input.value) == ""
    && NoId(input.typeId) && NoId(input.entityId) && NoId(input.dataId)
  }

  /** The entry has the ids of the input as they are, and its texts trimmed. */
  predicate IsEntryOf(input: Input, entry: Entry) {
    && entry.entityId == input.entityId && entry.dataId == input.dataId && Some(entry.typeId) == input.typeId
    && IsText(input.key, entry.key) && IsText(input.name, entry.name) && IsText(input.post, entry.post)
    && IsText(input.value, Some(entry.value))
  }

  predicate IsFault(input: Input, e: Error) {
    match e
    case TooLong => !Fits(input)
    case NoType => Fits(input) && !IsBlank(input) && input.typeId == None
    case NoValue => Fits(input) && !IsBlank(input) && input.typeId != None && Trimmed(input.value) == ""
    case _ => false
  }

  /** Exactly when an input is refused, and with which error; skipped; or prepared, and as which entry. */
  lemma PreparedIff(input: Input)
    ensures forall e :: Prepare(input) == Err(e) <==> IsFault(input, e)
    ensures Prepare(input) == Ok(None) <==> Fits(input) && IsBlank(input)
    ensures forall entry :: Prepare(input) == Ok(Some(entry)) <==>
                              && Fits(input) && input.typeId != None && Trimmed(input.value) != ""
                              && IsEntryOf(input, entry)
  {
    if Prepare(input).Err? {
      assert IsFault(input, Prepare(input).error);
    }
  }

  // ---- the list ----

  predicate Faultless(input: Input) {
    forall e :: !IsFault(input, e)
  }

  ghost predicate FirstFault(inputs: seq<Input>, i: nat, e: Error) {
    i < |inputs| && IsFault(inputs[i], e) && forall j | 0 <= j < i :: Faultless(inputs[j])
  }

  /** The entries are those of the inputs at these places, in their order, and only blank inputs are left out. */
  ghost predicate PreparedFrom(places: seq<nat>, inputs: seq<Input>, entries: seq<Entry>) {
    && |places| == |entries|
    && (forall j, k | 0 <= j < k < |places| :: places[j] < places[k])
    && (forall k | 0 <= k < |places| :: places[k] < |inputs| && IsEntryOf(inputs[places[k]], entries[k]))
    && (forall i | 0 <= i < |inputs| :: i in places <==> !IsBlank(inputs[i]))
  }

  lemma FaultlessIsPrepared(input: Input)
    requires Faultless(input)
    ensures Prepare(input).Ok?
  {
    PreparedIff(input);
    forall e
      ensures Prepare(input) != Err(e)
    {
      assert !IsFault(input, e);
    }
  }

  lemma PreparedGrows(places: seq<nat>, inputs: seq<Input>, entries: seq<Entry>)
    requires inputs != [] && PreparedFrom(places, inputs[..|inputs| - 1], entries)
    ensures IsBlank(inputs[|inputs| - 1]) ==> PreparedFrom(places, inputs, entries)
    ensures forall entry | IsEntryOf(inputs[|inputs| - 1], entry) && !IsBlank(inputs[|inputs| - 1]) ::
              PreparedFrom(places + [|inputs| - 1], inputs, entries + [entry])
  {
    var last := |inputs| - 1;
    assert forall i | 0 <= i < last :: inputs[i] == inputs[..last][i];
    assert forall i | 0 <= i < last :: i in places <==> i in places + [last];
    assert last in places + [last];
  }

  /** How many inputs ask for a new row. */
  function NewRows(inputs: seq<Input>): nat {
    if inputs == [] then 0
    else
      var last := inputs[|inputs| - 1];
      NewRows(inputs[..|inputs| - 1]) + (if !IsBlank(last) && last.dataId == None then 1 else 0)
  }

  /** As many new rows are asked for before each input as before its entry. */
  ghost predicate CountedAlike(places: seq<nat>, inputs: seq<Input>, entries: seq<Entry>) {
    && |places| == |entries| && NewRows(inputs) == NewCount(entries)
    && (forall k | 0 <= k < |places| :: CountedAt(places[k], inputs, entries, k))
  }

  predicate CountedAt(place: nat, inputs: seq<Input>, entries: seq<Entry>, k: nat)
    requires k < |entries|
  {
    place < |inputs| && NewRows(inputs[..place]) == NewCount(entries[..k])
  }

  lemma StillCounted(place: nat, inputs: seq<Input>, entries: seq<Entry>, longer: seq<Entry>, k: nat)
    requires inputs != [] && k < |entries| && entries <= longer && CountedAt(place, inputs[..|inputs| - 1], entries, k)
    ensures CountedAt(place, inputs, longer, k)
  {
    assert inputs[..|inputs| - 1][..place] == inputs[..place] && longer[..k] == entries[..k];
  }

  lemma BlankKeepsCount(places: seq<nat>, inputs: seq<Input>, entries: seq<Entry>)
    requires inputs != [] && CountedAlike(places, inputs[..|inputs| - 1], entries) && IsBlank(inputs[|inputs| - 1])
    ensures CountedAlike(places, inputs, entries)
  {
    forall k | 0 <= k < |places|
      ensures CountedAt(places[k], inputs, entries, k)
    {
      StillCounted(places[k], inputs, entries, entries, k);
    }
  }

  lemma EntryKeepsCount(places: seq<nat>, inputs: seq<Input>, entries: seq<Entry>, entry: Entry)
    requires inputs != [] && CountedAlike(places, inputs[..|inputs| - 1], entries)
    requires !IsBlank(inputs[|inputs| - 1]) && entry.dataId == inputs[|inputs| - 1].dataId
    ensures CountedAlike(places + [|inputs| - 1], inputs, entries + [entry])
  {
    var longer, grown := entries + [entry], places + [|inputs| - 1];
    assert longer[..|entries|] == entries;
    forall k | 0 <= k < |grown|
      ensures CountedAt(grown[k], inputs, longer, k)
    {
      if k < |entries| {
        StillCounted(places[k], inputs, entries, longer, k);
      }
    }
  }

  /** A payload without fault is prepared to the entries of its inputs that are not blank, in their order. */
  lemma {:induction false} ListIsPrepared(inputs: seq<Input>) returns (places: seq<nat>)
    requires forall i | 0 <= i < |inputs| :: Faultless(inputs[i])
    ensures PrepareAll(inputs).Ok? && PreparedFrom(places, inputs, PrepareAll(inputs).value)
    ensures CountedAlike(places, inputs, PrepareAll(inputs).value)
  {
    places := [];
    if inputs != [] {
      var front, last := inputs[..|inputs| - 1], |inputs| - 1;
      places := ListIsPrepared(front);
      PreparedIff(inputs[last]);
      FaultlessIsPrepared(inputs[last]);
      PreparedGrows(places, inputs, PrepareAll(front).value);
      if IsBlank(inputs[last]) {
        BlankKeepsCount(places, inputs, PrepareAll(front).value);
      } else {
        EntryKeepsCount(places, inputs, PrepareAll(front).value, Prepare(inputs[last]).value.value);
        places := places + [last];
      }
    }
  }

  /** A payload is refused exactly for its first input with a fault, with the error it stands for. */
  lemma {:induction false} ListRefusedIff(inputs: seq<Input>)
    ensures PrepareAll(inputs).Ok? <==> forall i | 0 <= i < |inputs| :: Faultless(inputs[i])
    ensures forall e :: PrepareAll(inputs) == Err(e) <==> exists i :: FirstFault(inputs, i, e)
  {
    if inputs != [] {
      var front, last := inputs[..|inputs| - 1], |inputs| - 1;
      ListRefusedIff(front);
      PreparedIff(inputs[last]);
      assert forall i | 0 <= i < last :: inputs[i] == front[i];
      assert Prepare(inputs[last]).Err? ==> IsFault(inputs[last], Prepare(inputs[last]).error);
      forall e
        ensures PrepareAll(inputs) == Err(e) <==> exists i :: FirstFault(inputs, i, e)
      {
        FaultOfLast(inputs, e);
      }
    }
  }

  lemma FaultOfLast(inputs: seq<Input>, e: Error)
    requires inputs != []
    requires var front := inputs[..|inputs| - 1];
             && (PrepareAll(front).Ok? <==> forall i | 0 <= i < |front| :: Faultless(front[i]))
             && (PrepareAll(front) == Err(e) <==> exists i :: FirstFault(front, i, e))
    ensures PrepareAll(inputs) == Err(e) <==> exists i :: FirstFault(inputs, i, e)
  {
    var front, last := inputs[..|inputs| - 1], |inputs| - 1;
    PreparedIff(inputs[last]);
    assert forall i | 0 <= i < last :: inputs[i] == front[i];
    if PrepareAll(front).Ok? {
      assert PrepareAll(inputs) == Err(e) ==> FirstFault(inputs, last, e);
    } else {
      if i: nat :| FirstFault(front, i, e) {
        assert FirstFault(inputs, i, e);
      }
      if i: nat :| FirstFault(inputs, i, e) {
        assert i < last;
        assert FirstFault(front, i, e);
      }
    }
  }

  // ---- the rows of a save, input by input ----

  /** The row an input is for: the one it names, or the next new one. */
  function RowFor(base: int, inputs: seq<Input>, i: nat): int
    requires i < |inputs|
  {
    if inputs[i].dataId.Some? then inputs[i].dataId.value else base + NewRows(inputs[..i])
  }

  lemma RowOfPlace(base: int, places: seq<nat>, inputs: seq<Input>, entries: seq<Entry>, k: nat)
    requires PreparedFrom(places, inputs, entries) && CountedAlike(places, inputs, entries) && k < |places|
    ensures RowOf(base, entries, k) == RowFor(base, inputs, places[k])
  {
    assert CountedAt(places[k], inputs, entries, k);
  }

  /** No later input is for the same row. */
  ghost predicate LastFor(base: int, inputs: seq<Input>, i: nat)
    requires i < |inputs|
  {
    forall j | i < j < |inputs| && !IsBlank(inputs[j]) :: RowFor(base, inputs, j) != RowFor(base, inputs, i)
  }

  lemma LastOfPlace(base: int, places: seq<nat>, inputs: seq<Input>, entries: seq<Entry>, k: nat)
    requires PreparedFrom(places, inputs, entries) && CountedAlike(places, inputs, entries)
    requires k < |places| && LastFor(base, inputs, places[k])
    ensures LastForRow(base, entries, k)
  {
    RowOfPlace(base, places, inputs, entries, k);
    forall j | k < j < |entries|
      ensures RowOf(base, entries, j) != RowOf(base, entries, k)
    {
      RowOfPlace(base, places, inputs, entries, j);
    }
  }

  lemma RowsOfPlaces(base: int, places: seq<nat>, inputs: seq<Input>, entries: seq<Entry>, r: int)
    requires PreparedFrom(places, inputs, entries) && CountedAlike(places, inputs, entries)
    ensures Names(base, entries, r) <==>
              exists i :: 0 <= i < |inputs| && !IsBlank(inputs[i]) && RowFor(base, inputs, i) == r
  {
    if k :| 0 <= k < |entries| && RowOf(base, entries, k) == r {
      RowOfPlace(base, places, inputs, entries, k);
      assert places[k] in places;
      assert RowFor(base, inputs, places[k]) == r;
    }
    if i :| 0 <= i < |inputs| && !IsBlank(inputs[i]) && RowFor(base, inputs, i) == r {
      var k :| 0 <= k < |places| && places[k] == i;
      RowOfPlace(base, places, inputs, entries, k);
      assert RowOf(base, entries, k) == r;
    }
  }

  /** The row holds the type and the trimmed value of the input. */
  predicate Holds(db: Db, org: OrgId, r: int, input: Input) {
    && MyRow(db, org, r) && Trimmed(input.value) != ""
    && Some(db.rows[r].typeId) == input.typeId && db.rows[r].data == Some(Trimmed(input.value))
  }

  lemma LastInputIsHeld(db: Db, types: set<int>, org: OrgId, places: seq<nat>, inputs: seq<Input>, k: nat)
    requires Valid(db) && Sync(db, types, org, inputs).Ok?
    requires PreparedFrom(places, inputs, PrepareAll(inputs).value) && k < |places|
    requires CountedAlike(places, inputs, PrepareAll(inputs).value)
    requires LastFor(db.nextRow, inputs, places[k])
    ensures Holds(Sync(db, types, org, inputs).value, org, RowFor(db.nextRow, inputs, places[k]), inputs[places[k]])
  {
    RowsAreTheList(db, types, org, inputs);
    RowOfPlace(db.nextRow, places, inputs, PrepareAll(inputs).value, k);
    LastOfPlace(db.nextRow, places, inputs, PrepareAll(inputs).value, k);
  }

  /**
   After a save the rows of the organization are exactly those the inputs that are not blank are for, and each holds
   the type and the trimmed value of the last input for it.
   */
  lemma RowsAreThePayload(db: Db, types: set<int>, org: OrgId, inputs: seq<Input>)
    requires Valid(db) && Sync(db, types, org, inputs).Ok?
    ensures forall r: Id :: MyRow(Sync(db, types, org, inputs).value, org, r) <==>
              exists i :: 0 <= i < |inputs| && !IsBlank(inputs[i]) && RowFor(db.nextRow, inputs, i) == r
    ensures forall i | 0 <= i < |inputs| && !IsBlank(inputs[i]) && LastFor(db.nextRow, inputs, i) ::
              Holds(Sync(db, types, org, inputs).value, org, RowFor(db.nextRow, inputs, i), inputs[i])
  {
    ListRefusedIff(inputs);
    var places := ListIsPrepared(inputs);
    RowsAreTheList(db, types, org, inputs);
    forall i | 0 <= i < |inputs| && !IsBlank(inputs[i]) && LastFor(db.nextRow, inputs, i)
      ensures Holds(Sync(db, types, org, inputs).value, org, RowFor(db.nextRow, inputs, i), inputs[i])
    {
      var k :| 0 <= k < |places| && places[k] == i;
      LastInputIsHeld(db, types, org, places, inputs, k);
    }
    forall r: Id
      ensures MyRow(Sync(db, types, org, inputs).value, org, r) <==>
                exists i :: 0 <= i < |inputs| && !IsBlank(inputs[i]) && RowFor(db.nextRow, inputs, i) == r
    {
      NamedIffListedOrNew(db.nextRow, PrepareAll(inputs).value, r);
      RowsOfPlaces(db.nextRow, places, inputs, PrepareAll(inputs).value, r);
    }
  }

  // ---- when a save is refused ----

  /** The entries before this one were placed, and it is refused at its turn. */
  predicate RefusedAt(db: Db, org: OrgId, entries: seq<Entry>, k: nat, e: Error) {
    && k < |entries| && PlaceAll(db, org, entries[..k]).Ok?
    && Refuses(PlaceAll(db, org, entries[..k]).value.db, org, entries[k], e)
  }

  lemma {:induction false} PlacingRefusedIff(db: Db, org: OrgId, entries: seq<Entry>, e: Error)
    ensures PlaceAll(db, org, entries) == Err(e) <==> exists k :: RefusedAt(db, org, entries, k, e)
  {
    if entries != [] {
      var front, last := entries[..|entries| - 1], |entries| - 1;
      PlacingRefusedIff(db, org, front, e);
      forall k: nat | k < last
        ensures RefusedAt(db, org, entries, k, e) <==> RefusedAt(db, org, front, k, e)
      {
        assert entries[..k] == front[..k];
      }
      if PlaceAll(db, org, front).Ok? {
        EntryRefusedIff(PlaceAll(db, org, front).value, org, entries[last], e);
        assert RefusedAt(db, org, entries, last, e) <==>
          Refuses(PlaceAll(db, org, front).value.db, org, entries[last], e);
      }
      if k: nat :| RefusedAt(db, org, front, k, e) {
        assert RefusedAt(db, org, entries, k, e);
      }
    }
  }

  /** Some line that is not empty has a type that does not exist. */
  predicate HasUnknownType(types: set<int>, inputs: seq<Input>) {
    exists i :: 0 <= i < |inputs| && !IsBlank(inputs[i]) && inputs[i].typeId.Some? && inputs[i].typeId.value !in types
  }

  lemma UnknownTypesAreNamed(types: set<int>, places: seq<nat>, inputs: seq<Input>, entries: seq<Entry>)
    requires PreparedFrom(places, inputs, entries)
    ensures KnownTypes(types, entries) <==> !HasUnknownType(types, inputs)
  {
    if HasUnknownType(types, inputs) {
      var i :| 0 <= i < |inputs| && !IsBlank(inputs[i]) && inputs[i].typeId.Some? && inputs[i].typeId.value !in types;
      var k :| 0 <= k < |places| && places[k] == i;
      assert IsEntryOf(inputs[places[k]], entries[k]);
    }
    forall k | 0 <= k < |entries| && entries[k].typeId !in types
      ensures HasUnknownType(types, inputs)
    {
      assert IsEntryOf(inputs[places[k]], entries[k]) && places[k] in places;
    }
  }

  /**
   A save is refused exactly for the first input with a fault, else for a type that does not exist, else for the first
   entry that is refused at its turn.
   */
  lemma SyncRefusedIff(db: Db, types: set<int>, org: OrgId, inputs: seq<Input>, e: Error)
    ensures Sync(db, types, org, inputs) == Err(e) <==>
              if exists i :: 0 <= i < |inputs| && !Faultless(inputs[i]) then exists i :: FirstFault(inputs, i, e)
              else if HasUnknownType(types, inputs) then e == UnknownType
              else
                PrepareAll(inputs).Ok? && exists k :: RefusedAt(db, org, PrepareAll(inputs).value, k, e)
  {
    ListRefusedIff(inputs);
    if forall i | 0 <= i < |inputs| :: Faultless(inputs[i]) {
      var places := ListIsPrepared(inputs);
      UnknownTypesAreNamed(types, places, inputs, PrepareAll(inputs).value);
      PlacingRefusedIff(db, org, PrepareAll(inputs).value, e);
    }
  }
}
