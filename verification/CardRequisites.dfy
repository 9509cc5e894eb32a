/**
 What a save makes of the requisites of a card, row by row and input by input: a row named with a blank value goes,
 one named with a text is rewritten in its place, the others stay, and each further text becomes a row at the end.
 */
module CardRequisites {
  import opened Options
  import opened Text
  import opened CardInn

  function Trimmed(value: Option<string>): string {
    Strip(value.GetOr(""))
  }

  // ---- when a payload is refused ----

  /** What is wrong with one input. */
  predicate IsFault(rows: seq<Requisite>, input: Input, e: Error) {
    match e
    case TooLong => |Trimmed(input.value)| > 4096
    case Vanished =>
      && |Trimmed(input.value)| <= 4096 && input.id.Some?
      && forall k | 0 <= k < |rows| :: rows[k].id != input.id.value
    case NoType =>
      |Trimmed(input.value)| <= 4096 && input.id.None? && Trimmed(input.value) != "" && input.typeId.None?
    case _ => false
  }

  predicate Faultless(rows: seq<Requisite>, input: Input) {
    forall e :: !IsFault(rows, input, e)
  }

  /** Input `i` is the first with a fault, and this is the fault. */
  ghost predicate FirstFault(rows: seq<Requisite>, inputs: seq<Input>, i: nat, e: Error) {
    && i < |inputs| && IsFault(rows, inputs[i], e)
    && forall j | 0 <= j < i :: Faultless(rows, inputs[j])
  }

  lemma OneInput(rows: seq<Requisite>, d: Draft, input: Input)
    ensures ApplyInput(rows, d, input).Ok? <==> Faultless(rows, input)
    ensures forall e :: ApplyInput(rows, d, input) == Err(e) <==> IsFault(rows, input, e)
  {
    if ApplyInput(rows, d, input).Err? {
      assert IsFault(rows, input, ApplyInput(rows, d, input).error);
    }
  }

  lemma {:induction false} FaultsOf(rows: seq<Requisite>, d: Draft, inputs: seq<Input>)
    ensures ApplyInputs(rows, d, inputs).Ok? <==> forall i | 0 <= i < |inputs| :: Faultless(rows, inputs[i])
    ensures forall e :: ApplyInputs(rows, d, inputs) == Err(e) <==> exists i :: FirstFault(rows, inputs, i, e)
  {
    if inputs != [] {
      var front, last := inputs[..|inputs| - 1], |inputs| - 1;
      FaultsOf(rows, d, front);
      assert forall i | 0 <= i < last :: inputs[i] == front[i];
      forall e
        ensures ApplyInputs(rows, d, inputs) == Err(e) <==> exists i :: FirstFault(rows, inputs, i, e)
      {
        FaultOfLast(rows, d, inputs, e);
      }
      if ApplyInputs(rows, d, front).Ok? {
        OneInput(rows, ApplyInputs(rows, d, front).value, inputs[last]);
      }
    }
  }

  lemma FaultOfLast(rows: seq<Requisite>, d: Draft, inputs: seq<Input>, e: Error)
    requires inputs != []
    requires var front := inputs[..|inputs| - 1];
             && (ApplyInputs(rows, d, front).Ok? <==> forall i | 0 <= i < |front| :: Faultless(rows, front[i]))
             && (ApplyInputs(rows, d, front) == Err(e) <==> exists i :: FirstFault(rows, front, i, e))
    ensures ApplyInputs(rows, d, inputs) == Err(e) <==> exists i :: FirstFault(rows, inputs, i, e)
  {
    var front, last := inputs[..|inputs| - 1], |inputs| - 1;
    assert forall i | 0 <= i < last :: inputs[i] == front[i];
    if ApplyInputs(rows, d, front).Ok? {
      OneInput(rows, ApplyInputs(rows, d, front).value, inputs[last]);
      assert ApplyInputs(rows, d, inputs) == Err(e) ==> FirstFault(rows, inputs, last, e);
    } else {
      if i: nat :| FirstFault(rows, front, i, e) {
        assert FirstFault(rows, inputs, i, e);
      }
      if i: nat :| FirstFault(rows, inputs, i, e) {
        assert i < last;
        assert FirstFault(rows, front, i, e);
      }
    }
  }

  /** The requisites of a payload are refused exactly for the first input with a fault, with the error it stands for. */
  lemma RequisitesRefusedIff(rows: seq<Requisite>, nextId: Id, inputs: seq<Input>)
    ensures SyncRequisites(rows, nextId, inputs).Ok? <==> forall i | 0 <= i < |inputs| :: Faultless(rows, inputs[i])
    ensures forall e :: SyncRequisites(rows, nextId, inputs) == Err(e) <==> exists i :: FirstFault(rows, inputs, i, e)
  {
    FaultsOf(rows, Draft(rows, {}, nextId), inputs);
  }

  // ---- what an accepted payload leaves ----

  /** The input that names a row. */
  function InputFor(inputs: seq<Input>, id: Id): Option<Input> {
    if inputs == [] then None
    else if inputs[|inputs| - 1].id == Some(id) then Some(inputs[|inputs| - 1])
    else InputFor(inputs[..|inputs| - 1], id)
  }

  /** A loaded row, with the text and the type of the input that names it, if that has a text. */
  function Rewritten(row: Requisite, inputs: seq<Input>): Requisite {
    match InputFor(inputs, row.id)
    case Some(input) =>
      if Trimmed(input.value) == "" then row
      else Requisite(row.id, input.typeId.GetOr(row.typeId), Some(Trimmed(input.value)))
    case None => row
  }

  function AllRewritten(rows: seq<Requisite>, inputs: seq<Input>): seq<Requisite> {
    seq(|rows|, k requires 0 <= k < |rows| => Rewritten(rows[k], inputs))
  }

  predicate Cleared(inputs: seq<Input>, id: Id) {
    InputFor(inputs, id).Some? && Trimmed(InputFor(inputs, id).value.value) == ""
  }

  /** The loaded rows that stay, in their order. */
  function Kept(rows: seq<Requisite>, inputs: seq<Input>): seq<Requisite> {
    if rows == [] then []
    else
      var last := rows[|rows| - 1];
      Kept(rows[..|rows| - 1], inputs) + (if Cleared(inputs, last.id) then [] else [Rewritten(last, inputs)])
  }

  /** One row per input without id and with a text, in the order of the payload. */
  function Added(nextId: Id, inputs: seq<Input>): seq<Requisite> {
    if inputs == [] then []
    else
      var before, last := Added(nextId, inputs[..|inputs| - 1]), inputs[|inputs| - 1];
      if last.id.Some? || Trimmed(last.value) == "" then before
      else before + [Requisite(nextId + |before|, last.typeId.GetOr(0), Some(Trimmed(last.value)))]
  }

  lemma {:induction false} AddedIds(nextId: Id, inputs: seq<Input>)
    ensures forall k | 0 <= k < |Added(nextId, inputs)| :: Added(nextId, inputs)[k].id == nextId + k
  {
    if inputs != [] {
      AddedIds(nextId, inputs[..|inputs| - 1]);
    }
  }

  lemma {:induction false} InputForNamed(inputs: seq<Input>, i: nat)
    requires DistinctIds(inputs) && i < |inputs| && inputs[i].id.Some?
    ensures InputFor(inputs, inputs[i].id.value) == Some(inputs[i])
  {
    if i < |inputs| - 1 {
      InputForNamed(inputs[..|inputs| - 1], i);
    }
  }

  lemma {:induction false} InputForUnnamed(inputs: seq<Input>, id: Id)
    ensures InputFor(inputs, id).None? <==> forall i | 0 <= i < |inputs| :: inputs[i].id != Some(id)
  {
    if inputs != [] {
      InputForUnnamed(inputs[..|inputs| - 1], id);
      assert forall i | 0 <= i < |inputs| - 1 :: inputs[i] == inputs[..|inputs| - 1][i];
    }
  }

  // ---- the loop gets there ----

  /** The session in the middle of the loop, as far as the inputs before say. */
  ghost predicate DraftIs(rows: seq<Requisite>, nextId: Id, inputs: seq<Input>, d: Draft) {
    && d.rows == AllRewritten(rows, inputs) + Added(nextId, inputs)
    && d.nextId == nextId + |Added(nextId, inputs)|
    && (forall id :: id in d.deleted <==> Cleared(inputs, id))
    && (forall id | id in d.deleted :: id < nextId)
  }

  lemma UpdatesRow(row: Requisite, inputs: seq<Input>)
    requires inputs != [] && inputs[|inputs| - 1].id.Some? && Trimmed(inputs[|inputs| - 1].value) != ""
    requires InputFor(inputs[..|inputs| - 1], inputs[|inputs| - 1].id.value).None?
    ensures var last := inputs[|inputs| - 1];
            UpdateRow(Rewritten(row, inputs[..|inputs| - 1]), last.id.value, Trimmed(last.value), last.typeId)
            == Rewritten(row, inputs)
  {
  }

  lemma UpdateInPlace(rows: seq<Requisite>, added: seq<Requisite>, nextId: Id, inputs: seq<Input>)
    requires inputs != [] && inputs[|inputs| - 1].id.Some? && Trimmed(inputs[|inputs| - 1].value) != ""
    requires InputFor(inputs[..|inputs| - 1], inputs[|inputs| - 1].id.value).None?
    requires inputs[|inputs| - 1].id.value < nextId && forall k | 0 <= k < |added| :: added[k].id >= nextId
    ensures var last := inputs[|inputs| - 1];
            UpdateRows(AllRewritten(rows, inputs[..|inputs| - 1]) + added,
                       last.id.value, Trimmed(last.value), last.typeId)
            == AllRewritten(rows, inputs) + added
  {
    var last, before := inputs[|inputs| - 1], AllRewritten(rows, inputs[..|inputs| - 1]) + added;
    var updated := UpdateRows(before, last.id.value, Trimmed(last.value), last.typeId);
    var after := AllRewritten(rows, inputs) + added;
    forall k | 0 <= k < |after|
      ensures updated[k] == after[k]
    {
      if k < |rows| {
        UpdatesRow(rows[k], inputs);
      } else {
        assert before[k] == added[k - |rows|];
      }
    }
  }

  lemma RewrittenByLast(row: Requisite, inputs: seq<Input>)
    requires inputs != []
    ensures inputs[|inputs| - 1].id != Some(row.id) ==> Rewritten(row, inputs) == Rewritten(row, inputs[..|inputs| - 1])
    ensures InputFor(inputs[..|inputs| - 1], row.id).None? ==> Rewritten(row, inputs[..|inputs| - 1]) == row
  {
  }

  lemma OthersRewritten(rows: seq<Requisite>, inputs: seq<Input>)
    requires inputs != []
    requires forall k | 0 <= k < |rows| && inputs[|inputs| - 1].id == Some(rows[k].id) ::
               Rewritten(rows[k], inputs) == Rewritten(rows[k], inputs[..|inputs| - 1])
    ensures AllRewritten(rows, inputs) == AllRewritten(rows, inputs[..|inputs| - 1])
  {
    forall k | 0 <= k < |rows|
      ensures Rewritten(rows[k], inputs) == Rewritten(rows[k], inputs[..|inputs| - 1])
    {
      RewrittenByLast(rows[k], inputs);
    }
  }

  lemma InputSteps(rows: seq<Requisite>, nextId: Id, inputs: seq<Input>, d: Draft)
    requires inputs != [] && DistinctIds(inputs) && IdsBelow(rows, nextId)
    requires DraftIs(rows, nextId, inputs[..|inputs| - 1], d)
    requires ApplyInput(rows, d, inputs[|inputs| - 1]).Ok?
    ensures DraftIs(rows, nextId, inputs, ApplyInput(rows, d, inputs[|inputs| - 1]).value)
  {
    var front, last := inputs[..|inputs| - 1], inputs[|inputs| - 1];
    if last.id.Some? {
      InputForUnnamed(front, last.id.value);
      if Trimmed(last.value) == "" {
        ClearingSteps(rows, nextId, inputs, d);
      } else {
        TextSteps(rows, nextId, inputs, d);
      }
    } else {
      NewRowSteps(rows, nextId, inputs, d);
    }
  }

  lemma ClearingSteps(rows: seq<Requisite>, nextId: Id, inputs: seq<Input>, d: Draft)
    requires inputs != [] && IdsBelow(rows, nextId) && DraftIs(rows, nextId, inputs[..|inputs| - 1], d)
    requires inputs[|inputs| - 1].id.Some? && Trimmed(inputs[|inputs| - 1].value) == ""
    requires InputFor(inputs[..|inputs| - 1], inputs[|inputs| - 1].id.value).None?
    requires ApplyInput(rows, d, inputs[|inputs| - 1]).Ok?
    ensures DraftIs(rows, nextId, inputs, ApplyInput(rows, d, inputs[|inputs| - 1]).value)
  {
    OthersRewritten(rows, inputs);
  }

  lemma TextSteps(rows: seq<Requisite>, nextId: Id, inputs: seq<Input>, d: Draft)
    requires inputs != [] && IdsBelow(rows, nextId) && DraftIs(rows, nextId, inputs[..|inputs| - 1], d)
    requires inputs[|inputs| - 1].id.Some? && Trimmed(inputs[|inputs| - 1].value) != ""
    requires InputFor(inputs[..|inputs| - 1], inputs[|inputs| - 1].id.value).None?
    requires ApplyInput(rows, d, inputs[|inputs| - 1]).Ok?
    ensures DraftIs(rows, nextId, inputs, ApplyInput(rows, d, inputs[|inputs| - 1]).value)
  {
    AddedIds(nextId, inputs[..|inputs| - 1]);
    UpdateInPlace(rows, Added(nextId, inputs[..|inputs| - 1]), nextId, inputs);
  }

  lemma NewRowSteps(rows: seq<Requisite>, nextId: Id, inputs: seq<Input>, d: Draft)
    requires inputs != [] && DraftIs(rows, nextId, inputs[..|inputs| - 1], d) && inputs[|inputs| - 1].id.None?
    requires ApplyInput(rows, d, inputs[|inputs| - 1]).Ok?
    ensures DraftIs(rows, nextId, inputs, ApplyInput(rows, d, inputs[|inputs| - 1]).value)
  {
    var front, last := inputs[..|inputs| - 1], inputs[|inputs| - 1];
    OthersRewritten(rows, inputs);
    forall id
      ensures Cleared(inputs, id) <==> Cleared(front, id)
    {
    }
    if Trimmed(last.value) != "" {
      var row := Requisite(d.nextId, last.typeId.value, Some(Trimmed(last.value)));
      assert AllRewritten(rows, front) + Added(nextId, front) + [row]
             == AllRewritten(rows, inputs) + Added(nextId, inputs);
    }
  }

  lemma {:induction false} LoopIsDraft(rows: seq<Requisite>, nextId: Id, inputs: seq<Input>)
    requires DistinctIds(inputs) && IdsBelow(rows, nextId)
    requires ApplyInputs(rows, Draft(rows, {}, nextId), inputs).Ok?
    ensures DraftIs(rows, nextId, inputs, ApplyInputs(rows, Draft(rows, {}, nextId), inputs).value)
  {
    if inputs == [] {
      assert AllRewritten(rows, []) + [] == rows;
    } else {
      LoopIsDraft(rows, nextId, inputs[..|inputs| - 1]);
      InputSteps(rows, nextId, inputs, ApplyInputs(rows, Draft(rows, {}, nextId), inputs[..|inputs| - 1]).value);
    }
  }

  // ---- the flush ----

  lemma {:induction false} RemainingOfBoth(a: seq<Requisite>, b: seq<Requisite>, deleted: set<Id>)
    ensures Remaining(a + b, deleted) == Remaining(a, deleted) + Remaining(b, deleted)
  {
    if b == [] {
      assert a + b == a;
    } else {
      assert (a + b)[..|a + b| - 1] == a + b[..|b| - 1];
      RemainingOfBoth(a, b[..|b| - 1], deleted);
    }
  }

  lemma {:induction false} NewRowsRemain(rows: seq<Requisite>, nextId: Id, deleted: set<Id>)
    requires forall k | 0 <= k < |rows| :: rows[k].id >= nextId
    requires forall id | id in deleted :: id < nextId
    ensures Remaining(rows, deleted) == rows
  {
    if rows != [] {
      NewRowsRemain(rows[..|rows| - 1], nextId, deleted);
    }
  }

  lemma {:induction false} RewrittenRemain(rows: seq<Requisite>, inputs: seq<Input>, deleted: set<Id>)
    requires forall id :: id in deleted <==> Cleared(inputs, id)
    ensures Remaining(AllRewritten(rows, inputs), deleted) == Kept(rows, inputs)
  {
    if rows != [] {
      var front := rows[..|rows| - 1];
      RewrittenRemain(front, inputs, deleted);
      assert AllRewritten(rows, inputs)[..|rows| - 1] == AllRewritten(front, inputs);
    }
  }

  lemma RowsAfterSave(rows: seq<Requisite>, nextId: Id, inputs: seq<Input>)
    requires DistinctIds(inputs) && IdsBelow(rows, nextId) && SyncRequisites(rows, nextId, inputs).Ok?
    ensures SyncRequisites(rows, nextId, inputs).value == Kept(rows, inputs) + Added(nextId, inputs)
  {
    var d := ApplyInputs(rows, Draft(rows, {}, nextId), inputs).value;
    LoopIsDraft(rows, nextId, inputs);
    RemainingOfBoth(AllRewritten(rows, inputs), Added(nextId, inputs), d.deleted);
    RewrittenRemain(rows, inputs, d.deleted);
    AddedIds(nextId, inputs);
    NewRowsRemain(Added(nextId, inputs), nextId, d.deleted);
  }

  // ---- the result, row by row and input by input ----

  /** `places` are the positions of `all` at which the elements of `some` stand, in order. */
  ghost predicate InOrder<T>(places: seq<nat>, some: seq<T>, all: nat) {
    && |places| == |some|
    && (forall j, k | 0 <= j < k < |places| :: places[j] < places[k])
    && forall k | 0 <= k < |places| :: places[k] < all
  }

  /** `kept` are the loaded rows at these places, as the inputs rewrite them, and no other row stays. */
  ghost predicate KeptFrom(places: seq<nat>, rows: seq<Requisite>, inputs: seq<Input>, kept: seq<Requisite>) {
    && InOrder(places, kept, |rows|)
    && (forall k | 0 <= k < |places| ::
          !Cleared(inputs, rows[places[k]].id) && kept[k] == Rewritten(rows[places[k]], inputs))
    && (forall j | 0 <= j < |rows| && !Cleared(inputs, rows[j].id) :: j in places)
  }

  lemma KeptGrows(places: seq<nat>, rows: seq<Requisite>, inputs: seq<Input>, kept: seq<Requisite>)
    requires rows != [] && KeptFrom(places, rows[..|rows| - 1], inputs, kept)
    ensures var last := rows[|rows| - 1];
            if Cleared(inputs, last.id) then KeptFrom(places, rows, inputs, kept)
            else KeptFrom(places + [|rows| - 1], rows, inputs, kept + [Rewritten(last, inputs)])
  {
    var last := |rows| - 1;
    assert forall j | 0 <= j < last :: rows[j] == rows[..last][j];
    assert forall j | j in places :: j in places + [last];
    assert last in places + [last];
  }

  lemma {:induction false} KeptPlaces(rows: seq<Requisite>, inputs: seq<Input>) returns (places: seq<nat>)
    ensures KeptFrom(places, rows, inputs, Kept(rows, inputs))
  {
    places := [];
    if rows != [] {
      places := KeptPlaces(rows[..|rows| - 1], inputs);
      KeptGrows(places, rows, inputs, Kept(rows[..|rows| - 1], inputs));
      if !Cleared(inputs, rows[|rows| - 1].id) {
        places := places + [|rows| - 1];
      }
    }
  }

  /** `added` are the rows that the inputs at these places became, and no other input became one. */
  ghost predicate AddedFrom(places: seq<nat>, inputs: seq<Input>, nextId: Id, added: seq<Requisite>) {
    && InOrder(places, added, |inputs|)
    && (forall k | 0 <= k < |places| :: NewRow(inputs[places[k]], added[k], nextId + k))
    && (forall i | 0 <= i < |inputs| && inputs[i].id == None && Trimmed(inputs[i].value) != "" :: i in places)
  }

  lemma AddedGrows(places: seq<nat>, inputs: seq<Input>, nextId: Id, added: seq<Requisite>)
    requires inputs != [] && AddedFrom(places, inputs[..|inputs| - 1], nextId, added)
    ensures var last := inputs[|inputs| - 1];
            if last.id.Some? || Trimmed(last.value) == "" then AddedFrom(places, inputs, nextId, added)
            else last.typeId.Some? ==>
              AddedFrom(places + [|inputs| - 1], inputs, nextId,
                        added + [Requisite(nextId + |added|, last.typeId.value, Some(Trimmed(last.value)))])
  {
    var last := |inputs| - 1;
    assert forall j | 0 <= j < last :: inputs[j] == inputs[..last][j];
    assert forall j | j in places :: j in places + [last];
    assert last in places + [last];
  }

  lemma {:induction false} AddedPlaces(rows: seq<Requisite>, nextId: Id, inputs: seq<Input>) returns (places: seq<nat>)
    requires forall i | 0 <= i < |inputs| :: Faultless(rows, inputs[i])
    ensures AddedFrom(places, inputs, nextId, Added(nextId, inputs))
  {
    places := [];
    if inputs != [] {
      var before := AddedPlaces(rows, nextId, inputs[..|inputs| - 1]);
      places := OneMorePlace(rows, nextId, inputs, before);
    }
  }

  lemma OneMorePlace(rows: seq<Requisite>, nextId: Id, inputs: seq<Input>, before: seq<nat>) returns (places: seq<nat>)
    requires inputs != [] && Faultless(rows, inputs[|inputs| - 1])
    requires AddedFrom(before, inputs[..|inputs| - 1], nextId, Added(nextId, inputs[..|inputs| - 1]))
    ensures AddedFrom(places, inputs, nextId, Added(nextId, inputs))
  {
    var last := |inputs| - 1;
    AddedGrows(before, inputs, nextId, Added(nextId, inputs[..last]));
    places := before;
    if inputs[last].id == None && Trimmed(inputs[last].value) != "" {
      assert !IsFault(rows, inputs[last], NoType) && !IsFault(rows, inputs[last], TooLong);
      places := before + [last];
    }
  }

  /** The row an input without id and with a text becomes. */
  predicate NewRow(input: Input, row: Requisite, id: Id) {
    && input.id == None && input.typeId.Some? && Trimmed(input.value) != ""
    && row == Requisite(id, input.typeId.value, Some(Trimmed(input.value)))
  }

  /** What becomes of a loaded row that is kept: the text and the type of the input that names it, or nothing. */
  ghost predicate FollowsInput(row: Requisite, inputs: seq<Input>, row': Requisite) {
    && row'.id == row.id
    && (forall i | 0 <= i < |inputs| && inputs[i].id == Some(row.id) ::
          && Trimmed(inputs[i].value) != "" && row'.data == Some(Trimmed(inputs[i].value))
          && row'.typeId == if inputs[i].typeId.Some? then inputs[i].typeId.value else row.typeId)
    && ((forall i | 0 <= i < |inputs| :: inputs[i].id != Some(row.id)) ==> row' == row)
  }

  lemma KeptFollows(row: Requisite, inputs: seq<Input>)
    requires DistinctIds(inputs) && !Cleared(inputs, row.id)
    ensures FollowsInput(row, inputs, Rewritten(row, inputs))
  {
    InputForUnnamed(inputs, row.id);
    forall i | 0 <= i < |inputs| && inputs[i].id == Some(row.id)
      ensures InputFor(inputs, row.id) == Some(inputs[i])
    {
      InputForNamed(inputs, i);
    }
  }

  lemma ClearedIff(inputs: seq<Input>, id: Id)
    requires DistinctIds(inputs)
    ensures Cleared(inputs, id) <==> NamedBlank(inputs, id)
  {
    InputForUnnamed(inputs, id);
    forall i | 0 <= i < |inputs| && inputs[i].id == Some(id)
      ensures InputFor(inputs, id) == Some(inputs[i])
    {
      InputForNamed(inputs, i);
    }
  }

  /** `saved` is what the payload makes of the loaded rows, at these places. */
  ghost predicate Follows(
    rows: seq<Requisite>, nextId: Id, inputs: seq<Input>, saved: seq<Requisite>, kept: seq<nat>, added: seq<nat>)
  {
    && |saved| == |kept| + |added|
    && InOrder(kept, saved[..|kept|], |rows|) && InOrder(added, saved[|kept|..], |inputs|)
    && (forall k | 0 <= k < |kept| :: FollowsInput(rows[kept[k]], inputs, saved[k]))
    && (forall k | 0 <= k < |added| :: NewRow(inputs[added[k]], saved[|kept| + k], nextId + k))
    && (forall j | 0 <= j < |rows| :: j !in kept <==> NamedBlank(inputs, rows[j].id))
    && (forall i | 0 <= i < |inputs| :: i in added <==> inputs[i].id == None && Trimmed(inputs[i].value) != "")
  }

  predicate NamedBlank(inputs: seq<Input>, id: Id) {
    exists i :: 0 <= i < |inputs| && inputs[i].id == Some(id) && Trimmed(inputs[i].value) == ""
  }

  lemma BothFollow(rows: seq<Requisite>, nextId: Id, inputs: seq<Input>, before: seq<Requisite>, after: seq<Requisite>,
                   kept: seq<nat>, added: seq<nat>)
    requires DistinctIds(inputs) && KeptFrom(kept, rows, inputs, before) && AddedFrom(added, inputs, nextId, after)
    ensures Follows(rows, nextId, inputs, before + after, kept, added)
  {
    var saved := before + after;
    assert saved[..|kept|] == before && saved[|kept|..] == after;
    forall k | 0 <= k < |kept|
      ensures FollowsInput(rows[kept[k]], inputs, saved[k])
    {
      KeptFollows(rows[kept[k]], inputs);
    }
    forall k | 0 <= k < |added|
      ensures NewRow(inputs[added[k]], saved[|kept| + k], nextId + k)
    {
      assert saved[|kept| + k] == after[k];
    }
    forall j | 0 <= j < |rows|
      ensures j !in kept <==> NamedBlank(inputs, rows[j].id)
    {
      ClearedIff(inputs, rows[j].id);
    }
  }

  /**
   After a save whose payload names no row twice: `kept` are the places of the loaded rows that stay, in their order
   and each as the input that names it says, `added` the inputs that became new rows, in their order; exactly the
   loaded rows named with a blank value are gone, and exactly the inputs without id and with a text became rows.
   */
  lemma RowsFollowThePayload(rows: seq<Requisite>, nextId: Id, inputs: seq<Input>)
    returns (kept: seq<nat>, added: seq<nat>)
    requires DistinctIds(inputs) && IdsBelow(rows, nextId) && SyncRequisites(rows, nextId, inputs).Ok?
    ensures Follows(rows, nextId, inputs, SyncRequisites(rows, nextId, inputs).value, kept, added)
  {
    RowsAfterSave(rows, nextId, inputs);
    RequisitesRefusedIff(rows, nextId, inputs);
    kept := KeptPlaces(rows, inputs);
    added := AddedPlaces(rows, nextId, inputs);
    BothFollow(rows, nextId, inputs, Kept(rows, inputs), Added(nextId, inputs), kept, added);
  }

  // ---- the INN of the card ----

  /** The input names an INN under its type. */
  predicate NamesInn(innType: TypeId, input: Input) {
    input.typeId == Some(innType) && Trimmed(input.value) != ""
  }

  predicate ShowsInn(innType: TypeId, row: Requisite) {
    row.typeId == innType && Trimmed(row.data) != ""
  }

  /** The one INN input of a payload, if there is exactly one. */
  ghost predicate OnlyNamed(innType: TypeId, inputs: seq<Input>, inn: string) {
    exists i :: 0 <= i < |inputs| && NamesInn(innType, inputs[i]) && Trimmed(inputs[i].value) == inn
                && forall j | 0 <= j < |inputs| && j != i :: !NamesInn(innType, inputs[j])
  }

  /** The one INN row of a card, if there is exactly one. */
  ghost predicate OnlyShown(innType: TypeId, rows: seq<Requisite>, inn: string) {
    exists i :: 0 <= i < |rows| && ShowsInn(innType, rows[i]) && Trimmed(rows[i].data) == inn
                && forall j | 0 <= j < |rows| && j != i :: !ShowsInn(innType, rows[j])
  }

  predicate NoneNamed(innType: TypeId, inputs: seq<Input>) {
    forall i | 0 <= i < |inputs| :: !NamesInn(innType, inputs[i])
  }

  predicate NoneShown(innType: TypeId, rows: seq<Requisite>) {
    forall i | 0 <= i < |rows| :: !ShowsInn(innType, rows[i])
  }

  lemma {:induction false} InnsOfPayload(innType: TypeId, inputs: seq<Input>)
    ensures PayloadInns(innType, inputs) == [] <==> NoneNamed(innType, inputs)
    ensures forall inn :: PayloadInns(innType, inputs) == [inn] <==> OnlyNamed(innType, inputs, inn)
  {
    if inputs != [] {
      var front, last := inputs[..|inputs| - 1], |inputs| - 1;
      InnsOfPayload(innType, front);
      assert forall i | 0 <= i < last :: inputs[i] == front[i];
      assert NoneNamed(innType, inputs) <==> NoneNamed(innType, front) && !NamesInn(innType, inputs[last]);
      forall inn
        ensures PayloadInns(innType, inputs) == [inn] <==> OnlyNamed(innType, inputs, inn)
      {
        OnlyNamedGrows(innType, inputs, inn);
        AppendedIs(PayloadInns(innType, front), Trimmed(inputs[last].value), inn);
      }
    }
  }

  lemma AppendedIs(front: seq<string>, last: string, inn: string)
    ensures front + [last] == [inn] <==> front == [] && last == inn
    ensures front + [] == front
  {
    if front + [last] == [inn] {
      assert |front + [last]| == 1;
      assert (front + [last])[|front|] == last;
    }
  }

  lemma OnlyNamedGrows(innType: TypeId, inputs: seq<Input>, inn: string)
    requires inputs != []
    ensures var front, last := inputs[..|inputs| - 1], inputs[|inputs| - 1];
            OnlyNamed(innType, inputs, inn) <==>
              if NamesInn(innType, last) then NoneNamed(innType, front) && Trimmed(last.value) == inn
              else OnlyNamed(innType, front, inn)
  {
    var front, last := inputs[..|inputs| - 1], |inputs| - 1;
    assert forall i | 0 <= i < last :: inputs[i] == front[i];
    if OnlyNamed(innType, front, inn) {
      var i :| 0 <= i < |front| && NamesInn(innType, front[i]) && Trimmed(front[i].value) == inn
               && forall j | 0 <= j < |front| && j != i :: !NamesInn(innType, front[j]);
      assert NamesInn(innType, inputs[i]);
    }
    if OnlyNamed(innType, inputs, inn) {
      var i :| 0 <= i < |inputs| && NamesInn(innType, inputs[i]) && Trimmed(inputs[i].value) == inn
               && forall j | 0 <= j < |inputs| && j != i :: !NamesInn(innType, inputs[j]);
      assert i < last ==> NamesInn(innType, front[i]);
    }
  }

  lemma {:induction false} InnsOfRows(innType: TypeId, rows: seq<Requisite>)
    ensures StoredInns(innType, rows) == [] <==> NoneShown(innType, rows)
    ensures forall inn :: StoredInns(innType, rows) == [inn] <==> OnlyShown(innType, rows, inn)
  {
    if rows != [] {
      var front, last := rows[..|rows| - 1], |rows| - 1;
      InnsOfRows(innType, front);
      assert forall i | 0 <= i < last :: rows[i] == front[i];
      assert NoneShown(innType, rows) <==> NoneShown(innType, front) && !ShowsInn(innType, rows[last]);
      forall inn
        ensures StoredInns(innType, rows) == [inn] <==> OnlyShown(innType, rows, inn)
      {
        OnlyShownGrows(innType, rows, inn);
        AppendedIs(StoredInns(innType, front), Trimmed(rows[last].data), inn);
      }
    }
  }

  lemma OnlyShownGrows(innType: TypeId, rows: seq<Requisite>, inn: string)
    requires rows != []
    ensures var front, last := rows[..|rows| - 1], rows[|rows| - 1];
            OnlyShown(innType, rows, inn) <==>
              if ShowsInn(innType, last) then NoneShown(innType, front) && Trimmed(last.data) == inn
              else OnlyShown(innType, front, inn)
  {
    var front, last := rows[..|rows| - 1], |rows| - 1;
    assert forall i | 0 <= i < last :: rows[i] == front[i];
    if OnlyShown(innType, front, inn) {
      var i :| 0 <= i < |front| && ShowsInn(innType, front[i]) && Trimmed(front[i].data) == inn
               && forall j | 0 <= j < |front| && j != i :: !ShowsInn(innType, front[j]);
      assert ShowsInn(innType, rows[i]);
    }
    if OnlyShown(innType, rows, inn) {
      var i :| 0 <= i < |rows| && ShowsInn(innType, rows[i]) && Trimmed(rows[i].data) == inn
               && forall j | 0 <= j < |rows| && j != i :: !ShowsInn(innType, rows[j]);
      assert i < last ==> ShowsInn(innType, front[i]);
    }
  }

  /** The payload names no INN, or exactly one that is an INN. */
  ghost predicate PayloadInnOk(innType: TypeId, inputs: seq<Input>) {
    NoneNamed(innType, inputs) || exists inn :: OnlyNamed(innType, inputs, inn) && IsInn(inn)
  }

  /** The lock a save takes is for the one INN its payload names, if that is an INN and not the one of the column. */
  lemma LockIff(innType: TypeId, inputs: seq<Input>, previous: Option<string>, inn: string)
    ensures LockedInn(innType, inputs, previous) == Some(inn)
            <==> OnlyNamed(innType, inputs, inn) && IsInn(inn) && previous != Some(inn)
  {
    InnsOfPayload(innType, inputs);
    var named := PayloadInns(innType, inputs);
    if |named| == 1 {
      assert named == [named[0]];
    }
  }

  /** What the rows of a save say about its INN: an error, or the new column. */
  ghost predicate ColumnIs(innType: TypeId, rows: seq<Requisite>, previous: Option<string>, others: set<string>,
                           column: Result<Option<string>, Error>)
  {
    match column
    case Ok(None) => NoneShown(innType, rows)
    case Ok(Some(inn)) =>
      OnlyShown(innType, rows, inn) && IsInn(inn) && (Some(inn) == previous || inn !in others)
    case Err(InnTaken) =>
      exists inn :: OnlyShown(innType, rows, inn) && IsInn(inn) && Some(inn) != previous && inn in others
    case Err(MalformedInn) => exists inn :: OnlyShown(innType, rows, inn) && !IsInn(inn)
    case Err(SeveralInns) => !NoneShown(innType, rows) && forall inn :: !OnlyShown(innType, rows, inn)
    case Err(_) => false
  }

  lemma ColumnOfRows(innType: TypeId, rows: seq<Requisite>, previous: Option<string>, others: set<string>)
    ensures ColumnIs(innType, rows, previous, others, SyncInn(innType, rows, previous, others))
  {
    InnsOfRows(innType, rows);
    var stored := StoredInns(innType, rows);
    if |stored| == 1 {
      assert stored == [stored[0]];
      assert OnlyShown(innType, rows, stored[0]);
    }
  }

  /**
   A save in the order of the code: the INN of the payload, the requisites, the INN of the rows they leave. Each
   result of it has its condition, and an accepted save stores those rows and that INN.
   */
  lemma SaveIff(innType: TypeId, rows: seq<Requisite>, nextId: Id, previous: Option<string>, inputs: seq<Input>,
                others: set<string>)
    ensures var saved := Save(innType, rows, nextId, previous, inputs, others);
            var synced := SyncRequisites(rows, nextId, inputs);
            if !PayloadInnOk(innType, inputs) then
              saved == Err(if exists inn :: OnlyNamed(innType, inputs, inn) then MalformedInn else SeveralInns)
            else if exists i, e :: FirstFault(rows, inputs, i, e) then
              saved.Err? && exists i :: FirstFault(rows, inputs, i, saved.error)
            else
              && synced.Ok?
              && (saved.Ok? ==>
                    && saved.value.0 == synced.value
                    && ColumnIs(innType, synced.value, previous, others, Ok(saved.value.1)))
              && (saved.Err? ==> ColumnIs(innType, synced.value, previous, others, Err(saved.error)))
  {
    InnsOfPayload(innType, inputs);
    RequisitesRefusedIff(rows, nextId, inputs);
    var named, synced := PayloadInns(innType, inputs), SyncRequisites(rows, nextId, inputs);
    if |named| == 1 {
      assert named == [named[0]];
      assert OnlyNamed(innType, inputs, named[0]);
    }
    if synced.Ok? {
      ColumnOfRows(innType, synced.value, previous, others);
    }
  }
}
