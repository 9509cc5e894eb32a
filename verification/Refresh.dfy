/**
 Refreshing an organization: the INN is read, the transaction is closed for the external lookup, and
 everything is read again under locks before the data are applied to all cards with that INN. In
 between, other transactions may have done anything.
 */
module Refresh {
  import opened Options
  import opened Text
  import opened Cards
  import opened ApplyDadata
  import opened ApplyGuarantees
  import opened ApplyEffects
  import CardInn

  /** The organization table in the order of its ids, with the settlements and the next free id. */
  datatype Db = Db(ids: seq<OrgId>, cards: map<OrgId, Card>, settlements: seq<Named>, nextId: Id)

  ghost predicate Valid(db: Db) {
    && (forall i, j | 0 <= i < j < |db.ids| :: db.ids[i] < db.ids[j])
    && (forall id :: id in db.ids <==> id in db.cards)
  }

  datatype Status = Updated | NotFound | Failed | RateLimited | Skipped
  datatype Response = LimitReached | ClientError | Party(data: Option<Data>)

  /** `find_party_by_inn` refuses a party with another INN. */
  function FindParty(requested: string, response: Response): Response {
    match response
    case Party(Some(data)) => if data.inn == requested then response else ClientError
    case _ => response
  }

  /** The INN of a column; the outer `None` is the validation error. */
  function ColumnInn(inn: Option<string>): Option<Option<string>> {
    if inn.None? || inn.value == "" then Some(None)
    else
      var n := NormalizeInn(inn.value);
      if n.None? then None else Some(n)
  }

  /** Up to the lookup: the INN to ask for, or the outcome without asking. */
  function Prepare(db: Db, org: OrgId, inn: Option<string>): Result<string, Status> {
    if org !in db.cards then Err(Failed)
    else
      var current := ColumnInn(db.cards[org].inn);
      var wanted := if inn.Some? && inn.value != "" then ColumnInn(inn) else current;
      if current.None? || wanted.None? || wanted.value.None? then Err(Failed)
      else if current != wanted then Err(Skipped)
      else Ok(wanted.value.value)
  }

  function GroupOf(ids: seq<OrgId>, cards: map<OrgId, Card>, inn: string): seq<OrgId> {
    if ids == [] then []
    else
      var last := ids[|ids| - 1];
      GroupOf(ids[..|ids| - 1], cards, inn) + (if last in cards && cards[last].inn == Some(inn) then [last] else [])
  }

  /** The loop over the cards of the group. */
  function ApplyGroup(dict: Dictionary, db: Db, group: seq<OrgId>, data: Data, updateNames: bool)
    : Result<(Db, set<Field>), Error>
    requires forall id | id in group :: id in db.cards
    ensures ApplyGroup(dict, db, group, data, updateNames).Ok? ==>
              ApplyGroup(dict, db, group, data, updateNames).value.0.cards.Keys == db.cards.Keys
  {
    if group == [] then Ok((db, {}))
    else
      match ApplyGroup(dict, db, group[..|group| - 1], data, updateNames)
      case Err(e) => Err(e)
      case Ok((before, fields)) => ApplyMember(dict, before, group[|group| - 1], data, updateNames, fields)
  }

  function ApplyMember(dict: Dictionary, db: Db, org: OrgId, data: Data, updateNames: bool, fields: set<Field>)
    : Result<(Db, set<Field>), Error>
    requires org in db.cards
    ensures ApplyMember(dict, db, org, data, updateNames, fields).Ok? ==>
              ApplyMember(dict, db, org, data, updateNames, fields).value.0.cards.Keys == db.cards.Keys
  {
    match Apply(dict, Tables(db.cards[org], db.settlements, db.nextId), data, updateNames)
    case Err(e) => Err(e)
    case Ok(a) =>
      Ok((Db(db.ids, db.cards[org := a.tables.card], a.tables.settlements, a.tables.nextId),
          fields + (set f | f in a.updated)))
  }

  lemma {:induction false} GroupMembers(ids: seq<OrgId>, cards: map<OrgId, Card>, inn: string)
    ensures forall id :: id in GroupOf(ids, cards, inn) <==> id in ids && id in cards && cards[id].inn == Some(inn)
  {
    if ids != [] {
      GroupMembers(ids[..|ids| - 1], cards, inn);
      assert ids == ids[..|ids| - 1] + [ids[|ids| - 1]];
    }
  }

  datatype Outcome = Outcome(db: Db, status: Status, updated: set<Field>, processed: nat)

  /** After the lookup: locked re-reads, then the group. An error of `Apply` rolls the transaction back. */
  function Finish(dict: Dictionary, db: Db, org: OrgId, requested: string, response: Response): Result<Outcome, Error> {
    match FindParty(requested, response)
    case LimitReached => Ok(Outcome(db, RateLimited, {}, 0))
    case ClientError => Ok(Outcome(db, Failed, {}, 0))
    case Party(None) => Ok(Outcome(db, NotFound, {}, 0))
    case Party(Some(data)) =>
      if org !in db.cards then Ok(Outcome(db, Skipped, {}, 0))
      else if ColumnInn(db.cards[org].inn) != Some(Some(requested)) then Ok(Outcome(db, Skipped, {}, 0))
      else
        var group := GroupOf(db.ids, db.cards, requested);
        GroupMembers(db.ids, db.cards, requested);
        if org !in group then Ok(Outcome(db, Skipped, {}, 0))
        else
          match ApplyGroup(dict, db, group, data, |group| == 1)
          case Err(e) => Err(e)
          case Ok((db', fields)) => Ok(Outcome(db', Updated, fields, |group|))
  }

  // ---- what happens to each card of the group ----

  /** A card is what applying the data to it made of it, with some settlements around. */
  ghost predicate IsApplied(dict: Dictionary, card: Card, card': Card, data: Data, updateNames: bool) {
    exists settlements, nextId :: AppliedWith(dict, card, card', data, updateNames, settlements, nextId)
  }

  predicate AppliedWith(
    dict: Dictionary, card: Card, card': Card, data: Data, updateNames: bool, settlements: seq<Named>, nextId: Id)
  {
    var a := Apply(dict, Tables(card, settlements, nextId), data, updateNames);
    a.Ok? && a.value.tables.card == card'
  }

  predicate NoRepeats(group: seq<OrgId>) {
    forall i, j | 0 <= i < j < |group| :: group[i] != group[j]
  }

  lemma MemberIsApplied(dict: Dictionary, db: Db, org: OrgId, data: Data, updateNames: bool, fields: set<Field>)
    requires org in db.cards && ApplyMember(dict, db, org, data, updateNames, fields).Ok?
    ensures var db' := ApplyMember(dict, db, org, data, updateNames, fields).value.0;
            && IsApplied(dict, db.cards[org], db'.cards[org], data, updateNames)
            && (forall id | id in db.cards && id != org :: db'.cards[id] == db.cards[id])
            && db'.ids == db.ids
  {
    var db' := ApplyMember(dict, db, org, data, updateNames, fields).value.0;
    assert AppliedWith(dict, db.cards[org], db'.cards[org], data, updateNames, db.settlements, db.nextId);
  }

  lemma {:induction false} GroupIsApplied(dict: Dictionary, db: Db, group: seq<OrgId>, data: Data, updateNames: bool)
    requires NoRepeats(group) && forall id | id in group :: id in db.cards
    requires ApplyGroup(dict, db, group, data, updateNames).Ok?
    ensures var db' := ApplyGroup(dict, db, group, data, updateNames).value.0;
            && (forall id | id in db.cards && id !in group :: db'.cards[id] == db.cards[id])
            && (forall id | id in group :: IsApplied(dict, db.cards[id], db'.cards[id], data, updateNames))
            && db'.ids == db.ids
  {
    if group != [] {
      var front, last := group[..|group| - 1], group[|group| - 1];
      GroupIsApplied(dict, db, front, data, updateNames);
      var (before, fields) := ApplyGroup(dict, db, front, data, updateNames).value;
      var db' := ApplyGroup(dict, db, group, data, updateNames).value.0;
      MemberIsApplied(dict, before, last, data, updateNames, fields);
      assert last !in front && forall id | id in front :: id in group;
      forall id | id in group
        ensures IsApplied(dict, db.cards[id], db'.cards[id], data, updateNames)
      {
        if id != last {
          assert db'.cards[id] == before.cards[id];
        }
      }
    }
  }

  lemma {:induction false} GroupHasNoRepeats(ids: seq<OrgId>, cards: map<OrgId, Card>, inn: string)
    requires forall i, j | 0 <= i < j < |ids| :: ids[i] < ids[j]
    ensures NoRepeats(GroupOf(ids, cards, inn))
  {
    if ids != [] {
      var front := ids[..|ids| - 1];
      GroupHasNoRepeats(front, cards, inn);
      GroupMembers(front, cards, inn);
    }
  }

  lemma AppliedKeepsColumn(dict: Dictionary, card: Card, card': Card, data: Data, updateNames: bool)
    requires IsApplied(dict, card, card', data, updateNames)
    ensures card'.inn == Some(data.inn)
  {
    var settlements, nextId :| AppliedWith(dict, card, card', data, updateNames, settlements, nextId);
    TailFrame(dict, Tables(card, settlements, nextId), data, updateNames);
  }

  // ---- the refresh is safe ----

  /** A refresh touches a card only if its INN column is the requested INN when the locks are held. */
  ghost predicate OnlyGroupWritten(db: Db, db': Db, requested: string) {
    && db'.ids == db.ids
    && db'.cards.Keys == db.cards.Keys
    && (forall id | id in db.cards :: db'.cards[id].inn == db.cards[id].inn)
    && (forall id | id in db.cards && db.cards[id].inn != Some(requested) :: db'.cards[id] == db.cards[id])
  }

  /**
   Whatever the table is when the lookup returns, the refresh writes only to cards whose INN is still the
   requested one, changes no INN column, and writes nothing at all unless it reports an update.
   */
  lemma RefreshIsSafe(dict: Dictionary, db: Db, org: OrgId, requested: string, response: Response)
    requires Valid(db) && Finish(dict, db, org, requested, response).Ok?
    ensures var o := Finish(dict, db, org, requested, response).value;
            && OnlyGroupWritten(db, o.db, requested)
            && (o.status != Updated ==> o.db == db)
            && Valid(o.db)
  {
    var o := Finish(dict, db, org, requested, response).value;
    if o.status == Updated {
      var data := response.data.value;
      var group := GroupOf(db.ids, db.cards, requested);
      GroupMembers(db.ids, db.cards, requested);
      GroupHasNoRepeats(db.ids, db.cards, requested);
      GroupIsApplied(dict, db, group, data, |group| == 1);
      forall id | id in db.cards
        ensures o.db.cards[id].inn == db.cards[id].inn
      {
        if id in group {
          AppliedKeepsColumn(dict, db.cards[id], o.db.cards[id], data, |group| == 1);
        }
      }
    }
  }

  /** The organizations whose column is the INN. */
  function CardsWith(db: Db, inn: string): set<OrgId> {
    set id | id in db.cards && db.cards[id].inn == Some(inn)
  }

  lemma {:induction false} MembersAreCounted(group: seq<OrgId>, members: set<OrgId>)
    requires NoRepeats(group) && forall id :: id in group <==> id in members
    ensures |group| == |members|
  {
    if group != [] {
      var front, last := group[..|group| - 1], group[|group| - 1];
      assert group == front + [last];
      forall i | 0 <= i < |front|
        ensures front[i] != last
      {
        assert front[i] == group[i];
      }
      MembersAreCounted(front, members - {last});
    } else {
      assert members == {};
    }
  }

  /** Which cards a refresh updates, and when it updates at all. */
  lemma RefreshUpdatesIff(dict: Dictionary, db: Db, org: OrgId, requested: string, response: Response)
    requires Valid(db) && IsInn(requested) && Finish(dict, db, org, requested, response).Ok?
    ensures var o := Finish(dict, db, org, requested, response).value;
            && (o.status == Updated <==>
                  && response.Party? && response.data.Some? && response.data.value.inn == requested
                  && org in db.cards && db.cards[org].inn == Some(requested))
            && (o.status == Updated ==>
                  && o.processed == |CardsWith(db, requested)|
                  && forall id | id in db.cards && db.cards[id].inn == Some(requested) ::
                       IsApplied(dict, db.cards[id], o.db.cards[id], response.data.value, o.processed == 1))
  {
    NormalizeInnIsInn(requested);
    GroupMembers(db.ids, db.cards, requested);
    GroupHasNoRepeats(db.ids, db.cards, requested);
    var group := GroupOf(db.ids, db.cards, requested);
    MembersAreCounted(group, CardsWith(db, requested));
    if Finish(dict, db, org, requested, response).value.status == Updated {
      GroupIsApplied(dict, db, group, response.data.value, |group| == 1);
    }
  }

  lemma StepLeavesNoDoubt(s: Tables, t: Tables, dict: Dictionary, data: Data, updateNames: bool)
    requires CardFollows(dict, s, data, updateNames, t) && !SettlementAmbiguousFor(s.settlements, data)
    ensures !SettlementAmbiguousFor(t.settlements, data)
  {
    var text := Trimmed(data.settlementName);
    if t.settlements != s.settlements {
      forall i | 0 <= i < |s.settlements|
        ensures !Namesake(t.settlements[i], text)
      {
        assert t.settlements[i] == s.settlements[i];
      }
      assert |t.settlements| == |s.settlements| + 1;
    }
  }

  /** The first card of a group decides whether the settlement is refused: the others find it settled. */
  lemma {:induction false} GroupFailsIff(dict: Dictionary, db: Db, group: seq<OrgId>, data: Data, updateNames: bool)
    requires UniqueIds(dict.requisiteTypes) && group != [] && forall id | id in group :: id in db.cards
    ensures match ApplyGroup(dict, db, group, data, updateNames)
            case Err(e) =>
              && (e == SettlementTooLong <==> SettlementTooLongFor(data))
              && (e == SettlementAmbiguous <==> SettlementAmbiguousFor(db.settlements, data))
            case Ok((db', _)) =>
              && !SettlementTooLongFor(data) && !SettlementAmbiguousFor(db.settlements, data)
              && !SettlementAmbiguousFor(db'.settlements, data)
  {
    var front, last := group[..|group| - 1], group[|group| - 1];
    if front != [] {
      GroupFailsIff(dict, db, front, data, updateNames);
    }
    if ApplyGroup(dict, db, front, data, updateNames).Ok? {
      var before := ApplyGroup(dict, db, front, data, updateNames).value.0;
      MemberFailsIff(dict, before, last, data, updateNames, ApplyGroup(dict, db, front, data, updateNames).value.1);
    }
  }

  lemma MemberFailsIff(
    dict: Dictionary, db: Db, org: OrgId, data: Data, updateNames: bool, fields: set<Field>)
    requires UniqueIds(dict.requisiteTypes) && org in db.cards
    ensures match ApplyMember(dict, db, org, data, updateNames, fields)
            case Err(e) =>
              && (e == SettlementTooLong <==> SettlementTooLongFor(data))
              && (e == SettlementAmbiguous <==> SettlementAmbiguousFor(db.settlements, data))
            case Ok((db', _)) =>
              && !SettlementTooLongFor(data) && !SettlementAmbiguousFor(db.settlements, data)
              && !SettlementAmbiguousFor(db'.settlements, data)
  {
    var s := Tables(db.cards[org], db.settlements, db.nextId);
    CardFollowsTheData(dict, s, data, updateNames);
    if Apply(dict, s, data, updateNames).Ok? {
      StepLeavesNoDoubt(s, Apply(dict, s, data, updateNames).value.tables, dict, data, updateNames);
    }
  }

  /**
   A refresh raises exactly when it has data to apply and their settlement is too long or ambiguous; which of the
   two depends on neither the cards nor their number.
   */
  lemma RefreshRaisesIff(dict: Dictionary, db: Db, org: OrgId, requested: string, response: Response)
    requires Valid(db) && IsInn(requested) && UniqueIds(dict.requisiteTypes)
    ensures var outcome := Finish(dict, db, org, requested, response);
            var updates := response.Party? && response.data.Some? && response.data.value.inn == requested
                           && org in db.cards && db.cards[org].inn == Some(requested);
            && (outcome == Err(SettlementTooLong) <==> updates && SettlementTooLongFor(response.data.value))
            && (outcome == Err(SettlementAmbiguous) <==>
                  updates && SettlementAmbiguousFor(db.settlements, response.data.value))
  {
    GroupMembers(db.ids, db.cards, requested);
    if org in GroupOf(db.ids, db.cards, requested) && response.Party? && response.data.Some? {
      GroupDecides(dict, db, org, requested, response.data.value);
    }
  }

  lemma GroupDecides(dict: Dictionary, db: Db, org: OrgId, requested: string, data: Data)
    requires IsInn(requested) && UniqueIds(dict.requisiteTypes) && org in GroupOf(db.ids, db.cards, requested)
    ensures var outcome := Finish(dict, db, org, requested, Party(Some(data)));
            && (outcome == Err(SettlementTooLong) <==> data.inn == requested && SettlementTooLongFor(data))
            && (outcome == Err(SettlementAmbiguous) <==>
                  data.inn == requested && SettlementAmbiguousFor(db.settlements, data))
  {
    var group := GroupOf(db.ids, db.cards, requested);
    NormalizeInnIsInn(requested);
    GroupMembers(db.ids, db.cards, requested);
    GroupFailsIff(dict, db, group, data, |group| == 1);
  }

  ghost predicate SomeCardDiffers(dict: Dictionary, group: seq<OrgId>, db: Db, db': Db, f: Field) {
    exists id :: id in group && id in db.cards && id in db'.cards
                 && ReadsDifferently(dict, db.cards[id], db'.cards[id], f)
  }

  lemma MemberReports(dict: Dictionary, db: Db, org: OrgId, data: Data, updateNames: bool, fields: set<Field>, f: Field)
    requires UniqueIds(dict.requisiteTypes) && org in db.cards
    requires ApplyMember(dict, db, org, data, updateNames, fields).Ok?
    ensures var (db', fields') := ApplyMember(dict, db, org, data, updateNames, fields).value;
            f in fields' <==> f in fields || ReadsDifferently(dict, db.cards[org], db'.cards[org], f)
  {
    var s := Tables(db.cards[org], db.settlements, db.nextId);
    CardFollowsTheData(dict, s, data, updateNames);
    var a := Apply(dict, s, data, updateNames).value;
    FieldsReadDifferently(dict, db.cards[org], a.tables.card, a.updated, f);
  }

  lemma {:induction false} GroupReports(
    dict: Dictionary, db: Db, group: seq<OrgId>, data: Data, updateNames: bool, f: Field)
    requires UniqueIds(dict.requisiteTypes) && NoRepeats(group) && forall id | id in group :: id in db.cards
    requires ApplyGroup(dict, db, group, data, updateNames).Ok?
    ensures var (db', fields) := ApplyGroup(dict, db, group, data, updateNames).value;
            f in fields <==> SomeCardDiffers(dict, group, db, db', f)
  {
    if group != [] {
      var front, last := group[..|group| - 1], group[|group| - 1];
      var (before, fields) := ApplyGroup(dict, db, front, data, updateNames).value;
      var db' := ApplyGroup(dict, db, group, data, updateNames).value.0;
      GroupReports(dict, db, front, data, updateNames, f);
      GroupIsApplied(dict, db, front, data, updateNames);
      MemberReports(dict, before, last, data, updateNames, fields, f);
      MemberIsApplied(dict, before, last, data, updateNames, fields);
      OneMoreDiffers(dict, front, last, db, before, db', f);
      assert group == front + [last];
    }
  }

  lemma OneMoreDiffers(
    dict: Dictionary, front: seq<OrgId>, last: OrgId, db: Db, before: Db, db': Db, f: Field)
    requires before.cards.Keys == db.cards.Keys == db'.cards.Keys && last in db.cards && last !in front
    requires before.cards[last] == db.cards[last] && forall id | id in front :: id in db.cards
    requires forall id | id in db.cards && id != last :: db'.cards[id] == before.cards[id]
    ensures SomeCardDiffers(dict, front + [last], db, db', f)
            <==> SomeCardDiffers(dict, front, db, before, f)
                 || ReadsDifferently(dict, db.cards[last], db'.cards[last], f)
  {
    if SomeCardDiffers(dict, front, db, before, f) {
      var id :| id in front && ReadsDifferently(dict, db.cards[id], before.cards[id], f);
      assert id in front + [last];
    }
    if ReadsDifferently(dict, db.cards[last], db'.cards[last], f) {
      assert last in front + [last];
    }
  }

  /** An update reports exactly the fields that read differently now on some card of the INN. */
  lemma RefreshReportsIff(dict: Dictionary, db: Db, org: OrgId, requested: string, response: Response, f: Field)
    requires Valid(db) && IsInn(requested) && UniqueIds(dict.requisiteTypes)
    requires Finish(dict, db, org, requested, response).Ok?
    ensures var o := Finish(dict, db, org, requested, response).value;
            f in o.updated <==> SomeCardDiffers(dict, db.ids, db, o.db, f)
  {
    var o := Finish(dict, db, org, requested, response).value;
    RefreshIsSafe(dict, db, org, requested, response);
    if o.status == Updated {
      var group := GroupOf(db.ids, db.cards, requested);
      GroupMembers(db.ids, db.cards, requested);
      GroupHasNoRepeats(db.ids, db.cards, requested);
      GroupReports(dict, db, group, response.data.value, |group| == 1, f);
      OthersReadTheSame(dict, db, o.db, requested, group, f);
    } else {
      forall id | id in db.cards
        ensures !ReadsDifferently(dict, db.cards[id], db.cards[id], f)
      {
      }
    }
  }

  lemma OthersReadTheSame(dict: Dictionary, db: Db, db': Db, requested: string, group: seq<OrgId>, f: Field)
    requires OnlyGroupWritten(db, db', requested)
    requires forall id :: id in group <==> id in db.ids && id in db.cards && db.cards[id].inn == Some(requested)
    ensures SomeCardDiffers(dict, group, db, db', f) <==> SomeCardDiffers(dict, db.ids, db, db', f)
  {
    forall id | id in db.cards && db.cards[id].inn != Some(requested)
      ensures !ReadsDifferently(dict, db.cards[id], db'.cards[id], f)
    {
      assert db'.cards[id] == db.cards[id];
    }
  }

  /** Ten digits once everything else is taken out, and not over long: what the column has to be to have an INN. */
  predicate HoldsInn(column: Option<string>, inn: string) {
    column.Some? && |column.value| <= 300 && Digits(column.value) == inn && |inn| == 10
  }

  /** Nothing to ask for: the column is empty, or what it holds is no INN. */
  predicate HoldsNone(column: Option<string>) {
    column.None? || |column.value| > 300 || |Digits(column.value)| != 10
  }

  /** Each status a refresh can end with after the lookup, by what came back and what the tables hold by then. */
  lemma StatusIff(dict: Dictionary, db: Db, org: OrgId, requested: string, response: Response)
    requires Valid(db) && IsInn(requested) && Finish(dict, db, org, requested, response).Ok?
    ensures var o := Finish(dict, db, org, requested, response).value;
            var found := response.Party? && response.data.Some? && response.data.value.inn == requested;
            var held := org in db.cards && db.cards[org].inn == Some(requested);
            && (o.status == RateLimited <==> response == LimitReached)
            && (o.status == Failed <==>
                  || response == ClientError
                  || (response.Party? && response.data.Some? && response.data.value.inn != requested))
            && (o.status == NotFound <==> response == Party(None))
            && (o.status == Skipped <==> found && !held)
            && (o.status == Updated <==> found && held)
            && (o.status != Updated ==> o == Outcome(db, o.status, {}, 0))
  {
    NormalizeInnIsInn(requested);
    GroupMembers(db.ids, db.cards, requested);
  }

  /**
   What a refresh does before the lookup: it asks for the INN of the column, fails when the organization or its
   INN is missing or an INN handed over is none, and is skipped when that INN is no longer the one of the column.
   */
  lemma PrepareIff(db: Db, org: OrgId, inn: Option<string>)
    ensures var given := inn.Some? && inn.value != "";
            var prepared := Prepare(db, org, inn);
            var column := if org in db.cards then db.cards[org].inn else None;
            var blank := column == None || column == Some("");
            && (forall requested :: prepared == Ok(requested) <==>
                  org in db.cards && HoldsInn(column, requested) && (given ==> HoldsInn(inn, requested)))
            && (prepared == Err(Failed) <==>
                  || org !in db.cards
                  || (if given then HoldsNone(inn) || (!blank && HoldsNone(column)) else HoldsNone(column)))
            && (prepared.Err? ==> prepared.error in {Failed, Skipped})
            && (prepared == Err(Skipped) <==>
                  && org in db.cards && given && !HoldsNone(inn) && (blank || !HoldsNone(column))
                  && !HoldsInn(column, Digits(inn.value)))
  {
  }

  /** The INN asked for is ten digits and was the INN of the organization, white space and signs apart. */
  lemma PreparedInnIsInn(db: Db, org: OrgId, inn: Option<string>)
    requires Prepare(db, org, inn).Ok?
    ensures var requested := Prepare(db, org, inn).value;
            && IsInn(requested)
            && org in db.cards
            && ColumnInn(db.cards[org].inn) == Some(Some(requested))
            && (inn.Some? && inn.value != "" ==> NormalizeInn(inn.value) == Some(requested))
  {
    NormalizeInnIsInn(db.cards[org].inn.value);
  }

  /** Why the group is checked after the column: a column with signs in it passes the first check only. */
  lemma GroupCheckIsNeeded(dict: Dictionary, db: Db, org: OrgId, requested: string, data: Data)
    requires Valid(db) && org in db.cards && IsInn(requested) && data.inn == requested
    requires db.cards[org].inn.Some? && NormalizeInn(db.cards[org].inn.value) == Some(requested)
    requires db.cards[org].inn != Some(requested)
    ensures ColumnInn(db.cards[org].inn) == Some(Some(requested))
    ensures Finish(dict, db, org, requested, Party(Some(data))) == Ok(Outcome(db, Skipped, {}, 0))
  {
    GroupMembers(db.ids, db.cards, requested);
  }

  /** Every card that was sound stays sound, in the group and outside it. */
  lemma RefreshKeepsSound(dict: Dictionary, db: Db, org: OrgId, requested: string, response: Response, innType: TypeId)
    requires Valid(db) && IsInn(requested) && Finish(dict, db, org, requested, response).Ok?
    requires UniqueIds(dict.requisiteTypes) && FindType(dict.requisiteTypes, INN_NAMES) == Some(innType)
    ensures var o := Finish(dict, db, org, requested, response).value;
            forall id | id in db.cards && id in o.db.cards
                        && CardInn.Sound(innType, db.cards[id].requisites, db.cards[id].inn) ::
              CardInn.Sound(innType, o.db.cards[id].requisites, o.db.cards[id].inn)
  {
    RefreshIsSafe(dict, db, org, requested, response);
    RefreshUpdatesIff(dict, db, org, requested, response);
    var o := Finish(dict, db, org, requested, response).value;
    forall id | id in db.cards && id in o.db.cards && CardInn.Sound(innType, db.cards[id].requisites, db.cards[id].inn)
      ensures CardInn.Sound(innType, o.db.cards[id].requisites, o.db.cards[id].inn)
    {
      if o.status == Updated && db.cards[id].inn == Some(requested) {
        AppliedStaysSound(dict, db.cards[id], o.db.cards[id], response.data.value, o.processed == 1, innType);
      }
    }
  }

  lemma AppliedStaysSound(dict: Dictionary, card: Card, card': Card, data: Data, updateNames: bool, innType: TypeId)
    requires IsApplied(dict, card, card', data, updateNames) && IsInn(data.inn)
    requires UniqueIds(dict.requisiteTypes) && FindType(dict.requisiteTypes, INN_NAMES) == Some(innType)
    requires CardInn.Sound(innType, card.requisites, card.inn)
    ensures CardInn.Sound(innType, card'.requisites, card'.inn)
  {
    var settlements, nextId :| AppliedWith(dict, card, card', data, updateNames, settlements, nextId);
    ApplyKeepsSound(dict, Tables(card, settlements, nextId), data, updateNames, innType);
  }

  // ---- a second refresh with the same data ----

  /** The data have nothing more to say to this card, with these settlements. */
  ghost predicate Absorbed(dict: Dictionary, card: Card, settlements: seq<Named>, data: Data, updateNames: bool) {
    forall nextId: Id ::
      Apply(dict, Tables(card, settlements, nextId), data, updateNames)
        == Ok(Applied(Tables(card, settlements, nextId), []))
  }

  lemma ApplyAbsorbs(dict: Dictionary, s: Tables, data: Data, updateNames: bool)
    requires UniqueIds(dict.requisiteTypes) && Apply(dict, s, data, updateNames).Ok?
    ensures var t := Apply(dict, s, data, updateNames).value.tables;
            Absorbed(dict, t.card, t.settlements, data, updateNames)
  {
    var t := Apply(dict, s, data, updateNames).value.tables;
    forall nextId: Id
      ensures Apply(dict, Tables(t.card, t.settlements, nextId), data, updateNames)
                == Ok(Applied(Tables(t.card, t.settlements, nextId), []))
    {
      SecondApplicationDoesNothing(dict, s, data, updateNames);
      IdsDoNotMatter(dict, t, nextId, data, updateNames);
    }
  }

  lemma IdsDoNotMatter(dict: Dictionary, t: Tables, nextId: Id, data: Data, updateNames: bool)
    requires UniqueIds(dict.requisiteTypes)
    requires Apply(dict, t, data, updateNames) == Ok(Applied(t, []))
    ensures Apply(dict, t.(nextId := nextId), data, updateNames) == Ok(Applied(t.(nextId := nextId), []))
  {
    var core := ApplyCore(dict, t, data, updateNames);
    CoreIsStored(dict, t, data, updateNames);
    CoreReportsChanges(dict, t, data, updateNames);
    assert core.updated == [] && core.tables == t;
    StoredCoreStays(dict, t.(nextId := nextId), data, updateNames);
    var settled := SettlementStep(t, data).value;
    EmailIsStored(dict.contactTypes, t.card.(settlement := settled.chosen), settled.nextId, data.email);
  }

  /** Once a card has absorbed the data, applying them to any other card finds the settlement it needs. */
  lemma SettlementsAreStable(dict: Dictionary, card: Card, s: Tables, data: Data, updateNames: bool, otherNames: bool)
    requires Absorbed(dict, card, s.settlements, data, updateNames) && Apply(dict, s, data, otherNames).Ok?
    requires UniqueIds(dict.requisiteTypes)
    ensures Apply(dict, s, data, otherNames).value.tables.settlements == s.settlements
  {
    var t := Tables(card, s.settlements, ApplyCore(dict, s, data, otherNames).tables.nextId);
    assert Apply(dict, t, data, updateNames) == Ok(Applied(t, []));
    CoreReportsChanges(dict, t, data, updateNames);
    CoreReportsChanges(dict, s, data, otherNames);
  }

  lemma {:induction false} GroupAbsorbs(dict: Dictionary, db: Db, group: seq<OrgId>, data: Data, updateNames: bool)
    requires UniqueIds(dict.requisiteTypes) && NoRepeats(group) && forall id | id in group :: id in db.cards
    requires ApplyGroup(dict, db, group, data, updateNames).Ok?
    ensures var db' := ApplyGroup(dict, db, group, data, updateNames).value.0;
            forall id | id in group :: Absorbed(dict, db'.cards[id], db'.settlements, data, updateNames)
  {
    if group != [] {
      var front, last := group[..|group| - 1], group[|group| - 1];
      GroupAbsorbs(dict, db, front, data, updateNames);
      var (before, fields) := ApplyGroup(dict, db, front, data, updateNames).value;
      var db' := ApplyGroup(dict, db, group, data, updateNames).value.0;
      forall id | id in group
        ensures Absorbed(dict, db'.cards[id], db'.settlements, data, updateNames)
      {
        if id == last {
          MemberAbsorbs(dict, before, last, data, updateNames, fields);
        } else {
          OthersStayAbsorbed(dict, before, last, data, updateNames, fields, id);
        }
      }
    }
  }

  lemma MemberAbsorbs(dict: Dictionary, db: Db, org: OrgId, data: Data, updateNames: bool, fields: set<Field>)
    requires UniqueIds(dict.requisiteTypes) && org in db.cards
               && ApplyMember(dict, db, org, data, updateNames, fields).Ok?
    ensures var db' := ApplyMember(dict, db, org, data, updateNames, fields).value.0;
            Absorbed(dict, db'.cards[org], db'.settlements, data, updateNames)
  {
    ApplyAbsorbs(dict, Tables(db.cards[org], db.settlements, db.nextId), data, updateNames);
  }

  lemma OthersStayAbsorbed(
    dict: Dictionary, db: Db, org: OrgId, data: Data, updateNames: bool, fields: set<Field>, id: OrgId)
    requires UniqueIds(dict.requisiteTypes) && org in db.cards
               && ApplyMember(dict, db, org, data, updateNames, fields).Ok?
    requires id in db.cards && id != org && Absorbed(dict, db.cards[id], db.settlements, data, updateNames)
    ensures var db' := ApplyMember(dict, db, org, data, updateNames, fields).value.0;
            db'.settlements == db.settlements && db'.cards[id] == db.cards[id]
  {
    SettlementsAreStable(
      dict, db.cards[id], Tables(db.cards[org], db.settlements, db.nextId), data, updateNames, updateNames);
  }

  lemma AbsorbedMemberStays(dict: Dictionary, db: Db, org: OrgId, data: Data, updateNames: bool)
    requires org in db.cards && Absorbed(dict, db.cards[org], db.settlements, data, updateNames)
    ensures ApplyMember(dict, db, org, data, updateNames, {}) == Ok((db, {}))
  {
    var s := Tables(db.cards[org], db.settlements, db.nextId);
    var no: seq<Field> := [];
    assert Apply(dict, s, data, updateNames) == Ok(Applied(s, no));
    assert db.cards[org := db.cards[org]] == db.cards;
    assert {} + (set f | f in no) == {};
  }

  lemma {:induction false} AbsorbedGroupStays(
    dict: Dictionary, db: Db, group: seq<OrgId>, data: Data, updateNames: bool)
    requires forall id | id in group ::
               id in db.cards && Absorbed(dict, db.cards[id], db.settlements, data, updateNames)
    ensures ApplyGroup(dict, db, group, data, updateNames) == Ok((db, {}))
  {
    if group != [] {
      var last := group[|group| - 1];
      AbsorbedGroupStays(dict, db, group[..|group| - 1], data, updateNames);
      AbsorbedMemberStays(dict, db, last, data, updateNames);
    }
  }

  lemma {:induction false} SameColumnsSameGroup(
    ids: seq<OrgId>, cards: map<OrgId, Card>, cards': map<OrgId, Card>, inn: string)
    requires cards.Keys == cards'.Keys && forall id | id in cards :: cards'[id].inn == cards[id].inn
    ensures GroupOf(ids, cards', inn) == GroupOf(ids, cards, inn)
  {
    if ids != [] {
      SameColumnsSameGroup(ids[..|ids| - 1], cards, cards', inn);
    }
  }

  /** Refreshing once more with the same answer updates no field of any card. */
  lemma SecondRefreshDoesNothing(dict: Dictionary, db: Db, org: OrgId, requested: string, response: Response)
    requires Valid(db) && UniqueIds(dict.requisiteTypes) && Finish(dict, db, org, requested, response).Ok?
    ensures var o := Finish(dict, db, org, requested, response).value;
            Finish(dict, o.db, org, requested, response) == Ok(o.(updated := {}))
  {
    var o := Finish(dict, db, org, requested, response).value;
    RefreshIsSafe(dict, db, org, requested, response);
    if o.status == Updated {
      var data := response.data.value;
      var group := GroupOf(db.ids, db.cards, requested);
      GroupMembers(db.ids, db.cards, requested);
      GroupHasNoRepeats(db.ids, db.cards, requested);
      GroupAbsorbs(dict, db, group, data, |group| == 1);
      SameColumnsSameGroup(db.ids, db.cards, o.db.cards, requested);
      AbsorbedGroupStays(dict, o.db, group, data, |group| == 1);
    }
  }
}
