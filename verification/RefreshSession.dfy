/**
 The database session of a refresh: rows are set in place, one field after another and one card after
 another. A method that fails leaves the tables as the rollback of its caller does.
 */
module RefreshSession {
  import opened Options
  import opened Text
  import opened Cards
  import opened ApplyDadata
  import opened Refresh

  /** What `Apply` sees of the database for one organization, and what it puts back. */
  function TablesOf(db: Db, org: OrgId): Tables
    requires org in db.cards
  {
    ApplyDadata.Tables(db.cards[org], db.settlements, db.nextId)
  }

  function Put(db: Db, org: OrgId, t: Tables): Db {
    Db(db.ids, db.cards[org := t.card], t.settlements, t.nextId)
  }

  lemma PutGet(db: Db, org: OrgId, t: Tables)
    ensures TablesOf(Put(db, org, t), org) == t
  {
  }

  lemma PutPut(db: Db, org: OrgId, t: Tables, u: Tables)
    ensures Put(Put(db, org, t), org, u) == Put(db, org, u)
  {
    assert db.cards[org := t.card][org := u.card] == db.cards[org := u.card];
  }

  class Session {
    const dictionary: Dictionary
    var ids: seq<OrgId>
    var cards: map<OrgId, Card>
    var settlements: seq<Named>
    var nextId: Id

    constructor (dictionary: Dictionary, db: Db)
      ensures this.dictionary == dictionary && Tables() == db
    {
      this.dictionary := dictionary;
      ids, cards, settlements, nextId := db.ids, db.cards, db.settlements, db.nextId;
    }

    function Tables(): Db
      reads this
    {
      Db(ids, cards, settlements, nextId)
    }

    method SetTexts(org: OrgId, specs: seq<TextSpec>) returns (fields: seq<Field>)
      requires org in cards
      modifies this
      ensures Tables() == old(Tables()).(cards := old(cards)[org := ApplyTexts(old(cards)[org], specs).0])
      ensures fields == ApplyTexts(old(cards)[org], specs).1
    {
      fields := [];
      var i := 0;
      assert cards == old(cards)[org := old(cards)[org]];
      while i < |specs|
        invariant 0 <= i <= |specs|
        invariant org in cards
        invariant (cards[org], fields) == ApplyTexts(old(cards)[org], specs[..i])
        invariant Tables() == old(Tables()).(cards := old(cards)[org := cards[org]])
      {
        assert specs[..i + 1][..i] == specs[..i];
        var spec := specs[i];
        if Differs(GetText(cards[org], spec.field), spec.value) {
          cards := cards[org := SetText(cards[org], spec.field, Normalize(spec.value))];
          fields := fields + [TextOf(spec.field)];
        }
        i := i + 1;
      }
      assert specs[..i] == specs;
    }

    method UpsertRequisite(org: OrgId, spec: RowSpec) returns (changed: bool)
      requires org in cards
      modifies this
      ensures changed == RowDiffers(dictionary.requisiteTypes, old(cards)[org].requisites, spec)
      ensures var r := ApplyRow(dictionary.requisiteTypes, Rows(old(cards)[org].requisites, old(nextId)), spec);
              Tables() == old(Tables()).(
                cards := old(cards)[org := old(cards)[org].(requisites := r.rows)], nextId := r.nextId)
    {
      var prepared, t := Normalize(spec.value), FindType(dictionary.requisiteTypes, spec.names);
      assert cards[org := cards[org].(requisites := cards[org].requisites)] == cards;
      if prepared.None? || t.None? {
        return false;
      }
      var rows := cards[org].requisites;
      var k := FirstRow(rows, t.value);
      if k == |rows| {
        cards := cards[org := cards[org].(requisites := PutRow(rows, t.value, prepared, nextId))];
        nextId := nextId + 1;
        return true;
      }
      if Normalize(rows[k].data) == prepared {
        return false;
      }
      cards := cards[org := cards[org].(requisites := rows[k := rows[k].(data := prepared)])];
      changed := true;
    }

    method UpsertRequisites(org: OrgId, specs: seq<RowSpec>) returns (fields: seq<Field>)
      requires org in cards
      modifies this
      ensures var (r, reported) :=
                ApplyRows(dictionary.requisiteTypes, Rows(old(cards)[org].requisites, old(nextId)), specs);
              && fields == reported
              && Tables() == old(Tables()).(
                   cards := old(cards)[org := old(cards)[org].(requisites := r.rows)], nextId := r.nextId)
    {
      fields := [];
      var i := 0;
      assert cards == old(cards)[org := old(cards)[org].(requisites := old(cards)[org].requisites)];
      while i < |specs|
        invariant 0 <= i <= |specs|
        invariant org in cards
        invariant (Rows(cards[org].requisites, nextId), fields)
               == ApplyRows(dictionary.requisiteTypes, Rows(old(cards)[org].requisites, old(nextId)), specs[..i])
        invariant Tables() == old(Tables()).(
                    cards := old(cards)[org := old(cards)[org].(requisites := cards[org].requisites)],
                    nextId := nextId)
      {
        assert specs[..i + 1][..i] == specs[..i];
        var changed := UpsertRequisite(org, specs[i]);
        if changed {
          fields := fields + [specs[i].field];
        }
        i := i + 1;
      }
      assert specs[..i] == specs;
    }

    /** Texts, requisites and the INN column. */
    method SetCore(org: OrgId, data: Data, updateNames: bool) returns (updated: seq<Field>)
      requires org in cards
      modifies this
      ensures var core := ApplyCore(dictionary, TablesOf(old(Tables()), org), data, updateNames);
              && updated == core.updated
              && Tables() == Put(old(Tables()), org, core.tables)
    {
      ghost var before := cards[org];
      var texts := SetTexts(org, TextSpecs(data, updateNames));
      CoreKeepsInn(before, TextSpecs(data, updateNames));
      var rows := UpsertRequisites(org, RowSpecs(data));
      updated := texts + rows;
      if cards[org].inn != Some(data.inn) {
        cards := cards[org := cards[org].(inn := Some(data.inn))];
        if Inn !in updated {
          updated := updated + [Inn];
        }
      }
    }

    method SetSettlement(org: OrgId, data: Data) returns (outcome: Result<bool, Error>)
      requires org in cards
      modifies this
      ensures match SettlementStep(TablesOf(old(Tables()), org), data)
              case Err(e) => outcome == Err(e) && Tables() == old(Tables())
              case Ok(s) =>
                && outcome == Ok(s.chosen != old(cards)[org].settlement)
                && Tables() == Put(old(Tables()), org,
                     ApplyDadata.Tables(old(cards)[org].(settlement := s.chosen), s.settlements, s.nextId))
    {
      assert cards == cards[org := cards[org].(settlement := cards[org].settlement)];
      if !GivesSettlement(data) {
        return Ok(false);
      }
      var settled := ResolveSettlement(settlements, nextId, data.settlementName);
      match settled {
        case Err(e) => outcome := Err(e);
        case Ok(s) =>
          settlements, nextId := s.settlements, s.nextId;
          outcome := Ok(cards[org].settlement != s.chosen);
          if cards[org].settlement != s.chosen {
            cards := cards[org := cards[org].(settlement := s.chosen)];
          }
      }
    }

    method UpsertEmailContact(org: OrgId, email: Option<string>) returns (changed: bool)
      requires org in cards
      modifies this
      ensures changed == EmailDiffers(dictionary.contactTypes, old(cards)[org], email)
      ensures var (card, next) := ApplyEmail(dictionary.contactTypes, old(cards)[org], old(nextId), email);
              Tables() == Put(old(Tables()), org, ApplyDadata.Tables(card, old(settlements), next))
    {
      assert cards == cards[org := cards[org]];
      var prepared, t := Normalize(email), FindType(dictionary.contactTypes, EMAIL_NAMES);
      if prepared.None? || t.None? {
        return false;
      }
      var card := cards[org];
      var k := FirstContact(card.contacts, t.value);
      if k < |card.contacts| {
        if Normalize(card.contacts[k].data) == prepared {
          return false;
        }
        cards := cards[org := card.(contacts := card.contacts[k := card.contacts[k].(data := prepared)])];
        return true;
      }
      var entity := nextId;
      cards := cards[org := card.(entities := card.entities + [Entity(entity, None, None)],
                                  contacts := card.contacts + [Contact(entity + 1, entity, t.value, prepared)])];
      nextId := nextId + 2;
      changed := true;
    }

    /** `apply_dadata_to_organization` on one card. */
    method ApplyData(org: OrgId, data: Data, updateNames: bool) returns (outcome: Result<seq<Field>, Error>)
      requires org in cards
      modifies this
      ensures match Apply(dictionary, TablesOf(old(Tables()), org), data, updateNames)
              case Err(e) => outcome == Err(e) && Tables() == old(Tables())
              case Ok(a) => outcome == Ok(a.updated) && Tables() == Put(old(Tables()), org, a.tables)
    {
      var before := Tables();
      ghost var core := ApplyCore(dictionary, TablesOf(before, org), data, updateNames).tables;
      var updated := SetCore(org, data, updateNames);
      PutGet(before, org, core);
      var rest := SetRest(org, data);
      if rest.Err? {
        cards, nextId := before.cards, before.nextId;
        return Err(rest.error);
      }
      PutPut(before, org, core, ApplyRest(dictionary, core, data).value.tables);
      outcome := Ok(updated + rest.value);
    }

    /** The settlement and the e-mail. */
    method SetRest(org: OrgId, data: Data) returns (outcome: Result<seq<Field>, Error>)
      requires org in cards
      modifies this
      ensures match ApplyRest(dictionary, TablesOf(old(Tables()), org), data)
              case Err(e) => outcome == Err(e) && Tables() == old(Tables())
              case Ok(a) => outcome == Ok(a.updated) && Tables() == Put(old(Tables()), org, a.tables)
    {
      ghost var before := Tables();
      var settled := SetSettlement(org, data);
      if settled.Err? {
        return Err(settled.error);
      }
      ghost var resolved := SettlementStep(TablesOf(before, org), data).value;
      ghost var chosen := ApplyDadata.Tables(
        before.cards[org].(settlement := resolved.chosen), resolved.settlements, resolved.nextId);
      PutGet(before, org, chosen);
      var emailed := UpsertEmailContact(org, data.email);
      PutPut(before, org, chosen, TablesOf(Tables(), org));
      outcome := Ok((if settled.value then [SettlementName] else []) + (if emailed then [Email] else []));
    }

    /** The part of `refresh_organization_from_dadata` after the lookup. */
    method FinishRefresh(org: OrgId, requested: string, response: Response)
      returns (outcome: Result<(Status, set<Field>, nat), Error>)
      modifies this
      ensures match Finish(dictionary, old(Tables()), org, requested, response)
              case Err(e) => outcome == Err(e) && Tables() == old(Tables())
              case Ok(o) => outcome == Ok((o.status, o.updated, o.processed)) && Tables() == o.db
    {
      var found := FindParty(requested, response);
      match found {
        case LimitReached => return Ok((RateLimited, {}, 0));
        case ClientError => return Ok((Failed, {}, 0));
        case Party(party) =>
          if party.None? {
            return Ok((NotFound, {}, 0));
          }
      }
      if org !in cards || ColumnInn(cards[org].inn) != Some(Some(requested)) {
        return Ok((Skipped, {}, 0));
      }
      var group := GroupOf(ids, cards, requested);
      GroupMembers(ids, cards, requested);
      if org !in group {
        return Ok((Skipped, {}, 0));
      }
      outcome := RefreshGroup(group, found.data.value, |group| == 1);
    }

    method UpdateMember(org: OrgId, data: Data, updateNames: bool, fields: set<Field>)
      returns (outcome: Result<set<Field>, Error>)
      requires org in cards
      modifies this
      ensures match ApplyMember(dictionary, old(Tables()), org, data, updateNames, fields)
              case Err(e) => outcome == Err(e) && Tables() == old(Tables())
              case Ok((db, all)) => outcome == Ok(all) && Tables() == db
    {
      var applied := ApplyData(org, data, updateNames);
      match applied {
        case Err(e) => outcome := Err(e);
        case Ok(updated) => outcome := Ok(fields + (set f | f in updated));
      }
    }

    method RefreshGroup(group: seq<OrgId>, data: Data, updateNames: bool)
      returns (outcome: Result<(Status, set<Field>, nat), Error>)
      requires forall id | id in group :: id in cards
      modifies this
      ensures match ApplyGroup(dictionary, old(Tables()), group, data, updateNames)
              case Err(e) => outcome == Err(e) && Tables() == old(Tables())
              case Ok((db, fields)) => outcome == Ok((Updated, fields, |group|)) && Tables() == db
    {
      var before := Tables();
      var fields: set<Field> := {};
      var i := 0;
      ReachedStart(dictionary, before, group, data, updateNames);
      while i < |group|
        invariant 0 <= i <= |group| && before == old(Tables())
        invariant Reached(dictionary, before, group, i, data, updateNames, Tables(), fields)
      {
        ReachedNext(dictionary, before, group, i, data, updateNames, Tables(), fields);
        var applied := UpdateMember(group[i], data, updateNames, fields);
        match applied {
          case Err(e) =>
            ids, cards, settlements, nextId := before.ids, before.cards, before.settlements, before.nextId;
            return Err(e);
          case Ok(updated) =>
            fields := updated;
        }
        i := i + 1;
      }
      ReachedEnd(dictionary, before, group, data, updateNames, Tables(), fields);
      outcome := Ok((Updated, fields, |group|));
    }
  }

  /** The first `i` cards of the group are done: the tables are `now`, with these fields reported. */
  predicate Reached(
    dict: Dictionary, db: Db, group: seq<OrgId>, i: nat, data: Data, updateNames: bool, now: Db, fields: set<Field>)
  {
    && i <= |group|
    && (forall id | id in group :: id in db.cards)
    && ApplyGroup(dict, db, group[..i], data, updateNames) == Ok((now, fields))
  }

  lemma ReachedStart(dict: Dictionary, db: Db, group: seq<OrgId>, data: Data, updateNames: bool)
    requires forall id | id in group :: id in db.cards
    ensures Reached(dict, db, group, 0, data, updateNames, db, {})
  {
  }

  lemma ReachedNext(
    dict: Dictionary, db: Db, group: seq<OrgId>, i: nat, data: Data, updateNames: bool, now: Db, fields: set<Field>)
    requires i < |group| && Reached(dict, db, group, i, data, updateNames, now, fields)
    ensures group[i] in now.cards
    ensures match ApplyMember(dict, now, group[i], data, updateNames, fields)
            case Err(e) => ApplyGroup(dict, db, group, data, updateNames) == Err(e)
            case Ok((after, all)) => Reached(dict, db, group, i + 1, data, updateNames, after, all)
  {
    assert group[..i + 1][..i] == group[..i];
    assert group[i] in group;
    var next := ApplyMember(dict, now, group[i], data, updateNames, fields);
    assert ApplyGroup(dict, db, group[..i + 1], data, updateNames) == next;
    if next.Err? {
      GroupFailurePropagates(dict, db, group, i + 1, data, updateNames, next.error);
    }
  }

  lemma ReachedEnd(
    dict: Dictionary, db: Db, group: seq<OrgId>, data: Data, updateNames: bool, now: Db, fields: set<Field>)
    requires Reached(dict, db, group, |group|, data, updateNames, now, fields)
    ensures ApplyGroup(dict, db, group, data, updateNames) == Ok((now, fields))
  {
    assert group[..|group|] == group;
  }

  lemma CoreKeepsInn(card: Card, specs: seq<TextSpec>)
    ensures ApplyTexts(card, specs).0.inn == card.inn
  {
    TextsKept(card, specs);
  }

  lemma {:induction false} GroupFailurePropagates(
    dict: Dictionary, db: Db, group: seq<OrgId>, i: nat, data: Data, updateNames: bool, e: Error)
    requires forall id | id in group :: id in db.cards
    requires i <= |group| && ApplyGroup(dict, db, group[..i], data, updateNames) == Err(e)
    ensures ApplyGroup(dict, db, group, data, updateNames) == Err(e)
    decreases |group|
  {
    if i == |group| {
      assert group[..i] == group;
    } else {
      assert group[..|group| - 1][..i] == group[..i];
      GroupFailurePropagates(dict, db, group[..|group| - 1], i, data, updateNames, e);
    }
  }
}
