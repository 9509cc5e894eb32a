/**
 Applying the data of an external lookup to an organization card: texts, requisites found by the name
 of their type, the INN column, the settlement and the first e-mail.
 */
module ApplyDadata {
  import opened Options
  import opened Text
  import opened Cards
  import CardInn

  datatype TextField = NameLong | NameShort | ChiefName | ChiefPost
  datatype Field = TextOf(text: TextField) | Inn | Ogrn | Kpp | LegalAddress | Okved | SettlementName | Email

  /** What the lookup returns; the INN is always there. */
  datatype Data = Data(
    inn: string, ogrn: Option<string>, kpp: Option<string>, okved: Option<string>, okvedName: Option<string>,
    nameLong: Option<string>, nameShort: Option<string>, chiefName: Option<string>, chiefPost: Option<string>,
    legalAddress: Option<string>, settlementName: Option<string>, email: Option<string>)

  datatype Error = SettlementTooLong | SettlementAmbiguous

  const INN_NAMES: set<string> := {"инн"}
  const OGRN_NAMES: set<string> := {"огрн"}
  const KPP_NAMES: set<string> := {"кпп"}
  const LEGAL_ADDRESS_NAMES: set<string> := {"юридический адрес"}
  const OKVED_NAMES: set<string> := {"оквэд (основной)", "оквэд"}
  const EMAIL_NAMES: set<string> := {"email", "e-mail", "электронная почта", "почта"}
  const MAX_SETTLEMENT_LENGTH := 255

  /** A given value is written when it is not blank and not already stored, white space apart. */
  predicate Differs(stored: Option<string>, given: Option<string>) {
    Normalize(given).Some? && Normalize(stored) != Normalize(given)
  }

  // ---- texts ----

  datatype TextSpec = TextSpec(field: TextField, value: Option<string>)

  function GetText(card: Card, f: TextField): Option<string> {
    match f
    case NameLong => card.nameLong
    case NameShort => card.nameShort
    case ChiefName => card.chiefName
    case ChiefPost => card.chiefPost
  }

  function SetText(card: Card, f: TextField, value: Option<string>): Card {
    match f
    case NameLong => card.(nameLong := value)
    case NameShort => card.(nameShort := value)
    case ChiefName => card.(chiefName := value)
    case ChiefPost => card.(chiefPost := value)
  }

  function TextSpecs(data: Data, updateNames: bool): seq<TextSpec> {
    (if updateNames then [TextSpec(NameLong, data.nameLong), TextSpec(NameShort, data.nameShort)] else [])
    + [TextSpec(ChiefName, data.chiefName), TextSpec(ChiefPost, data.chiefPost)]
  }

  function ApplyText(card: Card, spec: TextSpec): Card {
    if Differs(GetText(card, spec.field), spec.value) then SetText(card, spec.field, Normalize(spec.value)) else card
  }

  function ApplyTexts(card: Card, specs: seq<TextSpec>): (Card, seq<Field>) {
    if specs == [] then (card, [])
    else
      var (before, fields) := ApplyTexts(card, specs[..|specs| - 1]);
      var spec := specs[|specs| - 1];
      (ApplyText(before, spec),
       if Differs(GetText(before, spec.field), spec.value) then fields + [TextOf(spec.field)] else fields)
  }

  // ---- requisites ----

  datatype RowSpec = RowSpec(field: Field, names: set<string>, value: Option<string>)

  /** `_format_okved` */
  function FormatOkved(data: Data): Option<string> {
    var code, name := Normalize(data.okved), Normalize(data.okvedName);
    if code.Some? && name.Some? then Some(code.value + " " + name.value)
    else if code.Some? then code
    else name
  }

  function RowSpecs(data: Data): seq<RowSpec> {
    [RowSpec(Inn, INN_NAMES, Some(data.inn)), RowSpec(Ogrn, OGRN_NAMES, data.ogrn), RowSpec(Kpp, KPP_NAMES, data.kpp),
     RowSpec(LegalAddress, LEGAL_ADDRESS_NAMES, data.legalAddress), RowSpec(Okved, OKVED_NAMES, FormatOkved(data))]
  }

  /** The first row of a type, or the number of rows. */
  function FirstRow(rows: seq<Requisite>, t: TypeId): (k: nat)
    ensures k <= |rows|
    ensures k < |rows| ==> rows[k].typeId == t
    ensures forall j | 0 <= j < k :: rows[j].typeId != t
  {
    if rows == [] || rows[0].typeId == t then 0 else 1 + FirstRow(rows[1..], t)
  }

  /** What the card shows under a type: its first row, trimmed. */
  function RowText(rows: seq<Requisite>, t: TypeId): Option<string> {
    var k := FirstRow(rows, t);
    if k < |rows| then Normalize(rows[k].data) else None
  }

  function PutRow(rows: seq<Requisite>, t: TypeId, value: Option<string>, nextId: Id): seq<Requisite> {
    var k := FirstRow(rows, t);
    if k < |rows| then rows[k := rows[k].(data := value)] else rows + [CardInn.Requisite(nextId, t, value)]
  }

  datatype Rows = Rows(rows: seq<Requisite>, nextId: Id)

  /** `_upsert_requisite` returns true. */
  predicate RowDiffers(types: seq<Named>, rows: seq<Requisite>, spec: RowSpec) {
    var t := FindType(types, spec.names);
    t.Some? && Normalize(spec.value).Some? && RowText(rows, t.value) != Normalize(spec.value)
  }

  /** `_upsert_requisite` */
  function ApplyRow(types: seq<Named>, r: Rows, spec: RowSpec): Rows {
    if RowDiffers(types, r.rows, spec) then
      var rows := PutRow(r.rows, FindType(types, spec.names).value, Normalize(spec.value), r.nextId);
      Rows(rows, if |rows| > |r.rows| then r.nextId + 1 else r.nextId)
    else r
  }

  function ApplyRows(types: seq<Named>, r: Rows, specs: seq<RowSpec>): (Rows, seq<Field>) {
    if specs == [] then (r, [])
    else
      var (before, fields) := ApplyRows(types, r, specs[..|specs| - 1]);
      var spec := specs[|specs| - 1];
      (ApplyRow(types, before, spec), if RowDiffers(types, before.rows, spec) then fields + [spec.field] else fields)
  }

  // ---- settlement ----

  function NamesakesOf(settlements: seq<Named>, name: string): seq<Id> {
    if settlements == [] then []
    else
      NamesakesOf(settlements[..|settlements| - 1], name)
      + (if Lower(settlements[|settlements| - 1].name) == Lower(name) then [settlements[|settlements| - 1].id] else [])
  }

  datatype Settled = Settled(settlements: seq<Named>, nextId: Id, chosen: Option<Id>)

  /** `_resolve_settlement_id` */
  function ResolveSettlement(settlements: seq<Named>, nextId: Id, name: Option<string>): Result<Settled, Error> {
    var prepared := Normalize(name);
    if !FitsLimit(name, MAX_SETTLEMENT_LENGTH) then Err(SettlementTooLong)
    else if prepared.None? then Ok(Settled(settlements, nextId, None))
    else
      var found := NamesakesOf(settlements, prepared.value);
      if |found| > 1 then Err(SettlementAmbiguous)
      else if |found| == 1 then Ok(Settled(settlements, nextId, Some(found[0])))
      else Ok(Settled(settlements + [Named(nextId, prepared.value)], nextId + 1, Some(nextId)))
  }

  /** Only a name that is present and not empty is resolved at all. */
  predicate GivesSettlement(data: Data) {
    data.settlementName.Some? && data.settlementName.value != ""
  }

  // ---- e-mail ----

  function FirstContact(contacts: seq<Contact>, t: TypeId): (k: nat)
    ensures k <= |contacts|
    ensures k < |contacts| ==> contacts[k].typeId == t
    ensures forall j | 0 <= j < k :: contacts[j].typeId != t
  {
    if contacts == [] || contacts[0].typeId == t then 0 else 1 + FirstContact(contacts[1..], t)
  }

  function ContactText(contacts: seq<Contact>, t: TypeId): Option<string> {
    var k := FirstContact(contacts, t);
    if k < |contacts| then Normalize(contacts[k].data) else None
  }

  predicate EmailDiffers(types: seq<Named>, card: Card, email: Option<string>) {
    var t := FindType(types, EMAIL_NAMES);
    t.Some? && Normalize(email).Some? && ContactText(card.contacts, t.value) != Normalize(email)
  }

  /** `_upsert_email_contact` */
  function ApplyEmail(types: seq<Named>, card: Card, nextId: Id, email: Option<string>): (Card, Id) {
    if !EmailDiffers(types, card, email) then (card, nextId)
    else
      var t := FindType(types, EMAIL_NAMES).value;
      var k := FirstContact(card.contacts, t);
      if k < |card.contacts| then
        (card.(contacts := card.contacts[k := card.contacts[k].(data := Normalize(email))]), nextId)
      else
        (card.(entities := card.entities + [Entity(nextId, None, None)],
               contacts := card.contacts + [Contact(nextId + 1, nextId, t, Normalize(email))]),
         nextId + 2)
  }

  // ---- all together ----

  /** The card, the settlements and the next free id. */
  datatype Tables = Tables(card: Card, settlements: seq<Named>, nextId: Id)
  datatype Applied = Applied(tables: Tables, updated: seq<Field>)

  function SettlementStep(s: Tables, data: Data): Result<Settled, Error> {
    if GivesSettlement(data) then ResolveSettlement(s.settlements, s.nextId, data.settlementName)
    else Ok(Settled(s.settlements, s.nextId, s.card.settlement))
  }

  /** Texts, requisites and the INN column: the part that cannot fail. */
  function ApplyCore(dict: Dictionary, s: Tables, data: Data, updateNames: bool): Applied {
    var (named, texts) := ApplyTexts(s.card, TextSpecs(data, updateNames));
    var (r, rowFields) := ApplyRows(dict.requisiteTypes, Rows(named.requisites, s.nextId), RowSpecs(data));
    var fields := texts + rowFields;
    Applied(Tables(named.(requisites := r.rows, inn := Some(data.inn)), s.settlements, r.nextId),
            if s.card.inn != Some(data.inn) && Inn !in fields then fields + [Inn] else fields)
  }

  /** The settlement and the e-mail. */
  function ApplyRest(dict: Dictionary, s: Tables, data: Data): Result<Applied, Error> {
    match SettlementStep(s, data)
    case Err(e) => Err(e)
    case Ok(settled) =>
      var card := s.card.(settlement := settled.chosen);
      var (last, nextId) := ApplyEmail(dict.contactTypes, card, settled.nextId, data.email);
      Ok(Applied(Tables(last, settled.settlements, nextId),
                 (if settled.chosen != s.card.settlement then [SettlementName] else [])
                 + (if EmailDiffers(dict.contactTypes, card, data.email) then [Email] else [])))
  }

  /** `apply_dadata_to_organization` */
  function Apply(dict: Dictionary, s: Tables, data: Data, updateNames: bool): Result<Applied, Error> {
    var core := ApplyCore(dict, s, data, updateNames);
    match ApplyRest(dict, core.tables, data)
    case Err(e) => Err(e)
    case Ok(rest) => Ok(Applied(rest.tables, core.updated + rest.updated))
  }

  // ---- what the text loop does ----

  predicate DistinctTexts(specs: seq<TextSpec>) {
    forall i, j | 0 <= i < j < |specs| :: specs[i].field != specs[j].field
  }

  predicate TextStored(card: Card, spec: TextSpec) {
    Normalize(spec.value).Some? ==> Normalize(GetText(card, spec.field)) == Normalize(spec.value)
  }

  /** A text is what it was, or what the data give for it. */
  ghost predicate TextKept(specs: seq<TextSpec>, card: Card, card': Card, f: TextField) {
    || GetText(card', f) == GetText(card, f)
    || exists i :: 0 <= i < |specs| && specs[i].field == f && Normalize(specs[i].value).Some?
         && GetText(card', f) == Normalize(specs[i].value)
  }

  lemma SetTextGet(card: Card, f: TextField, value: Option<string>, g: TextField)
    ensures GetText(SetText(card, f, value), g) == if f == g then value else GetText(card, g)
  {
  }

  lemma {:induction false} TextsKept(card: Card, specs: seq<TextSpec>)
    ensures var card' := ApplyTexts(card, specs).0;
            && (forall f :: TextKept(specs, card, card', f))
            && SameButTexts(card, card')
  {
    if specs != [] {
      var front, spec := specs[..|specs| - 1], specs[|specs| - 1];
      var before := ApplyTexts(card, front).0;
      var card' := ApplyTexts(card, specs).0;
      TextsKept(card, front);
      forall f
        ensures TextKept(specs, card, card', f)
      {
        assert TextKept(front, card, before, f);
        SetTextGet(before, spec.field, Normalize(spec.value), f);
        if i :| && 0 <= i < |front| && front[i].field == f && Normalize(front[i].value).Some?
                && GetText(before, f) == Normalize(front[i].value) {
          assert specs[i] == front[i];
        }
      }
    }
  }

  predicate SameButTexts(card: Card, card': Card) {
    card == card'.(nameLong := card.nameLong, nameShort := card.nameShort,
                   chiefName := card.chiefName, chiefPost := card.chiefPost)
  }

  lemma {:induction false} TextsAreStored(card: Card, specs: seq<TextSpec>)
    requires DistinctTexts(specs)
    ensures forall i | 0 <= i < |specs| :: TextStored(ApplyTexts(card, specs).0, specs[i])
  {
    if specs != [] {
      var front, spec := specs[..|specs| - 1], specs[|specs| - 1];
      var before := ApplyTexts(card, front).0;
      TextsAreStored(card, front);
      NormalizeIsClean(spec.value);
      forall f
        ensures f != spec.field ==> GetText(ApplyTexts(card, specs).0, f) == GetText(before, f)
      {
        SetTextGet(before, spec.field, Normalize(spec.value), f);
      }
      SetTextGet(before, spec.field, Normalize(spec.value), spec.field);
      forall i | 0 <= i < |front|
        ensures TextStored(ApplyTexts(card, specs).0, front[i])
      {
        assert front[i] == specs[i];
      }
    }
  }

  lemma {:induction false} UnlistedTextsStay(card: Card, specs: seq<TextSpec>, f: TextField)
    requires forall i | 0 <= i < |specs| :: specs[i].field != f
    ensures GetText(ApplyTexts(card, specs).0, f) == GetText(card, f)
  {
    if specs != [] {
      var front, spec := specs[..|specs| - 1], specs[|specs| - 1];
      assert forall i | 0 <= i < |front| :: front[i] == specs[i];
      UnlistedTextsStay(card, front, f);
      SetTextGet(ApplyTexts(card, front).0, spec.field, Normalize(spec.value), f);
    }
  }

  /** Texts already stored are left alone. */
  lemma {:induction false} StoredTextsStay(card: Card, specs: seq<TextSpec>)
    requires forall i | 0 <= i < |specs| :: TextStored(card, specs[i])
    ensures ApplyTexts(card, specs) == (card, [])
  {
    if specs != [] {
      StoredTextsStay(card, specs[..|specs| - 1]);
    }
  }

  /** A reported text is a text whose stored value is another one now. */
  lemma {:induction false} ReportedTextsChanged(card: Card, specs: seq<TextSpec>)
    requires DistinctTexts(specs)
    ensures var (card', fields) := ApplyTexts(card, specs);
            && (forall x | x in fields :: x.TextOf? && GetText(card', x.text) != GetText(card, x.text))
            && (fields == [] ==> card' == card)
  {
    if specs != [] {
      var front, spec := specs[..|specs| - 1], specs[|specs| - 1];
      var (before, fields) := ApplyTexts(card, front);
      ReportedTextsChanged(card, front);
      assert forall i | 0 <= i < |front| :: front[i] == specs[i];
      UnlistedTextsStay(card, front, spec.field);
      assert GetText(before, spec.field) == GetText(card, spec.field);
      forall x | x in fields
        ensures GetText(ApplyTexts(card, specs).0, x.text) != GetText(card, x.text)
      {
        SetTextGet(before, spec.field, Normalize(spec.value), x.text);
      }
      NormalizeIsClean(spec.value);
      SetTextGet(before, spec.field, Normalize(spec.value), spec.field);
    }
  }

  // ---- what the requisite loop does ----

  /** No two entries name the same type. */
  predicate Apart(types: seq<Named>, specs: seq<RowSpec>) {
    forall i, j | 0 <= i < j < |specs| && FindType(types, specs[i].names).Some? ::
      FindType(types, specs[i].names) != FindType(types, specs[j].names)
  }

  predicate RowStored(types: seq<Named>, rows: seq<Requisite>, spec: RowSpec) {
    !RowDiffers(types, rows, spec)
  }

  lemma PutRowText(rows: seq<Requisite>, t: TypeId, value: Option<string>, nextId: Id, u: TypeId)
    requires Clean(value)
    ensures RowText(PutRow(rows, t, value, nextId), u) == if u == t then value else RowText(rows, u)
  {
    var k, rows' := FirstRow(rows, t), PutRow(rows, t, value, nextId);
    var m, m' := FirstRow(rows, u), FirstRow(rows', u);
    assert forall j | 0 <= j < |rows| :: rows'[j].typeId == rows[j].typeId;
    if m < |rows| {
      assert m' == m;
    } else if u == t {
      assert k == |rows| && rows'[|rows|].typeId == t;
      assert m' == |rows|;
    } else {
      assert m' == |rows'|;
    }
  }

  lemma {:induction false} RowsAreStored(types: seq<Named>, r: Rows, specs: seq<RowSpec>)
    requires Apart(types, specs)
    ensures forall i | 0 <= i < |specs| :: RowStored(types, ApplyRows(types, r, specs).0.rows, specs[i])
    ensures forall u: TypeId | (forall i | 0 <= i < |specs| :: FindType(types, specs[i].names) != Some(u)) ::
              RowText(ApplyRows(types, r, specs).0.rows, u) == RowText(r.rows, u)
  {
    if specs != [] {
      var front, spec := specs[..|specs| - 1], specs[|specs| - 1];
      var before, after := ApplyRows(types, r, front).0, ApplyRows(types, r, specs).0;
      RowsAreStored(types, r, front);
      NormalizeIsClean(spec.value);
      assert forall i | 0 <= i < |front| :: front[i] == specs[i];
      forall u: TypeId
        ensures RowDiffers(types, before.rows, spec) ==>
                  RowText(after.rows, u)
                  == if Some(u) == FindType(types, spec.names) then Normalize(spec.value) else RowText(before.rows, u)
      {
        if RowDiffers(types, before.rows, spec) {
          PutRowText(before.rows, FindType(types, spec.names).value, Normalize(spec.value), before.nextId, u);
        }
      }
      forall i | 0 <= i < |front|
        ensures RowStored(types, after.rows, specs[i])
      {
        assert RowStored(types, before.rows, front[i]);
      }
    }
  }

  lemma {:induction false} StoredRowsStay(types: seq<Named>, r: Rows, specs: seq<RowSpec>)
    requires forall i | 0 <= i < |specs| :: RowStored(types, r.rows, specs[i])
    ensures ApplyRows(types, r, specs) == (r, [])
  {
    if specs != [] {
      StoredRowsStay(types, r, specs[..|specs| - 1]);
    }
  }

  /** A row the data account for: of the type of one of its entries, with that entry's value. */
  ghost predicate WrittenBy(types: seq<Named>, specs: seq<RowSpec>, row: Requisite) {
    exists i :: 0 <= i < |specs| && FindType(types, specs[i].names) == Some(row.typeId)
                && row.data.Some? && row.data == Normalize(specs[i].value)
  }

  /** Rows keep their places, ids and types; what is new in them comes from the data. */
  ghost predicate RowsKept(types: seq<Named>, specs: seq<RowSpec>, rows: seq<Requisite>, rows': seq<Requisite>) {
    && |rows| <= |rows'|
    && (forall j | 0 <= j < |rows'| && (j < |rows| ==> rows'[j] != rows[j]) :: WrittenBy(types, specs, rows'[j]))
    && (forall j | 0 <= j < |rows| :: rows'[j].id == rows[j].id && rows'[j].typeId == rows[j].typeId)
  }

  lemma {:induction false} RowsAreKept(types: seq<Named>, r: Rows, specs: seq<RowSpec>)
    ensures RowsKept(types, specs, r.rows, ApplyRows(types, r, specs).0.rows)
  {
    if specs != [] {
      var front, spec := specs[..|specs| - 1], specs[|specs| - 1];
      var before, after := ApplyRows(types, r, front).0, ApplyRows(types, r, specs).0;
      RowsAreKept(types, r, front);
      forall j | 0 <= j < |after.rows| && (j < |r.rows| ==> after.rows[j] != r.rows[j])
        ensures WrittenBy(types, specs, after.rows[j])
      {
        if j < |before.rows| && after.rows[j] == before.rows[j] {
          assert WrittenBy(types, front, before.rows[j]);
          var i :| 0 <= i < |front| && FindType(types, front[i].names) == Some(before.rows[j].typeId)
                   && before.rows[j].data.Some? && before.rows[j].data == Normalize(front[i].value);
          assert specs[i] == front[i];
        } else {
          assert specs[|front|] == spec;
        }
      }
    }
  }

  /** A reported requisite reads differently now. */
  lemma {:induction false} ReportedRowsChanged(types: seq<Named>, r: Rows, specs: seq<RowSpec>)
    requires Apart(types, specs)
    ensures var (after, fields) := ApplyRows(types, r, specs);
            && (fields == [] ==> after == r)
            && (fields != [] ==> after.rows != r.rows)
  {
    if specs != [] {
      var front, spec := specs[..|specs| - 1], specs[|specs| - 1];
      var (before, fields) := ApplyRows(types, r, front);
      ReportedRowsChanged(types, r, front);
      RowsAreStored(types, r, front);
      assert forall i | 0 <= i < |front| :: front[i] == specs[i];
      if RowDiffers(types, before.rows, spec) {
        var t := FindType(types, spec.names).value;
        NormalizeIsClean(spec.value);
        PutRowText(before.rows, t, Normalize(spec.value), before.nextId, t);
        assert RowText(before.rows, t) == RowText(r.rows, t);
      }
    }
  }
}
