/**
 What applying external data guarantees as a whole: it stores what it is given, clears nothing, reports
 exactly when it changes something, and a second application does nothing.
 */
module ApplyGuarantees {
  import opened Options
  import opened Text
  import opened Cards
  import opened ApplyDadata
  import CardInn

  lemma RowSpecsApart(types: seq<Named>, data: Data)
    requires UniqueIds(types)
    ensures Apart(types, RowSpecs(data))
  {
    var specs := RowSpecs(data);
    forall i, j | 0 <= i < j < |specs| && FindType(types, specs[i].names).Some?
      ensures FindType(types, specs[i].names) != FindType(types, specs[j].names)
    {
      TypesApart(types, specs[i].names, specs[j].names);
    }
  }

  // ---- settlement and e-mail ----

  lemma {:induction false} NamesakesAreNamed(settlements: seq<Named>, name: string)
    ensures forall id | id in NamesakesOf(settlements, name) ::
              exists i :: 0 <= i < |settlements| && settlements[i].id == id && Lower(settlements[i].name) == Lower(name)
  {
    if settlements != [] {
      var front := settlements[..|settlements| - 1];
      NamesakesAreNamed(front, name);
      forall id | id in NamesakesOf(front, name)
        ensures exists i ::
                  0 <= i < |settlements| && settlements[i].id == id && Lower(settlements[i].name) == Lower(name)
      {
        var i :| 0 <= i < |front| && front[i].id == id && Lower(front[i].name) == Lower(name);
        assert settlements[i] == front[i];
      }
    }
  }

  /** The id chosen belongs to a settlement of that name, and choosing again changes nothing. */
  lemma SettlementIsResolved(settlements: seq<Named>, nextId: Id, name: Option<string>)
    requires ResolveSettlement(settlements, nextId, name).Ok? && Normalize(name).Some?
    ensures var r := ResolveSettlement(settlements, nextId, name).value;
            && settlements <= r.settlements
            && r.chosen.Some?
            && (exists i :: 0 <= i < |r.settlements| && r.settlements[i].id == r.chosen.value
                            && Lower(r.settlements[i].name) == Lower(Normalize(name).value))
            && ResolveSettlement(r.settlements, r.nextId, name) == Ok(r)
  {
    var prepared := Normalize(name).value;
    var r := ResolveSettlement(settlements, nextId, name).value;
    NamesakesAreNamed(settlements, prepared);
    if NamesakesOf(settlements, prepared) == [] {
      assert r.settlements[..|r.settlements| - 1] == settlements;
      assert r.settlements[|settlements|].id == nextId;
    } else {
      assert NamesakesOf(settlements, prepared)[0] in NamesakesOf(settlements, prepared);
    }
  }

  lemma EmailIsStored(types: seq<Named>, card: Card, nextId: Id, email: Option<string>)
    ensures var card' := ApplyEmail(types, card, nextId, email).0;
            && !EmailDiffers(types, card', email)
            && card'.(entities := card.entities, contacts := card.contacts) == card
            && (EmailDiffers(types, card, email) ==> card'.contacts != card.contacts)
            && ContactsKept(types, card, card', email)
  {
    var card' := ApplyEmail(types, card, nextId, email).0;
    if EmailDiffers(types, card, email) {
      NormalizeIsClean(email);
      var t := FindType(types, EMAIL_NAMES).value;
      var k := FirstContact(card.contacts, t);
      assert card'.contacts[k].typeId == t;
      assert forall j | 0 <= j < k :: card'.contacts[j].typeId == card.contacts[j].typeId;
      assert FirstContact(card'.contacts, t) == k;
    }
  }

  /** Contacts keep their places; only a first e-mail is rewritten, and only a missing one is added. */
  ghost predicate ContactsKept(types: seq<Named>, card: Card, card': Card, email: Option<string>) {
    && card.entities <= card'.entities
    && |card.contacts| <= |card'.contacts|
    && (forall j | 0 <= j < |card.contacts| :: card'.contacts[j] == card.contacts[j].(data := card'.contacts[j].data))
    && (forall j | 0 <= j < |card'.contacts| && (j < |card.contacts| ==> card'.contacts[j] != card.contacts[j]) ::
          FindType(types, EMAIL_NAMES) == Some(card'.contacts[j].typeId) && card'.contacts[j].data.Some?
            && card'.contacts[j].data == Normalize(email))
  }

  // ---- the core ----

  lemma CoreIsStored(dict: Dictionary, s: Tables, data: Data, updateNames: bool)
    requires UniqueIds(dict.requisiteTypes)
    ensures var card := ApplyCore(dict, s, data, updateNames).tables.card;
            && (forall i | 0 <= i < |TextSpecs(data, updateNames)| :: TextStored(card, TextSpecs(data, updateNames)[i]))
            && (forall i | 0 <= i < |RowSpecs(data)| ::
                 RowStored(dict.requisiteTypes, card.requisites, RowSpecs(data)[i]))
  {
    RowSpecsApart(dict.requisiteTypes, data);
    var named := ApplyTexts(s.card, TextSpecs(data, updateNames)).0;
    TextsAreStored(s.card, TextSpecs(data, updateNames));
    RowsAreStored(dict.requisiteTypes, Rows(named.requisites, s.nextId), RowSpecs(data));
    var card := ApplyCore(dict, s, data, updateNames).tables.card;
    forall i | 0 <= i < |TextSpecs(data, updateNames)|
      ensures TextStored(card, TextSpecs(data, updateNames)[i])
    {
      assert TextStored(named, TextSpecs(data, updateNames)[i]);
      SameTexts(named, card, TextSpecs(data, updateNames)[i].field);
    }
  }

  lemma SameTexts(card: Card, card': Card, f: TextField)
    requires card'.nameLong == card.nameLong && card'.nameShort == card.nameShort
    requires card'.chiefName == card.chiefName && card'.chiefPost == card.chiefPost
    ensures GetText(card', f) == GetText(card, f)
  {
  }

  lemma StoredCoreStays(dict: Dictionary, s: Tables, data: Data, updateNames: bool)
    requires forall i | 0 <= i < |TextSpecs(data, updateNames)| :: TextStored(s.card, TextSpecs(data, updateNames)[i])
    requires forall i | 0 <= i < |RowSpecs(data)| ::
               RowStored(dict.requisiteTypes, s.card.requisites, RowSpecs(data)[i])
    requires s.card.inn == Some(data.inn)
    ensures ApplyCore(dict, s, data, updateNames) == Applied(s, [])
  {
    StoredTextsStay(s.card, TextSpecs(data, updateNames));
    StoredRowsStay(dict.requisiteTypes, Rows(s.card.requisites, s.nextId), RowSpecs(data));
  }

  // ---- the main results ----

  /** Everything after the core touches only the settlement and the contacts. */
  lemma TailFrame(dict: Dictionary, s: Tables, data: Data, updateNames: bool)
    requires Apply(dict, s, data, updateNames).Ok?
    ensures var card := Apply(dict, s, data, updateNames).value.tables.card;
            var core := ApplyCore(dict, s, data, updateNames).tables.card;
            card.(settlement := core.settlement, entities := core.entities, contacts := core.contacts) == core
  {
    var core := ApplyCore(dict, s, data, updateNames);
    var settled := SettlementStep(core.tables, data).value;
    EmailIsStored(dict.contactTypes, core.tables.card.(settlement := settled.chosen), settled.nextId, data.email);
  }

  /** Applying the same data again reports no field and changes no table. */
  lemma SecondApplicationDoesNothing(dict: Dictionary, s: Tables, data: Data, updateNames: bool)
    requires UniqueIds(dict.requisiteTypes) && Apply(dict, s, data, updateNames).Ok?
    ensures var first := Apply(dict, s, data, updateNames).value;
            Apply(dict, first.tables, data, updateNames) == Ok(Applied(first.tables, []))
  {
    var first := Apply(dict, s, data, updateNames).value;
    var core := ApplyCore(dict, s, data, updateNames);
    var settled := SettlementStep(core.tables, data).value;
    var card := core.tables.card.(settlement := settled.chosen);
    CoreIsStored(dict, s, data, updateNames);
    TailFrame(dict, s, data, updateNames);
    EmailIsStored(dict.contactTypes, card, settled.nextId, data.email);
    forall i | 0 <= i < |TextSpecs(data, updateNames)|
      ensures TextStored(first.tables.card, TextSpecs(data, updateNames)[i])
    {
      SameTexts(core.tables.card, first.tables.card, TextSpecs(data, updateNames)[i].field);
    }
    StoredCoreStays(dict, first.tables, data, updateNames);
  }

  /** The card shows a given requisite, if the dictionary knows its type. */
  ghost predicate Shows(dict: Dictionary, card: Card, names: set<string>, value: Option<string>) {
    FindType(dict.requisiteTypes, names).Some? && Normalize(value).Some? ==>
      RowText(card.requisites, FindType(dict.requisiteTypes, names).value) == Normalize(value)
  }

  ghost predicate ShowsText(card: Card, f: TextField, value: Option<string>) {
    Normalize(value).Some? ==> Normalize(GetText(card, f)) == Normalize(value)
  }

  /** Every value that is given stands in its own place afterwards. */
  lemma GivenValuesAreShown(dict: Dictionary, s: Tables, data: Data, updateNames: bool)
    requires UniqueIds(dict.requisiteTypes) && Apply(dict, s, data, updateNames).Ok?
    ensures var card := Apply(dict, s, data, updateNames).value.tables.card;
            && ShowsText(card, ChiefName, data.chiefName) && ShowsText(card, ChiefPost, data.chiefPost)
            && (updateNames ==> ShowsText(card, NameLong, data.nameLong) && ShowsText(card, NameShort, data.nameShort))
            && Shows(dict, card, INN_NAMES, Some(data.inn)) && Shows(dict, card, OGRN_NAMES, data.ogrn)
            && Shows(dict, card, KPP_NAMES, data.kpp) && Shows(dict, card, LEGAL_ADDRESS_NAMES, data.legalAddress)
            && Shows(dict, card, OKVED_NAMES, FormatOkved(data))
            && card.inn == Some(data.inn)
            && !EmailDiffers(dict.contactTypes, card, data.email)
  {
    var card, core := Apply(dict, s, data, updateNames).value.tables.card, ApplyCore(dict, s, data, updateNames).tables;
    var settled := SettlementStep(core, data).value;
    CoreIsStored(dict, s, data, updateNames);
    TailFrame(dict, s, data, updateNames);
    EmailIsStored(dict.contactTypes, core.card.(settlement := settled.chosen), settled.nextId, data.email);
    var texts, rows := TextSpecs(data, updateNames), RowSpecs(data);
    assert TextStored(core.card, texts[|texts| - 1]) && TextStored(core.card, texts[|texts| - 2]);
    assert updateNames ==> TextStored(core.card, texts[0]) && TextStored(core.card, texts[1]);
    assert RowStored(dict.requisiteTypes, core.card.requisites, rows[0]);
    assert RowStored(dict.requisiteTypes, core.card.requisites, rows[1]);
    assert RowStored(dict.requisiteTypes, core.card.requisites, rows[2]);
    assert RowStored(dict.requisiteTypes, core.card.requisites, rows[3]);
    assert RowStored(dict.requisiteTypes, core.card.requisites, rows[4]);
  }

  /** A settlement that is given by name is the settlement of the card, under that name. */
  lemma GivenSettlementIsChosen(dict: Dictionary, s: Tables, data: Data, updateNames: bool)
    requires Apply(dict, s, data, updateNames).Ok? && Normalize(data.settlementName).Some?
    ensures var t := Apply(dict, s, data, updateNames).value.tables;
            && s.settlements <= t.settlements
            && t.card.settlement.Some?
            && exists i :: 0 <= i < |t.settlements| && t.settlements[i].id == t.card.settlement.value
                           && Lower(t.settlements[i].name) == Lower(Normalize(data.settlementName).value)
  {
    var core := ApplyCore(dict, s, data, updateNames).tables;
    var settled := SettlementStep(core, data).value;
    EmailIsStored(dict.contactTypes, core.card.(settlement := settled.chosen), settled.nextId, data.email);
    SettlementIsResolved(core.settlements, core.nextId, data.settlementName);
  }

  /**
   Values that are absent or blank clear nothing: texts, requisites, contacts and settlements are kept
   or replaced by a given value, and names are kept altogether when several cards share the INN.
   */
  lemma NothingIsCleared(dict: Dictionary, s: Tables, data: Data, updateNames: bool)
    requires Apply(dict, s, data, updateNames).Ok?
    ensures var t := Apply(dict, s, data, updateNames).value.tables;
            && (forall f :: TextKept(TextSpecs(data, updateNames), s.card, t.card, f))
            && RowsKept(dict.requisiteTypes, RowSpecs(data), s.card.requisites, t.card.requisites)
            && ContactsKept(dict.contactTypes, s.card, t.card, data.email)
            && s.settlements <= t.settlements
  {
    var t, core := Apply(dict, s, data, updateNames).value.tables, ApplyCore(dict, s, data, updateNames).tables;
    var named := ApplyTexts(s.card, TextSpecs(data, updateNames)).0;
    var settled := SettlementStep(core, data).value;
    TextsKept(s.card, TextSpecs(data, updateNames));
    RowsAreKept(dict.requisiteTypes, Rows(named.requisites, s.nextId), RowSpecs(data));
    TailFrame(dict, s, data, updateNames);
    EmailIsStored(dict.contactTypes, core.card.(settlement := settled.chosen), settled.nextId, data.email);
    if Normalize(data.settlementName).Some? {
      GivenSettlementIsChosen(dict, s, data, updateNames);
    }
    forall f
      ensures TextKept(TextSpecs(data, updateNames), s.card, t.card, f)
    {
      assert TextKept(TextSpecs(data, updateNames), s.card, named, f);
      SameTexts(named, t.card, f);
    }
  }

  lemma NamesStayInGroups(dict: Dictionary, s: Tables, data: Data)
    requires Apply(dict, s, data, false).Ok?
    ensures var card := Apply(dict, s, data, false).value.tables.card;
            card.nameLong == s.card.nameLong && card.nameShort == s.card.nameShort
  {
    NothingIsCleared(dict, s, data, false);
    var card := Apply(dict, s, data, false).value.tables.card;
    assert TextKept(TextSpecs(data, false), s.card, card, NameLong);
    assert TextKept(TextSpecs(data, false), s.card, card, NameShort);
  }

  /**
   The one way to lose a stored value: a settlement name of white space only is not empty, so it is
   resolved, and it resolves to no settlement.
   */
  lemma SettlementIsLostIff(dict: Dictionary, s: Tables, data: Data, updateNames: bool)
    requires Apply(dict, s, data, updateNames).Ok? && s.card.settlement.Some?
    ensures Apply(dict, s, data, updateNames).value.tables.card.settlement == None
            <==> GivesSettlement(data) && Normalize(data.settlementName) == None
  {
    var core := ApplyCore(dict, s, data, updateNames).tables;
    var settled := SettlementStep(core, data).value;
    EmailIsStored(dict.contactTypes, core.card.(settlement := settled.chosen), settled.nextId, data.email);
    TextsKept(s.card, TextSpecs(data, updateNames));
    if Normalize(data.settlementName).Some? {
      SettlementIsResolved(core.settlements, core.nextId, data.settlementName);
    }
  }

  lemma BlankSettlementIsLost(dict: Dictionary, s: Tables, data: Data, updateNames: bool)
    requires data.settlementName == Some(" ") && s.card.settlement.Some?
    ensures Apply(dict, s, data, updateNames).Ok?
    ensures Apply(dict, s, data, updateNames).value.tables.card.settlement == None
  {
    assert StripLeft(" ") == "";
    SettlementIsLostIff(dict, s, data, updateNames);
  }

  /** The core reports a field exactly when it changes the card. */
  lemma CoreReportsChanges(dict: Dictionary, s: Tables, data: Data, updateNames: bool)
    requires UniqueIds(dict.requisiteTypes)
    ensures var core := ApplyCore(dict, s, data, updateNames);
            && (core.updated == [] ==> core.tables == s)
            && (core.updated != [] ==> core.tables.card != s.card)
            && core.tables.settlements == s.settlements
            && core.tables.card.settlement == s.card.settlement
            && core.tables.card.contacts == s.card.contacts
  {
    RowSpecsApart(dict.requisiteTypes, data);
    var (named, texts) := ApplyTexts(s.card, TextSpecs(data, updateNames));
    var (r, rowFields) := ApplyRows(dict.requisiteTypes, Rows(named.requisites, s.nextId), RowSpecs(data));
    TextsKept(s.card, TextSpecs(data, updateNames));
    ReportedTextsChanged(s.card, TextSpecs(data, updateNames));
    ReportedRowsChanged(dict.requisiteTypes, Rows(named.requisites, s.nextId), RowSpecs(data));
    if texts != [] {
      assert texts[0] in texts;
      SameTexts(named, ApplyCore(dict, s, data, updateNames).tables.card, texts[0].text);
    }
  }

  /** A field is reported if and only if the card changes. */
  lemma ReportsIffChanged(dict: Dictionary, s: Tables, data: Data, updateNames: bool)
    requires UniqueIds(dict.requisiteTypes) && Apply(dict, s, data, updateNames).Ok?
    ensures var a := Apply(dict, s, data, updateNames).value;
            a.updated == [] <==> a.tables.card == s.card
  {
    var a, core := Apply(dict, s, data, updateNames).value, ApplyCore(dict, s, data, updateNames);
    var settled := SettlementStep(core.tables, data).value;
    var card := core.tables.card.(settlement := settled.chosen);
    CoreReportsChanges(dict, s, data, updateNames);
    TailFrame(dict, s, data, updateNames);
    EmailIsStored(dict.contactTypes, card, settled.nextId, data.email);
    if a.tables.card == s.card {
      assert !EmailDiffers(dict.contactTypes, card, data.email);
      assert core.tables.card == s.card;
    }
  }

  // ---- the INN column and the INN requisite ----

  lemma PutRowOnce(rows: seq<Requisite>, t: TypeId, value: Option<string>, nextId: Id, u: TypeId)
    requires CardInn.AtMostOneRow(u, rows)
    ensures CardInn.AtMostOneRow(u, PutRow(rows, t, value, nextId))
  {
  }

  lemma {:induction false} RowsStaySingle(types: seq<Named>, r: Rows, specs: seq<RowSpec>, u: TypeId)
    requires CardInn.AtMostOneRow(u, r.rows)
    ensures CardInn.AtMostOneRow(u, ApplyRows(types, r, specs).0.rows)
  {
    if specs != [] {
      var front, spec := specs[..|specs| - 1], specs[|specs| - 1];
      var before := ApplyRows(types, r, front).0;
      RowsStaySingle(types, r, front, u);
      if RowDiffers(types, before.rows, spec) {
        PutRowOnce(before.rows, FindType(types, spec.names).value, Normalize(spec.value), before.nextId, u);
      }
    }
  }

  /**
   Whatever column and requisite agreed on before, afterwards they agree on the INN of the data. Manual
   saves keep the same agreement, see CardInn.SaveKeepsSound.
   */
  lemma ApplyKeepsSound(dict: Dictionary, s: Tables, data: Data, updateNames: bool, innType: TypeId)
    requires UniqueIds(dict.requisiteTypes) && FindType(dict.requisiteTypes, INN_NAMES) == Some(innType)
    requires Apply(dict, s, data, updateNames).Ok? && IsInn(data.inn)
    requires CardInn.Sound(innType, s.card.requisites, s.card.inn)
    ensures var card := Apply(dict, s, data, updateNames).value.tables.card;
            CardInn.Sound(innType, card.requisites, card.inn) && card.inn == Some(data.inn)
  {
    var card := Apply(dict, s, data, updateNames).value.tables.card;
    var named := ApplyTexts(s.card, TextSpecs(data, updateNames)).0;
    GivenValuesAreShown(dict, s, data, updateNames);
    TextsKept(s.card, TextSpecs(data, updateNames));
    TailFrame(dict, s, data, updateNames);
    CardInn.SoundHasOneRow(innType, s.card.requisites);
    RowsStaySingle(dict.requisiteTypes, Rows(named.requisites, s.nextId), RowSpecs(data), innType);
    InnIsStripped(data.inn);
    var k := FirstRow(card.requisites, innType);
    CardInn.OneRowIsTheInn(innType, card.requisites, k);
  }
}
