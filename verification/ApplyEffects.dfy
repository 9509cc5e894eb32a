/**
 What a card is after external data were applied to it, place by place: each text, each requisite, the settlement,
 the e-mail and the list of reported fields, and when the data are refused.
 */
module ApplyEffects {
  import opened Options
  import opened Text
  import opened Cards
  import opened ApplyDadata
  import opened ApplyGuarantees
  import CardInn

  /** White space at the ends does not count, and nothing is the empty text. */
  function Trimmed(value: Option<string>): string {
    match value
    case None => ""
    case Some(s) => Strip(s)
  }

  /** What a stored text becomes: the given one, unless that is blank or reads the same. */
  function Rewritten(stored: Option<string>, given: Option<string>): Option<string> {
    if Trimmed(given) == "" || Trimmed(given) == Trimmed(stored) then stored else Some(Trimmed(given))
  }

  lemma RewrittenIsChanged(stored: Option<string>, given: Option<string>)
    ensures Differs(stored, given) <==> Rewritten(stored, given) != stored
    ensures Rewritten(stored, given) == if Differs(stored, given) then Normalize(given) else stored
  {
    NormalizeIsClean(given);
  }

  // ---- texts ----

  lemma {:induction false} TextsFollow(card: Card, specs: seq<TextSpec>)
    requires DistinctTexts(specs)
    ensures var (card', fields) := ApplyTexts(card, specs);
            forall i | 0 <= i < |specs| ::
              && GetText(card', specs[i].field) == Rewritten(GetText(card, specs[i].field), specs[i].value)
              && (TextOf(specs[i].field) in fields <==>
                    GetText(card', specs[i].field) != GetText(card, specs[i].field))
  {
    if specs != [] {
      var front, spec := specs[..|specs| - 1], specs[|specs| - 1];
      var (before, fields) := ApplyTexts(card, front);
      var (card', fields') := ApplyTexts(card, specs);
      TextsFollow(card, front);
      assert forall i | 0 <= i < |front| :: front[i] == specs[i];
      UnlistedTextsStay(card, front, spec.field);
      RewrittenIsChanged(GetText(card, spec.field), spec.value);
      SetTextGet(before, spec.field, Normalize(spec.value), spec.field);
      ReportedTextsChanged(card, front);
      forall i | 0 <= i < |front|
        ensures GetText(card', specs[i].field) == GetText(before, specs[i].field)
        ensures TextOf(specs[i].field) in fields' <==> TextOf(front[i].field) in fields
      {
        SetTextGet(before, spec.field, Normalize(spec.value), specs[i].field);
      }
    }
  }

  /** The chief always, the names of the organization only where the INN is its own. */
  predicate TextsAre(card: Card, card': Card, data: Data, updateNames: bool) {
    && card'.chiefName == Rewritten(card.chiefName, data.chiefName)
    && card'.chiefPost == Rewritten(card.chiefPost, data.chiefPost)
    && card'.nameLong == (if updateNames then Rewritten(card.nameLong, data.nameLong) else card.nameLong)
    && card'.nameShort == (if updateNames then Rewritten(card.nameShort, data.nameShort) else card.nameShort)
  }

  predicate TextsReported(card: Card, card': Card, fields: seq<Field>) {
    && (TextOf(ChiefName) in fields <==> card'.chiefName != card.chiefName)
    && (TextOf(ChiefPost) in fields <==> card'.chiefPost != card.chiefPost)
    && (TextOf(NameLong) in fields <==> card'.nameLong != card.nameLong)
    && (TextOf(NameShort) in fields <==> card'.nameShort != card.nameShort)
  }

  lemma TextsAreApplied(card: Card, data: Data, updateNames: bool)
    ensures var (card', fields) := ApplyTexts(card, TextSpecs(data, updateNames));
            TextsAre(card, card', data, updateNames) && TextsReported(card, card', fields) && SameButTexts(card, card')
  {
    var specs := TextSpecs(data, updateNames);
    var (card', fields) := ApplyTexts(card, specs);
    TextsFollow(card, specs);
    TextsKept(card, specs);
    ReportedTextsChanged(card, specs);
    var n := |specs|;
    assert specs[n - 1].field == ChiefPost && specs[n - 2].field == ChiefName;
    if updateNames {
      assert specs[0].field == NameLong && specs[1].field == NameShort;
    } else {
      UnlistedTextsStay(card, specs, NameLong);
      UnlistedTextsStay(card, specs, NameShort);
    }
  }

  // ---- requisites ----

  /** The first row of the type is rewritten; where there is none, one is added. */
  ghost predicate RowFollows(
    types: seq<Named>, rows: seq<Requisite>, rows': seq<Requisite>, names: set<string>, value: Option<string>)
  {
    FindType(types, names).Some? && Trimmed(value) != "" ==>
      var t := FindType(types, names).value;
      var k := FirstRow(rows, t);
      if k < |rows| then k < |rows'| && rows'[k] == rows[k].(data := Rewritten(rows[k].data, value))
      else HasNew(rows, rows', t, Trimmed(value))
  }

  predicate HasNew(rows: seq<Requisite>, rows': seq<Requisite>, t: TypeId, text: string) {
    exists j :: |rows| <= j < |rows'| && rows'[j].typeId == t && rows'[j].data == Some(text)
  }

  /** Only first rows of given types differ; new rows have fresh ids and types of their own, one each. */
  ghost predicate OnlyGivenRows(types: seq<Named>, specs: seq<RowSpec>, r: Rows, r': Rows) {
    && |r.rows| <= |r'.rows| && r'.nextId == r.nextId + |r'.rows| - |r.rows|
    && (forall j | 0 <= j < |r.rows| && r'.rows[j] != r.rows[j] ::
          GivesType(types, specs, r.rows[j].typeId) && FirstRow(r.rows, r.rows[j].typeId) == j
          && r'.rows[j] == r.rows[j].(data := r'.rows[j].data))
    && (forall j | |r.rows| <= j < |r'.rows| ::
          && r'.rows[j].id == r.nextId + j - |r.rows|
          && GivesType(types, specs, r'.rows[j].typeId)
          && forall i | 0 <= i < j :: r'.rows[i].typeId != r'.rows[j].typeId)
  }

  ghost predicate GivesType(types: seq<Named>, specs: seq<RowSpec>, t: TypeId) {
    exists i :: 0 <= i < |specs| && Gives(types, specs[i].names, specs[i].value, t)
  }

  predicate Gives(types: seq<Named>, names: set<string>, value: Option<string>, t: TypeId) {
    FindType(types, names) == Some(t) && Trimmed(value) != ""
  }

  /** What the card shows under the name of a type. */
  function Reads(types: seq<Named>, rows: seq<Requisite>, names: set<string>): string {
    var t := FindType(types, names);
    if t.None? then ""
    else
      var k := FirstRow(rows, t.value);
      if k < |rows| then Trimmed(rows[k].data) else ""
  }

  lemma GivenTypeStays(types: seq<Named>, specs: seq<RowSpec>, longer: seq<RowSpec>, t: TypeId)
    requires GivesType(types, specs, t) && specs <= longer
    ensures GivesType(types, longer, t)
  {
    var i :| 0 <= i < |specs| && Gives(types, specs[i].names, specs[i].value, t);
    assert longer[i] == specs[i];
  }

  lemma NotGivenBefore(types: seq<Named>, specs: seq<RowSpec>, spec: RowSpec, t: TypeId)
    requires Apart(types, specs + [spec]) && FindType(types, spec.names) == Some(t)
    ensures !GivesType(types, specs, t)
  {
    var longer := specs + [spec];
    assert longer[|specs|] == spec;
    forall i | 0 <= i < |specs|
      ensures FindType(types, specs[i].names) != Some(t)
    {
      assert longer[i] == specs[i];
    }
  }

  /** A type that was not given yet is found where it was, or not at all. */
  lemma UntouchedType(types: seq<Named>, specs: seq<RowSpec>, r: Rows, r': Rows, t: TypeId)
    requires OnlyGivenRows(types, specs, r, r') && !GivesType(types, specs, t)
    ensures var k := FirstRow(r.rows, t);
            if k < |r.rows| then FirstRow(r'.rows, t) == k && r'.rows[k] == r.rows[k]
            else FirstRow(r'.rows, t) == |r'.rows|
  {
    var k, k' := FirstRow(r.rows, t), FirstRow(r'.rows, t);
    assert forall j | 0 <= j < |r.rows| :: r'.rows[j].typeId == r.rows[j].typeId;
    if k < |r.rows| {
      assert r'.rows[k].typeId == t;
    }
  }

  lemma {:induction false} RowsFollow(types: seq<Named>, r: Rows, specs: seq<RowSpec>)
    requires Apart(types, specs)
    ensures var r' := ApplyRows(types, r, specs).0;
            && OnlyGivenRows(types, specs, r, r')
            && forall i | 0 <= i < |specs| :: RowFollows(types, r.rows, r'.rows, specs[i].names, specs[i].value)
  {
    if specs != [] {
      var front, spec := specs[..|specs| - 1], specs[|specs| - 1];
      assert specs == front + [spec];
      var before := ApplyRows(types, r, front).0;
      assert Apart(types, front) by {
        assert forall i | 0 <= i < |front| :: front[i] == specs[i];
      }
      RowsFollow(types, r, front);
      OneMoreRow(types, r, before, front, spec);
    } else {
      assert ApplyRows(types, r, specs).0 == r;
    }
  }

  lemma OneMoreRow(types: seq<Named>, r: Rows, before: Rows, front: seq<RowSpec>, spec: RowSpec)
    requires Apart(types, front + [spec]) && OnlyGivenRows(types, front, r, before)
    requires forall i | 0 <= i < |front| :: RowFollows(types, r.rows, before.rows, front[i].names, front[i].value)
    ensures var specs, r' := front + [spec], ApplyRow(types, before, spec);
            && OnlyGivenRows(types, specs, r, r')
            && forall i | 0 <= i < |specs| :: RowFollows(types, r.rows, r'.rows, specs[i].names, specs[i].value)
  {
    var specs, r' := front + [spec], ApplyRow(types, before, spec);
    forall t | GivesType(types, front, t)
      ensures GivesType(types, specs, t)
    {
      GivenTypeStays(types, front, specs, t);
    }
    var found := FindType(types, spec.names);
    if found.Some? && Trimmed(spec.value) != "" {
      var t := found.value;
      assert specs[|front|] == spec && GivesType(types, specs, t);
      NotGivenBefore(types, front, spec, t);
      UntouchedType(types, front, r, before, t);
      RowIsWritten(types, r, before, front, spec, t);
      forall i | 0 <= i < |front|
        ensures RowFollows(types, r.rows, r'.rows, front[i].names, front[i].value)
      {
        assert specs[i] == front[i] && RowFollows(types, r.rows, before.rows, front[i].names, front[i].value);
        OthersStillFollow(types, r, before, r', front[i], t);
      }
    } else {
      assert r' == before;
    }
  }

  /** The step of one entry, by the place of its type. */
  lemma RowIsWritten(types: seq<Named>, r: Rows, before: Rows, front: seq<RowSpec>, spec: RowSpec, t: TypeId)
    requires FindType(types, spec.names) == Some(t) && Trimmed(spec.value) != ""
    requires OnlyGivenRows(types, front, r, before) && !GivesType(types, front, t)
    requires var specs := front + [spec];
             GivesType(types, specs, t) && forall u :: GivesType(types, front, u) ==> GivesType(types, specs, u)
    ensures var r' := ApplyRow(types, before, spec);
            && OnlyGivenRows(types, front + [spec], r, r')
            && RowFollows(types, r.rows, r'.rows, spec.names, spec.value)
            && |before.rows| <= |r'.rows|
            && forall j | 0 <= j < |before.rows| && r'.rows[j] != before.rows[j] :: before.rows[j].typeId == t
  {
    UntouchedType(types, front, r, before, t);
    var r', k := ApplyRow(types, before, spec), FirstRow(r.rows, t);
    assert RowDiffers(types, before.rows, spec) <==> RowText(before.rows, t) != Some(Trimmed(spec.value));
    if k < |r.rows| {
      RewrittenIsChanged(r.rows[k].data, spec.value);
      assert r'.rows == before.rows[k := r.rows[k].(data := Rewritten(r.rows[k].data, spec.value))];
      FirstRowIsRewritten(types, r, before, front, front + [spec], k, Rewritten(r.rows[k].data, spec.value));
    } else {
      assert r'.rows == before.rows + [CardInn.Requisite(before.nextId, t, Some(Trimmed(spec.value)))];
      RowIsAdded(types, r, before, front, front + [spec], t, Some(Trimmed(spec.value)));
      assert r'.rows[|before.rows|].typeId == t;
      assert HasNew(r.rows, r'.rows, t, Trimmed(spec.value));
    }
  }

  lemma FirstRowIsRewritten(
    types: seq<Named>, r: Rows, before: Rows, front: seq<RowSpec>, specs: seq<RowSpec>, k: nat, data: Option<string>)
    requires OnlyGivenRows(types, front, r, before)
    requires k < |r.rows| && FirstRow(r.rows, r.rows[k].typeId) == k && GivesType(types, specs, r.rows[k].typeId)
    requires forall u :: GivesType(types, front, u) ==> GivesType(types, specs, u)
    ensures OnlyGivenRows(types, specs, r, before.(rows := before.rows[k := r.rows[k].(data := data)]))
  {
    var rows' := before.rows[k := r.rows[k].(data := data)];
    assert forall j | 0 <= j < |rows'| :: rows'[j].typeId == before.rows[j].typeId && rows'[j].id == before.rows[j].id;
  }

  lemma RowIsAdded(
    types: seq<Named>, r: Rows, before: Rows, front: seq<RowSpec>, specs: seq<RowSpec>, t: TypeId, data: Option<string>)
    requires OnlyGivenRows(types, front, r, before) && GivesType(types, specs, t)
    requires forall u :: GivesType(types, front, u) ==> GivesType(types, specs, u)
    requires forall j | 0 <= j < |before.rows| :: before.rows[j].typeId != t
    ensures OnlyGivenRows(types, specs, r,
                          Rows(before.rows + [CardInn.Requisite(before.nextId, t, data)], before.nextId + 1))
  {
  }

  lemma OthersStillFollow(types: seq<Named>, r: Rows, before: Rows, r': Rows, other: RowSpec, t: TypeId)
    requires RowFollows(types, r.rows, before.rows, other.names, other.value)
    requires |r.rows| <= |before.rows| <= |r'.rows| && FindType(types, other.names) != Some(t)
    requires forall j | 0 <= j < |before.rows| && r'.rows[j] != before.rows[j] :: before.rows[j].typeId == t
    ensures RowFollows(types, r.rows, r'.rows, other.names, other.value)
  {
    if FindType(types, other.names).Some? && Trimmed(other.value) != "" {
      var u := FindType(types, other.names).value;
      if FirstRow(r.rows, u) == |r.rows| {
        var j :| |r.rows| <= j < |before.rows| && before.rows[j].typeId == u
                 && before.rows[j].data == Some(Trimmed(other.value));
        assert r'.rows[j] == before.rows[j];
        assert HasNew(r.rows, r'.rows, u, Trimmed(other.value));
      }
    }
  }

  // ---- the whole set of requisites ----

  /** `_format_okved`: code and name, or the one there is. */
  function OkvedText(data: Data): string {
    var code, name := Trimmed(data.okved), Trimmed(data.okvedName);
    if code != "" && name != "" then code + " " + name else code + name
  }

  ghost predicate RequisitesAre(types: seq<Named>, r: Rows, r': Rows, data: Data) {
    && RowFollows(types, r.rows, r'.rows, {"инн"}, Some(data.inn))
    && RowFollows(types, r.rows, r'.rows, {"огрн"}, data.ogrn)
    && RowFollows(types, r.rows, r'.rows, {"кпп"}, data.kpp)
    && RowFollows(types, r.rows, r'.rows, {"юридический адрес"}, data.legalAddress)
    && RowFollows(types, r.rows, r'.rows, {"оквэд (основной)", "оквэд"}, Some(OkvedText(data)))
    && OnlyGivenRows(types, RowSpecs(data), r, r')
    && (forall t: TypeId | GivesType(types, RowSpecs(data), t) :: IsGiven(types, data, t))
  }

  /** The type is that of one of the five requisites, and the data have a value for it. */
  predicate IsGiven(types: seq<Named>, data: Data, t: TypeId) {
    || Gives(types, {"инн"}, Some(data.inn), t)
    || Gives(types, {"огрн"}, data.ogrn, t)
    || Gives(types, {"кпп"}, data.kpp, t)
    || Gives(types, {"юридический адрес"}, data.legalAddress, t)
    || Gives(types, {"оквэд (основной)", "оквэд"}, Some(OkvedText(data)), t)
  }

  lemma JoinedIsStripped(code: string, name: string)
    requires Stripped(code) && Stripped(name) && code != "" && name != ""
    ensures Stripped(code + " " + name)
  {
  }

  lemma OkvedIsTrimmed(data: Data)
    ensures Trimmed(FormatOkved(data)) == Trimmed(Some(OkvedText(data))) == OkvedText(data)
  {
    var code, name := Trimmed(data.okved), Trimmed(data.okvedName);
    if data.okved.Some? {
      StripIsStripped(data.okved.value);
    }
    if data.okvedName.Some? {
      StripIsStripped(data.okvedName.value);
    }
    assert code + "" == code && "" + name == name;
    if code != "" && name != "" {
      JoinedIsStripped(code, name);
    }
  }

  lemma RequisitesAreApplied(types: seq<Named>, r: Rows, data: Data)
    requires UniqueIds(types)
    ensures RequisitesAre(types, r, ApplyRows(types, r, RowSpecs(data)).0, data)
  {
    var specs := RowSpecs(data);
    var r' := ApplyRows(types, r, specs).0;
    RowSpecsApart(types, data);
    RowsFollow(types, r, specs);
    OkvedIsTrimmed(data);
    assert RowFollows(types, r.rows, r'.rows, specs[0].names, specs[0].value);
    assert RowFollows(types, r.rows, r'.rows, specs[1].names, specs[1].value);
    assert RowFollows(types, r.rows, r'.rows, specs[2].names, specs[2].value);
    assert RowFollows(types, r.rows, r'.rows, specs[3].names, specs[3].value);
    assert RowFollows(types, r.rows, r'.rows, specs[4].names, specs[4].value);
    SameValueFollows(types, r.rows, r'.rows, specs[4].names, FormatOkved(data), Some(OkvedText(data)));
    forall t: TypeId | GivesType(types, specs, t)
      ensures IsGiven(types, data, t)
    {
      GivenTypeIsGiven(types, data, t);
    }
  }

  lemma GivenTypeIsGiven(types: seq<Named>, data: Data, t: TypeId)
    requires GivesType(types, RowSpecs(data), t)
    ensures IsGiven(types, data, t)
  {
    var specs := RowSpecs(data);
    var i :| 0 <= i < |specs| && Gives(types, specs[i].names, specs[i].value, t);
    OkvedIsTrimmed(data);
    if i == 0 {
      assert Gives(types, {"инн"}, Some(data.inn), t);
    } else if i == 1 {
      assert Gives(types, {"огрн"}, data.ogrn, t);
    } else if i == 2 {
      assert Gives(types, {"кпп"}, data.kpp, t);
    } else if i == 3 {
      assert Gives(types, {"юридический адрес"}, data.legalAddress, t);
    } else {
      assert Gives(types, {"оквэд (основной)", "оквэд"}, Some(OkvedText(data)), t);
    }
  }

  // ---- what is reported ----

  /** The entry has something new to say. */
  ghost predicate SaysNew(types: seq<Named>, rows: seq<Requisite>, spec: RowSpec) {
    && FindType(types, spec.names).Some? && Trimmed(spec.value) != ""
    && Reads(types, rows, spec.names) != Trimmed(spec.value)
  }

  predicate DistinctFields(specs: seq<RowSpec>) {
    forall i, j | 0 <= i < j < |specs| :: specs[i].field != specs[j].field
  }

  lemma {:induction false} RowsReported(types: seq<Named>, r: Rows, specs: seq<RowSpec>)
    requires Apart(types, specs) && DistinctFields(specs)
    ensures var fields := ApplyRows(types, r, specs).1;
            && (forall i | 0 <= i < |specs| :: specs[i].field in fields <==> SaysNew(types, r.rows, specs[i]))
            && (forall f | f in fields :: exists i :: 0 <= i < |specs| && specs[i].field == f)
  {
    if specs != [] {
      var front, spec := specs[..|specs| - 1], specs[|specs| - 1];
      var (before, fields) := ApplyRows(types, r, front);
      assert specs == front + [spec] && forall i | 0 <= i < |front| :: front[i] == specs[i];
      RowsReported(types, r, front);
      RowsFollow(types, r, front);
      DiffersIfNew(types, r, before, front, spec);
      assert spec.field !in fields;
      forall i | 0 <= i < |specs|
        ensures specs[i].field in ApplyRows(types, r, specs).1 <==> SaysNew(types, r.rows, specs[i])
      {
        if i < |front| {
          assert front[i].field in fields <==> SaysNew(types, r.rows, front[i]);
        }
      }
    }
  }

  lemma DiffersIfNew(types: seq<Named>, r: Rows, before: Rows, front: seq<RowSpec>, spec: RowSpec)
    requires Apart(types, front + [spec]) && OnlyGivenRows(types, front, r, before)
    ensures RowDiffers(types, before.rows, spec) <==> SaysNew(types, r.rows, spec)
  {
    if FindType(types, spec.names).Some? {
      NotGivenBefore(types, front, spec, FindType(types, spec.names).value);
      UntouchedType(types, front, r, before, FindType(types, spec.names).value);
    }
  }

  /** What an entry that says something new writes is what the card reads then; other types read as before. */
  lemma NewIsRead(types: seq<Named>, specs: seq<RowSpec>, r: Rows, r': Rows, spec: RowSpec)
    requires OnlyGivenRows(types, specs, r, r') && RowFollows(types, r.rows, r'.rows, spec.names, spec.value)
    requires FindType(types, spec.names).Some? && Trimmed(spec.value) == "" ==>
               !GivesType(types, specs, FindType(types, spec.names).value)
    ensures SaysNew(types, r.rows, spec) <==> Reads(types, r'.rows, spec.names) != Reads(types, r.rows, spec.names)
  {
    if FindType(types, spec.names).Some? {
      var t := FindType(types, spec.names).value;
      if Trimmed(spec.value) == "" {
        UntouchedType(types, specs, r, r', t);
      } else {
        StripIdempotent(spec.value.value);
        GivenIsRead(types, specs, r, r', t, spec.value);
      }
    }
  }

  lemma GivenIsRead(types: seq<Named>, specs: seq<RowSpec>, r: Rows, r': Rows, t: TypeId, value: Option<string>)
    requires OnlyGivenRows(types, specs, r, r') && Trimmed(value) != "" && Strip(Trimmed(value)) == Trimmed(value)
    requires var k := FirstRow(r.rows, t);
             if k < |r.rows| then r'.rows[k] == r.rows[k].(data := Rewritten(r.rows[k].data, value))
             else HasNew(r.rows, r'.rows, t, Trimmed(value))
    ensures FirstRow(r'.rows, t) < |r'.rows| && Trimmed(r'.rows[FirstRow(r'.rows, t)].data) == Trimmed(value)
  {
    var k := FirstRow(r.rows, t);
    assert forall j | 0 <= j < |r.rows| :: r'.rows[j].typeId == r.rows[j].typeId;
    if k < |r.rows| {
      assert FirstRow(r'.rows, t) == k;
    } else {
      var j :| |r.rows| <= j < |r'.rows| && r'.rows[j].typeId == t && r'.rows[j].data == Some(Trimmed(value));
      assert FirstRow(r'.rows, t) == j;
    }
  }

  lemma SameValueFollows(
    types: seq<Named>, rows: seq<Requisite>, rows': seq<Requisite>, names: set<string>, a: Option<string>,
    b: Option<string>)
    requires RowFollows(types, rows, rows', names, a) && Trimmed(a) == Trimmed(b)
    ensures RowFollows(types, rows, rows', names, b)
  {
  }

  // ---- the settlement ----

  predicate Namesake(settlement: Named, text: string) {
    Lower(settlement.name) == Lower(text)
  }

  predicate HasNamesake(settlements: seq<Named>, text: string) {
    exists i :: 0 <= i < |settlements| && Namesake(settlements[i], text)
  }

  predicate HasTwoNamesakes(settlements: seq<Named>, text: string) {
    exists i, j :: 0 <= i < j < |settlements| && Namesake(settlements[i], text) && Namesake(settlements[j], text)
  }

  lemma {:induction false} NamesakesAreCounted(settlements: seq<Named>, text: string)
    ensures |NamesakesOf(settlements, text)| >= 1 <==> HasNamesake(settlements, text)
    ensures |NamesakesOf(settlements, text)| >= 2 <==> HasTwoNamesakes(settlements, text)
  {
    if settlements != [] {
      var n := |settlements| - 1;
      var front := settlements[..n];
      NamesakesAreCounted(front, text);
      if HasNamesake(front, text) {
        var i :| 0 <= i < n && Namesake(front[i], text);
        assert Namesake(settlements[i], text);
      }
      if HasTwoNamesakes(front, text) {
        var i, j :| 0 <= i < j < n && Namesake(front[i], text) && Namesake(front[j], text);
        assert Namesake(settlements[i], text) && Namesake(settlements[j], text);
      }
      if HasTwoNamesakes(settlements, text) {
        var i, j :| 0 <= i < j <= n && Namesake(settlements[i], text) && Namesake(settlements[j], text);
        assert Namesake(front[i], text);
        assert j < n ==> Namesake(front[j], text);
      }
    }
  }

  predicate SettlementTooLongFor(data: Data) {
    |Trimmed(data.settlementName)| > 255
  }

  predicate SettlementAmbiguousFor(settlements: seq<Named>, data: Data) {
    && 0 < |Trimmed(data.settlementName)| <= 255
    && HasTwoNamesakes(settlements, Trimmed(data.settlementName))
  }

  /** The settlement of that name in any case of letters, or a new one; none for a name of white space. */
  ghost predicate SettlementIs(
    settlements: seq<Named>, nextId: Id, stored: Option<Id>, data: Data, settlements': seq<Named>, chosen: Option<Id>)
  {
    var text := Trimmed(data.settlementName);
    if data.settlementName == None || data.settlementName == Some("") then
      settlements' == settlements && chosen == stored
    else if text == "" then settlements' == settlements && chosen == None
    else if HasNamesake(settlements, text) then
      && settlements' == settlements
      && exists i :: 0 <= i < |settlements| && Namesake(settlements[i], text) && chosen == Some(settlements[i].id)
    else settlements' == settlements + [Named(nextId, text)] && chosen == Some(nextId)
  }

  lemma SettlementIsApplied(s: Tables, data: Data)
    ensures match SettlementStep(s, data)
            case Err(e) =>
              && (e == SettlementTooLong <==> SettlementTooLongFor(data))
              && (e == SettlementAmbiguous <==> SettlementAmbiguousFor(s.settlements, data))
            case Ok(settled) =>
              && !SettlementTooLongFor(data) && !SettlementAmbiguousFor(s.settlements, data)
              && settled.nextId == s.nextId + |settled.settlements| - |s.settlements|
              && SettlementIs(s.settlements, s.nextId, s.card.settlement, data, settled.settlements, settled.chosen)
  {
    var text := Trimmed(data.settlementName);
    NamesakesAreCounted(s.settlements, text);
    NamesakesAreNamed(s.settlements, text);
    if |NamesakesOf(s.settlements, text)| == 1 {
      assert NamesakesOf(s.settlements, text)[0] in NamesakesOf(s.settlements, text);
      var i :| 0 <= i < |s.settlements| && s.settlements[i].id == NamesakesOf(s.settlements, text)[0]
               && Lower(s.settlements[i].name) == Lower(text);
      assert Namesake(s.settlements[i], text);
    }
    assert text == "" <==> Normalize(data.settlementName) == None;
  }

  // ---- the e-mail ----

  /** The first e-mail is rewritten, or one is added with an entity of its own that has no name and no post. */
  predicate EmailIs(types: seq<Named>, card: Card, card': Card, nextId: Id, email: Option<string>) {
    var found := FindType(types, {"email", "e-mail", "электронная почта", "почта"});
    if found == None || Trimmed(email) == "" then card'.entities == card.entities && card'.contacts == card.contacts
    else
      var t := found.value;
      var k := FirstContact(card.contacts, t);
      if k < |card.contacts| then
        && card'.entities == card.entities
        && card'.contacts == card.contacts[k := card.contacts[k].(data := Rewritten(card.contacts[k].data, email))]
      else
        && card'.entities == card.entities + [Entity(nextId, None, None)]
        && card'.contacts == card.contacts + [Contact(nextId + 1, nextId, t, Some(Trimmed(email)))]
  }

  lemma EmailIsApplied(types: seq<Named>, card: Card, nextId: Id, email: Option<string>)
    ensures var (card', nextId') := ApplyEmail(types, card, nextId, email);
            && EmailIs(types, card, card', nextId, email)
            && card'.(entities := card.entities, contacts := card.contacts) == card
            && nextId' == nextId + (|card'.entities| - |card.entities|) + (|card'.contacts| - |card.contacts|)
            && (EmailDiffers(types, card, email) <==> card'.contacts != card.contacts)
  {
    var found := FindType(types, EMAIL_NAMES);
    if found.Some? && Trimmed(email) != "" {
      var k := FirstContact(card.contacts, found.value);
      if k < |card.contacts| {
        RewrittenIsChanged(card.contacts[k].data, email);
        assert card.contacts[k := card.contacts[k]] == card.contacts;
      }
    }
  }

  // ---- all of it ----

  /** Every part of the card is what the data make of it, and new rows have fresh ids in the order of the parts. */
  ghost predicate CardFollows(dict: Dictionary, s: Tables, data: Data, updateNames: bool, t: Tables) {
    && |s.card.requisites| <= |t.card.requisites| && |s.settlements| <= |t.settlements|
    && var n := s.nextId + (|t.card.requisites| - |s.card.requisites|);
       var m := n + (|t.settlements| - |s.settlements|);
       && TextsAre(s.card, t.card, data, updateNames)
       && t.card.inn == Some(data.inn)
       && RequisitesAre(dict.requisiteTypes, Rows(s.card.requisites, s.nextId), Rows(t.card.requisites, n), data)
       && SettlementIs(s.settlements, n, s.card.settlement, data, t.settlements, t.card.settlement)
       && EmailIs(dict.contactTypes, s.card, t.card, m, data.email)
       && t.nextId == m + (|t.card.entities| - |s.card.entities|) + (|t.card.contacts| - |s.card.contacts|)
  }

  /** Each field is reported exactly when it reads differently now. */
  ghost predicate FieldsFollow(dict: Dictionary, card: Card, card': Card, updated: seq<Field>) {
    var types, rows, rows' := dict.requisiteTypes, card.requisites, card'.requisites;
    && TextsReported(card, card', updated)
    && InnReported(types, card, card', updated)
    && RequisitesReported(types, rows, rows', updated)
    && (SettlementName in updated <==> card'.settlement != card.settlement)
    && (Email in updated <==> card'.contacts != card.contacts)
  }

  /** The place of a field reads differently on the two cards. */
  ghost predicate ReadsDifferently(dict: Dictionary, card: Card, card': Card, f: Field) {
    var types, rows, rows' := dict.requisiteTypes, card.requisites, card'.requisites;
    match f
    case TextOf(NameLong) => card'.nameLong != card.nameLong
    case TextOf(NameShort) => card'.nameShort != card.nameShort
    case TextOf(ChiefName) => card'.chiefName != card.chiefName
    case TextOf(ChiefPost) => card'.chiefPost != card.chiefPost
    case Inn => card'.inn != card.inn || Reads(types, rows', {"инн"}) != Reads(types, rows, {"инн"})
    case Ogrn => Reads(types, rows', {"огрн"}) != Reads(types, rows, {"огрн"})
    case Kpp => Reads(types, rows', {"кпп"}) != Reads(types, rows, {"кпп"})
    case LegalAddress => Reads(types, rows', {"юридический адрес"}) != Reads(types, rows, {"юридический адрес"})
    case Okved =>
      Reads(types, rows', {"оквэд (основной)", "оквэд"}) != Reads(types, rows, {"оквэд (основной)", "оквэд"})
    case SettlementName => card'.settlement != card.settlement
    case Email => card'.contacts != card.contacts
  }

  lemma FieldsReadDifferently(dict: Dictionary, card: Card, card': Card, updated: seq<Field>, f: Field)
    requires FieldsFollow(dict, card, card', updated)
    ensures f in updated <==> ReadsDifferently(dict, card, card', f)
  {
    match f
    case TextOf(NameLong) =>
    case TextOf(NameShort) =>
    case TextOf(ChiefName) =>
    case TextOf(ChiefPost) =>
    case Inn => assert InnReported(dict.requisiteTypes, card, card', updated);
    case Ogrn => assert RequisitesReported(dict.requisiteTypes, card.requisites, card'.requisites, updated);
    case Kpp => assert RequisitesReported(dict.requisiteTypes, card.requisites, card'.requisites, updated);
    case LegalAddress => assert RequisitesReported(dict.requisiteTypes, card.requisites, card'.requisites, updated);
    case Okved => assert RequisitesReported(dict.requisiteTypes, card.requisites, card'.requisites, updated);
    case SettlementName =>
    case Email =>
  }

  lemma BlankGivesNothing(types: seq<Named>, specs: seq<RowSpec>, i: nat)
    requires Apart(types, specs) && i < |specs|
    requires FindType(types, specs[i].names).Some? && Trimmed(specs[i].value) == ""
    ensures !GivesType(types, specs, FindType(types, specs[i].names).value)
  {
    var t := FindType(types, specs[i].names).value;
    forall j | 0 <= j < |specs|
      ensures !Gives(types, specs[j].names, specs[j].value, t)
    {
      if j != i {
        assert FindType(types, specs[j].names) != FindType(types, specs[i].names);
      }
    }
  }

  /** The requisite fields among the reported ones. */
  ghost predicate RowFieldsFollow(types: seq<Named>, rows: seq<Requisite>, rows': seq<Requisite>, fields: seq<Field>) {
    && (Inn in fields <==> Reads(types, rows', {"инн"}) != Reads(types, rows, {"инн"}))
    && RequisitesReported(types, rows, rows', fields)
    && (forall f | f in fields :: f == Inn || f == Ogrn || f == Kpp || f == LegalAddress || f == Okved)
  }

  lemma RowFieldFollows(types: seq<Named>, r: Rows, specs: seq<RowSpec>, i: nat)
    requires Apart(types, specs) && DistinctFields(specs) && i < |specs|
    ensures var (r', fields) := ApplyRows(types, r, specs);
            specs[i].field in fields
            <==> Reads(types, r'.rows, specs[i].names) != Reads(types, r.rows, specs[i].names)
  {
    var r' := ApplyRows(types, r, specs).0;
    RowsFollow(types, r, specs);
    RowsReported(types, r, specs);
    if FindType(types, specs[i].names).Some? && Trimmed(specs[i].value) == "" {
      BlankGivesNothing(types, specs, i);
    }
    assert RowFollows(types, r.rows, r'.rows, specs[i].names, specs[i].value);
    NewIsRead(types, specs, r, r', specs[i]);
  }

  lemma RowFieldsAreReported(types: seq<Named>, r: Rows, data: Data)
    requires UniqueIds(types)
    ensures var (r', fields) := ApplyRows(types, r, RowSpecs(data));
            RowFieldsFollow(types, r.rows, r'.rows, fields)
  {
    var specs := RowSpecs(data);
    RowSpecsApart(types, data);
    RowsReported(types, r, specs);
    RowFieldFollows(types, r, specs, 0);
    RowFieldFollows(types, r, specs, 1);
    RowFieldFollows(types, r, specs, 2);
    RowFieldFollows(types, r, specs, 3);
    RowFieldFollows(types, r, specs, 4);
    forall f | f in ApplyRows(types, r, specs).1
      ensures f == Inn || f == Ogrn || f == Kpp || f == LegalAddress || f == Okved
    {
      FieldOfSpecs(data, f);
    }
  }

  lemma FieldOfSpecs(data: Data, f: Field)
    requires exists i :: 0 <= i < |RowSpecs(data)| && RowSpecs(data)[i].field == f
    ensures f == Inn || f == Ogrn || f == Kpp || f == LegalAddress || f == Okved
  {
  }

  /** The texts, the requisites and the column. */
  ghost predicate CoreFollows(dict: Dictionary, s: Tables, data: Data, updateNames: bool, core: Applied) {
    var card, card', types := s.card, core.tables.card, dict.requisiteTypes;
    && TextsAre(card, card', data, updateNames) && card'.inn == Some(data.inn)
    && RequisitesAre(types, Rows(card.requisites, s.nextId), Rows(card'.requisites, core.tables.nextId), data)
    && card'.settlement == card.settlement && card'.entities == card.entities && card'.contacts == card.contacts
    && core.tables.settlements == s.settlements
    && CoreFieldsFollow(types, card, card', core.updated)
  }

  ghost predicate CoreFieldsFollow(types: seq<Named>, card: Card, card': Card, updated: seq<Field>) {
    var rows, rows' := card.requisites, card'.requisites;
    && TextsReported(card, card', updated)
    && InnReported(types, card, card', updated)
    && RequisitesReported(types, rows, rows', updated)
    && SettlementName !in updated && Email !in updated
  }

  ghost predicate InnReported(types: seq<Named>, card: Card, card': Card, updated: seq<Field>) {
    Inn in updated <==>
    card'.inn != card.inn || Reads(types, card'.requisites, {"инн"}) != Reads(types, card.requisites, {"инн"})
  }

  ghost predicate RequisitesReported(
    types: seq<Named>, rows: seq<Requisite>, rows': seq<Requisite>, updated: seq<Field>)
  {
    && (Ogrn in updated <==> Reads(types, rows', {"огрн"}) != Reads(types, rows, {"огрн"}))
    && (Kpp in updated <==> Reads(types, rows', {"кпп"}) != Reads(types, rows, {"кпп"}))
    && (LegalAddress in updated <==>
          Reads(types, rows', {"юридический адрес"}) != Reads(types, rows, {"юридический адрес"}))
    && (Okved in updated <==>
          Reads(types, rows', {"оквэд (основной)", "оквэд"}) != Reads(types, rows, {"оквэд (основной)", "оквэд"}))
  }

  /** What the core reports: texts, then requisites, then the column if the requisite was not reported. */
  function CoreFields(texts: seq<Field>, rowFields: seq<Field>, innDiffers: bool): seq<Field> {
    if innDiffers && Inn !in texts + rowFields then texts + rowFields + [Inn] else texts + rowFields
  }

  lemma CoreMembers(texts: seq<Field>, rowFields: seq<Field>, innDiffers: bool, f: Field)
    ensures f in CoreFields(texts, rowFields, innDiffers)
            <==> f in texts || f in rowFields || (f == Inn && innDiffers)
  {
  }

  lemma CoreFieldsAreReported(
    types: seq<Named>, card: Card, card': Card, texts: seq<Field>, rowFields: seq<Field>, updated: seq<Field>)
    requires TextsReported(card, card', texts) && (forall f | f in texts :: f.TextOf?)
    requires RowFieldsFollow(types, card.requisites, card'.requisites, rowFields)
    requires forall f :: f in updated <==> f in texts || f in rowFields || (f == Inn && card.inn != card'.inn)
    ensures CoreFieldsFollow(types, card, card', updated)
  {
    SameReports(types, card.requisites, card'.requisites, rowFields, updated);
    assert Inn in updated <==> Inn in rowFields || card.inn != card'.inn;
    assert TextOf(ChiefName) in updated <==> TextOf(ChiefName) in texts;
    assert TextOf(ChiefPost) in updated <==> TextOf(ChiefPost) in texts;
    assert TextOf(NameLong) in updated <==> TextOf(NameLong) in texts;
    assert TextOf(NameShort) in updated <==> TextOf(NameShort) in texts;
  }

  lemma SameReports(
    types: seq<Named>, rows: seq<Requisite>, rows': seq<Requisite>, fields: seq<Field>, updated: seq<Field>)
    requires RequisitesReported(types, rows, rows', fields)
    requires forall f | f == Ogrn || f == Kpp || f == LegalAddress || f == Okved :: f in updated <==> f in fields
    ensures RequisitesReported(types, rows, rows', updated)
  {
  }

  lemma CoreIsApplied(dict: Dictionary, s: Tables, data: Data, updateNames: bool)
    requires UniqueIds(dict.requisiteTypes)
    ensures CoreFollows(dict, s, data, updateNames, ApplyCore(dict, s, data, updateNames))
  {
    var (named, texts) := ApplyTexts(s.card, TextSpecs(data, updateNames));
    var r := Rows(s.card.requisites, s.nextId);
    var (r', rowFields) := ApplyRows(dict.requisiteTypes, r, RowSpecs(data));
    TextsAreApplied(s.card, data, updateNames);
    assert named.requisites == s.card.requisites;
    ReportedAreTexts(s.card, data, updateNames);
    RequisitesAreApplied(dict.requisiteTypes, r, data);
    RowFieldsAreReported(dict.requisiteTypes, r, data);
    var core := ApplyCore(dict, s, data, updateNames);
    forall f
      ensures f in core.updated <==> f in texts || f in rowFields || (f == Inn && s.card.inn != core.tables.card.inn)
    {
      CoreMembers(texts, rowFields, s.card.inn != Some(data.inn), f);
    }
    CoreFieldsAreReported(dict.requisiteTypes, s.card, core.tables.card, texts, rowFields, core.updated);
  }

  lemma ReportedAreTexts(card: Card, data: Data, updateNames: bool)
    ensures forall f | f in ApplyTexts(card, TextSpecs(data, updateNames)).1 :: f.TextOf?
  {
    ReportedTextsChanged(card, TextSpecs(data, updateNames));
  }

  lemma RestIsApplied(dict: Dictionary, s: Tables, data: Data)
    ensures match ApplyRest(dict, s, data)
            case Err(e) =>
              && (e == SettlementTooLong <==> SettlementTooLongFor(data))
              && (e == SettlementAmbiguous <==> SettlementAmbiguousFor(s.settlements, data))
            case Ok(rest) => !SettlementTooLongFor(data) && !SettlementAmbiguousFor(s.settlements, data)
                             && RestFollows(dict, s, data, rest)
  {
    SettlementIsApplied(s, data);
    if SettlementStep(s, data).Ok? {
      var settled := SettlementStep(s, data).value;
      EmailIsApplied(dict.contactTypes, s.card.(settlement := settled.chosen), settled.nextId, data.email);
    }
  }

  ghost predicate RestFollows(dict: Dictionary, s: Tables, data: Data, rest: Applied) {
    var t := rest.tables;
    && |s.settlements| <= |t.settlements|
    && var m := s.nextId + (|t.settlements| - |s.settlements|);
       && SettlementIs(s.settlements, s.nextId, s.card.settlement, data, t.settlements, t.card.settlement)
       && EmailIs(dict.contactTypes, s.card, t.card, m, data.email)
       && t.nextId == m + (|t.card.entities| - |s.card.entities|) + (|t.card.contacts| - |s.card.contacts|)
       && s.card.(settlement := t.card.settlement, entities := t.card.entities, contacts := t.card.contacts) == t.card
       && (SettlementName in rest.updated <==> t.card.settlement != s.card.settlement)
       && (Email in rest.updated <==> t.card.contacts != s.card.contacts)
       && (forall f | f in rest.updated :: f == SettlementName || f == Email)
  }

  /**
   External data are refused exactly when the name of the settlement is too long or names several; otherwise the card
   follows them place by place, and a field is reported exactly when it reads differently.
   */
  lemma CardFollowsTheData(dict: Dictionary, s: Tables, data: Data, updateNames: bool)
    requires UniqueIds(dict.requisiteTypes)
    ensures match Apply(dict, s, data, updateNames)
            case Err(e) =>
              && (e == SettlementTooLong <==> SettlementTooLongFor(data))
              && (e == SettlementAmbiguous <==> SettlementAmbiguousFor(s.settlements, data))
            case Ok(a) =>
              && !SettlementTooLongFor(data) && !SettlementAmbiguousFor(s.settlements, data)
              && CardFollows(dict, s, data, updateNames, a.tables)
              && FieldsFollow(dict, s.card, a.tables.card, a.updated)
  {
    var core := ApplyCore(dict, s, data, updateNames);
    CoreIsApplied(dict, s, data, updateNames);
    RestIsApplied(dict, core.tables, data);
    if ApplyRest(dict, core.tables, data).Ok? {
      PartsAreTheCard(dict, s, data, updateNames, core, ApplyRest(dict, core.tables, data).value);
    }
  }

  lemma PartsAreTheCard(
    dict: Dictionary, s: Tables, data: Data, updateNames: bool, core: Applied, rest: Applied)
    requires CoreFollows(dict, s, data, updateNames, core) && RestFollows(dict, core.tables, data, rest)
    ensures CardFollows(dict, s, data, updateNames, rest.tables)
    ensures FieldsFollow(dict, s.card, rest.tables.card, core.updated + rest.updated)
  {
    PlacesAreTheCard(dict, s, data, updateNames, core, rest);
    LaterFieldsAreReported(dict.requisiteTypes, s.card, core.tables.card, rest.tables.card, core.updated, rest.updated);
  }

  lemma PlacesAreTheCard(
    dict: Dictionary, s: Tables, data: Data, updateNames: bool, core: Applied, rest: Applied)
    requires CoreFollows(dict, s, data, updateNames, core) && RestFollows(dict, core.tables, data, rest)
    ensures CardFollows(dict, s, data, updateNames, rest.tables)
  {
    SameRequisites(core.tables, rest.tables);
  }

  lemma SameRequisites(core: Tables, rest: Tables)
    requires core.card.(settlement := rest.card.settlement, entities := rest.card.entities,
                        contacts := rest.card.contacts) == rest.card
    ensures rest.card.requisites == core.card.requisites && rest.card.inn == core.card.inn
    ensures rest.card.chiefName == core.card.chiefName && rest.card.chiefPost == core.card.chiefPost
    ensures rest.card.nameLong == core.card.nameLong && rest.card.nameShort == core.card.nameShort
  {
  }

  lemma LaterFieldsAreReported(
    types: seq<Named>, card: Card, core: Card, card': Card, first: seq<Field>, later: seq<Field>)
    requires CoreFieldsFollow(types, card, core, first) && forall f | f in later :: f == SettlementName || f == Email
    requires core.(settlement := card'.settlement, entities := card'.entities, contacts := card'.contacts) == card'
    ensures TextsReported(card, card', first + later) && InnReported(types, card, card', first + later)
    ensures RequisitesReported(types, card.requisites, card'.requisites, first + later)
    ensures SettlementName in first + later <==> SettlementName in later
    ensures Email in first + later <==> Email in later
  {
    forall f | f != SettlementName && f != Email
      ensures f in first + later <==> f in first
    {
    }
  }
}
