/**
 Organization cards as the database holds them, with the dictionaries and settlements beside them. The
 rows of a card are listed in the order the database returns them.
 */
module Cards {
  import opened Options
  import opened Text
  import CardInn

  type OrgId = nat
  type Id = CardInn.Id
  type TypeId = CardInn.TypeId
  type Requisite = CardInn.Requisite

  datatype Entity = Entity(id: Id, name: Option<string>, post: Option<string>)
  datatype Contact = Contact(id: Id, entity: Id, typeId: TypeId, data: Option<string>)

  datatype Card = Card(
    nameLong: Option<string>, nameShort: Option<string>, chiefName: Option<string>, chiefPost: Option<string>,
    inn: Option<string>, settlement: Option<Id>,
    requisites: seq<Requisite>, entities: seq<Entity>, contacts: seq<Contact>)

  datatype Named = Named(id: Id, name: string)

  /** Dictionary rows come in the order of their priority, then their id. */
  datatype Dictionary = Dictionary(requisiteTypes: seq<Named>, contactTypes: seq<Named>)

  predicate UniqueIds(rows: seq<Named>) {
    forall i, j | 0 <= i < j < |rows| :: rows[i].id != rows[j].id
  }

  /** Lower case of Latin and Cyrillic letters. */
  function LowerChar(c: char): char {
    if 'A' <= c <= 'Z' then (c as int + 32) as char
    else if 'А' <= c <= 'Я' then (c as int + 32) as char
    else if c == 'Ё' then 'ё'
    else c
  }

  function Lower(s: string): string {
    seq(|s|, i requires 0 <= i < |s| => LowerChar(s[i]))
  }

  /** A capital letter becomes the small one at the same place of its alphabet; nothing else is changed. */
  lemma CapitalsAreLowered(s: string, i: nat)
    requires i < |s|
    ensures var c, small := s[i] as int, Lower(s)[i] as int;
            if 'A' <= s[i] <= 'Z' then small - 'a' as int == c - 'A' as int
            else if 'А' <= s[i] <= 'Я' then small - 'а' as int == c - 'А' as int
            else if s[i] == 'Ё' then small == 'ё' as int
            else small == c
  {
  }

  /** The first type, by priority and then id, that bears one of the names. */
  predicate FirstNamed(types: seq<Named>, names: set<string>, i: nat) {
    i < |types| && Lower(types[i].name) in names && forall j | 0 <= j < i :: Lower(types[j].name) !in names
  }

  /** `_find_requisite_type_id` and `_find_contact_type_id`; `names` are in lower case. */
  function FindType(types: seq<Named>, names: set<string>): (r: Option<TypeId>)
    ensures r.Some? ==> exists i: nat :: FirstNamed(types, names, i) && types[i].id == r.value
    ensures r.None? ==> forall i | 0 <= i < |types| :: Lower(types[i].name) !in names
  {
    if types == [] then None
    else if Lower(types[0].name) in names then
      assert FirstNamed(types, names, 0);
      Some(types[0].id)
    else
      var r := FindType(types[1..], names);
      assert forall i | 1 <= i < |types| :: types[i] == types[1..][i - 1];
      assert r.Some? ==> exists i: nat :: FirstNamed(types, names, i) && types[i].id == r.value by {
        if r.Some? {
          var i: nat :| FirstNamed(types[1..], names, i) && types[1..][i].id == r.value;
          assert types[i + 1] == types[1..][i];
          assert FirstNamed(types, names, i + 1);
        }
      }
      r
  }

  /** Names that have nothing in common never name the same type. */
  lemma TypesApart(types: seq<Named>, a: set<string>, b: set<string>)
    requires UniqueIds(types) && a !! b && FindType(types, a).Some?
    ensures FindType(types, a) != FindType(types, b)
  {
  }
}
