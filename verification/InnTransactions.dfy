/**
 Concurrent manual saves, as far as the INN column is concerned. A save reads its organization
 without a lock, locks the INN its payload claims, checks with a current read that nobody else
 carries a changed INN, and commits; any step of other saves may fall in between.
 */
module InnTransactions {
  import opened Options
  import opened Text
  import CardInn

  type OrgId = nat
  type TxId = nat
  type Inn = string

  datatype Phase = Begun | Locked | Checked

  /**
   One save: the INN column it read, the INN its payload makes it lock, and the INN it will write. The
   column is written only when the new value differs from the one read.
   */
  datatype Tx = Tx(org: OrgId, isNew: bool, loaded: Option<Inn>, claim: Option<Inn>, target: Option<Inn>, phase: Phase)

  /** Committed columns, the INN lock rows in use, and the saves in flight. */
  datatype State = State(column: map<OrgId, Option<Inn>>, locks: map<Inn, TxId>, txs: map<TxId, Tx>)

  datatype Step =
    | BeginEdit(t: TxId, org: OrgId, claim: Option<Inn>, target: Option<Inn>)
    | BeginCreate(t: TxId, org: OrgId, claim: Option<Inn>, target: Option<Inn>)
    | Lock(t: TxId)
    | Check(t: TxId)
    | Commit(t: TxId)
    | Rollback(t: TxId)
    | Delete(org: OrgId)

  predicate Changes(tx: Tx) {
    tx.target.Some? && tx.target != tx.loaded
  }

  /** The organizations other than `org` that carry an INN. */
  predicate CarriedByAnother(s: State, org: OrgId, inn: Inn) {
    exists o :: o in s.column && o != org && s.column[o] == Some(inn)
  }

  predicate OrgIsReserved(s: State, org: OrgId) {
    exists t :: t in s.txs && s.txs[t].org == org && s.txs[t].isNew
  }

  predicate Enabled(s: State, step: Step) {
    match step
    case BeginEdit(t, org, _, _) => t !in s.txs && org in s.column
    case BeginCreate(t, org, _, target) => t !in s.txs && org !in s.column && !OrgIsReserved(s, org) && target.Some?
    case Lock(t) => t in s.txs && s.txs[t].phase == Begun && (s.txs[t].claim.Some? ==> s.txs[t].claim.value !in s.locks)
    case Check(t) =>
      && t in s.txs
      && s.txs[t].phase == Locked
      && (Changes(s.txs[t]) ==> !CarriedByAnother(s, s.txs[t].org, s.txs[t].target.value))
    case Commit(t) => t in s.txs && s.txs[t].phase == Checked && (s.txs[t].isNew || s.txs[t].org in s.column)
    case Rollback(t) => t in s.txs
    case Delete(org) => org in s.column
  }

  /** The end of a transaction frees its lock row. */
  function Ended(s: State, t: TxId): State {
    s.(locks := map inn | inn in s.locks && s.locks[inn] != t :: s.locks[inn], txs := s.txs - {t})
  }

  /** What a commit makes of the columns. */
  function Written(column: map<OrgId, Option<Inn>>, tx: Tx): map<OrgId, Option<Inn>> {
    if tx.isNew || tx.target != tx.loaded then column[tx.org := tx.target] else column
  }

  function Next(s: State, step: Step): State
    requires Enabled(s, step)
  {
    match step
    case BeginEdit(t, org, claim, target) => s.(txs := s.txs[t := Tx(org, false, s.column[org], claim, target, Begun)])
    case BeginCreate(t, org, claim, target) => s.(txs := s.txs[t := Tx(org, true, None, claim, target, Begun)])
    case Lock(t) =>
      var tx := s.txs[t];
      s.(txs := s.txs[t := tx.(phase := Locked)],
         locks := if tx.claim.Some? then s.locks[tx.claim.value := t] else s.locks)
    case Check(t) => s.(txs := s.txs[t := s.txs[t].(phase := Checked)])
    case Commit(t) => Ended(s.(column := Written(s.column, s.txs[t])), t)
    case Rollback(t) => Ended(s, t)
    case Delete(org) => s.(column := s.column - {org})
  }

  /** A save locks the INN it changes to. */
  predicate Disciplined(step: Step, s: State) {
    match step
    case BeginEdit(_, org, claim, target) =>
      org in s.column && target.Some? && target != s.column[org] ==> claim == target
    case BeginCreate(_, _, claim, target) => claim == target
    case _ => true
  }

  ghost predicate ValidRun(s: State, steps: seq<Step>)
    decreases |steps|
  {
    steps != [] ==>
      && Enabled(s, steps[0])
      && Disciplined(steps[0], s)
      && ValidRun(Next(s, steps[0]), steps[1..])
  }

  ghost function Run(s: State, steps: seq<Step>): State
    requires ValidRun(s, steps)
    decreases |steps|
  {
    if steps == [] then s else Run(Next(s, steps[0]), steps[1..])
  }

  // ---- the invariant ----

  ghost predicate TxKeepsItsLock(s: State, t: TxId)
    requires t in s.txs
  {
    var tx := s.txs[t];
    && (tx.isNew ==> tx.loaded == None && tx.target.Some?)
    && (Changes(tx) ==> tx.claim == tx.target)
    && (tx.phase != Begun && tx.claim.Some? ==> tx.claim.value in s.locks && s.locks[tx.claim.value] == t)
    && (tx.phase == Checked && Changes(tx) ==> !CarriedByAnother(s, tx.org, tx.target.value))
  }

  /** A checked save that changes the INN holds its lock, and nobody else carries the INN. */
  ghost predicate Inv(s: State) {
    && (forall t | t in s.txs :: TxKeepsItsLock(s, t))
    && (forall inn | inn in s.locks :: s.locks[inn] in s.txs)
  }

  lemma BeginKeeps(s: State, step: Step)
    requires Inv(s) && Enabled(s, step) && Disciplined(step, s) && (step.BeginEdit? || step.BeginCreate?)
    ensures Inv(Next(s, step))
  {
    var s' := Next(s, step);
    forall t | t in s'.txs
      ensures TxKeepsItsLock(s', t)
    {
      if t in s.txs {
        assert TxKeepsItsLock(s, t);
      }
    }
  }

  lemma LockKeeps(s: State, t: TxId)
    requires Inv(s) && Enabled(s, Lock(t))
    ensures Inv(Next(s, Lock(t)))
  {
    var s' := Next(s, Lock(t));
    forall u | u in s'.txs
      ensures TxKeepsItsLock(s', u)
    {
      assert TxKeepsItsLock(s, u);
      assert forall org, inn :: CarriedByAnother(s', org, inn) == CarriedByAnother(s, org, inn);
    }
  }

  lemma CheckKeeps(s: State, t: TxId)
    requires Inv(s) && Enabled(s, Check(t))
    ensures Inv(Next(s, Check(t)))
  {
    var s' := Next(s, Check(t));
    forall u | u in s'.txs
      ensures TxKeepsItsLock(s', u)
    {
      assert TxKeepsItsLock(s, u);
      assert forall org, inn :: CarriedByAnother(s', org, inn) == CarriedByAnother(s, org, inn);
    }
  }

  /** Two saves past their check never change to the same INN. */
  lemma ChangedTargetsDiffer(s: State, t: TxId, u: TxId)
    requires Inv(s) && t in s.txs && u in s.txs && t != u
    requires Changes(s.txs[t]) && Changes(s.txs[u]) && s.txs[t].phase != Begun && s.txs[u].phase != Begun
    ensures s.txs[t].target != s.txs[u].target
  {
    assert TxKeepsItsLock(s, t) && TxKeepsItsLock(s, u);
  }

  lemma CommitKeeps(s: State, t: TxId)
    requires Inv(s) && Enabled(s, Commit(t))
    ensures Inv(Next(s, Commit(t)))
  {
    var s' := Next(s, Commit(t));
    forall u | u in s'.txs
      ensures TxKeepsItsLock(s', u)
    {
      assert TxKeepsItsLock(s, u) && TxKeepsItsLock(s, t);
      var tx := s'.txs[u];
      if tx.phase == Checked && Changes(tx) {
        if Changes(s.txs[t]) {
          ChangedTargetsDiffer(s, t, u);
        }
        forall o | o in s'.column && o != tx.org
          ensures s'.column[o] != tx.target
        {
          if o != s.txs[t].org {
            assert s'.column[o] == s.column[o];
          }
        }
      }
    }
  }

  lemma EndKeeps(s: State, step: Step)
    requires Inv(s) && Enabled(s, step) && (step.Rollback? || step.Delete?)
    ensures Inv(Next(s, step))
  {
    var s' := Next(s, step);
    forall u | u in s'.txs
      ensures TxKeepsItsLock(s', u)
    {
      assert TxKeepsItsLock(s, u);
    }
  }

  lemma StepKeeps(s: State, step: Step)
    requires Inv(s) && Enabled(s, step) && Disciplined(step, s)
    ensures Inv(Next(s, step))
  {
    match step
    case BeginEdit(_, _, _, _) => BeginKeeps(s, step);
    case BeginCreate(_, _, _, _) => BeginKeeps(s, step);
    case Lock(t) => LockKeeps(s, t);
    case Check(t) => CheckKeeps(s, t);
    case Commit(t) => CommitKeeps(s, t);
    case Rollback(_) => EndKeeps(s, step);
    case Delete(_) => EndKeeps(s, step);
  }

  // ---- how many organizations carry an INN ----

  function Carriers(column: map<OrgId, Option<Inn>>, inn: Inn): (r: set<OrgId>)
    ensures forall o :: o in r <==> o in column && column[o] == Some(inn)
  {
    set o | o in column && column[o] == Some(inn)
  }

  lemma SmallerSet(a: set<OrgId>, b: set<OrgId>)
    requires a <= b
    ensures |a| <= |b|
  {
    assert |b| == |a| + |b - a| by {
      assert b == a + (b - a);
    }
  }

  function Max(a: nat, b: nat): nat {
    if a < b then b else a
  }

  /**
   When a commit keeps the number of carriers of every INN within one or what it was: exactly when it
   writes nothing, clears the INN, writes the INN the organization has, or writes one nobody carries.
   */
  lemma CommitKeepsBoundIff(column: map<OrgId, Option<Inn>>, tx: Tx)
    requires tx.isNew ==> tx.org !in column && Changes(tx)
    ensures (forall inn :: |Carriers(Written(column, tx), inn)| <= Max(1, |Carriers(column, inn)|))
            <==> (Changes(tx) ==>
                    || Carriers(column, tx.target.value) == {}
                    || tx.org in Carriers(column, tx.target.value))
  {
    if Changes(tx) {
      NewInnIsCarried(column, tx, tx.target.value);
    }
    forall inn | !Changes(tx) || inn != tx.target.value
      ensures |Carriers(Written(column, tx), inn)| <= |Carriers(column, inn)|
    {
      OtherInnsKeepBound(column, tx, inn);
    }
  }

  lemma NewInnIsCarried(column: map<OrgId, Option<Inn>>, tx: Tx, inn: Inn)
    requires Changes(tx) && tx.target == Some(inn)
    ensures |Carriers(Written(column, tx), inn)|
            == |Carriers(column, inn)| + (if tx.org in Carriers(column, inn) then 0 else 1)
    ensures Carriers(column, inn) != {} ==> |Carriers(column, inn)| >= 1
  {
    var before := Carriers(column, inn);
    assert Carriers(Written(column, tx), inn) == before + {tx.org};
    assert tx.org in before ==> before + {tx.org} == before;
    if before != {} {
      var o :| o in before;
      SmallerSet({o}, before);
    }
  }

  lemma OtherInnsKeepBound(column: map<OrgId, Option<Inn>>, tx: Tx, inn: Inn)
    requires tx.isNew ==> tx.org !in column && Changes(tx)
    requires !Changes(tx) || inn != tx.target.value
    ensures |Carriers(Written(column, tx), inn)| <= |Carriers(column, inn)|
  {
    assert Carriers(Written(column, tx), inn) <= Carriers(column, inn);
    SmallerSet(Carriers(Written(column, tx), inn), Carriers(column, inn));
  }

  lemma StepKeepsBound(s: State, step: Step, inn: Inn)
    requires Inv(s) && Enabled(s, step)
    ensures |Carriers(Next(s, step).column, inn)| <= Max(1, |Carriers(s.column, inn)|)
  {
    match step
    case Commit(t) =>
      var tx := s.txs[t];
      assert TxKeepsItsLock(s, t);
      if tx.target == Some(inn) && Changes(tx) {
        assert Carriers(Written(s.column, tx), inn) == {tx.org};
      } else {
        assert Carriers(Written(s.column, tx), inn) <= Carriers(s.column, inn);
        SmallerSet(Carriers(Written(s.column, tx), inn), Carriers(s.column, inn));
      }
    case Delete(org) =>
      SmallerSet(Carriers(Next(s, step).column, inn), Carriers(s.column, inn));
    case _ =>
      assert Next(s, step).column == s.column;
  }

  /** A state with no save in flight, whatever duplicates history left in it. */
  predicate Quiet(s: State) {
    s.txs == map[] && s.locks == map[]
  }

  lemma {:induction false} RunKeepsBound(s: State, steps: seq<Step>, inn: Inn)
    requires Inv(s) && ValidRun(s, steps)
    ensures Inv(Run(s, steps))
    ensures |Carriers(Run(s, steps).column, inn)| <= Max(1, |Carriers(s.column, inn)|)
    decreases |steps|
  {
    if steps != [] {
      StepKeeps(s, steps[0]);
      StepKeepsBound(s, steps[0], inn);
      RunKeepsBound(Next(s, steps[0]), steps[1..], inn);
    }
  }

  /** However saves interleave, no INN is ever carried more often than once or than it was at the start. */
  lemma InnStaysUnique(s: State, steps: seq<Step>, inn: Inn)
    requires Quiet(s) && ValidRun(s, steps)
    ensures |Carriers(Run(s, steps).column, inn)| <= Max(1, |Carriers(s.column, inn)|)
  {
    RunKeepsBound(s, steps, inn);
  }

  /**
   The rule that the runs above assume of a save is what the card code gives: for a card whose column
   agrees with its requisites and a payload that names the types of the rows it rewrites, the save
   locks the INN it changes to.
   */
  lemma TypedSavesAreDisciplined(
    s: State, t: TxId, org: OrgId, innType: CardInn.TypeId, existing: seq<CardInn.Requisite>,
    nextId: CardInn.Id, inputs: seq<CardInn.Input>, others: set<string>)
    requires org in s.column && CardInn.Agrees(innType, existing, s.column[org]) && CardInn.Typed(inputs)
    requires CardInn.Save(innType, existing, nextId, s.column[org], inputs, others).Ok?
    ensures var target := CardInn.Save(innType, existing, nextId, s.column[org], inputs, others).value.1;
            Disciplined(BeginEdit(t, org, CardInn.LockedInn(innType, inputs, s.column[org]), target), s)
  {
    CardInn.ChangedInnIsLocked(innType, existing, nextId, s.column[org], inputs, others);
  }

  /** The same for a payload that names the INN and no row twice, whatever the rows held before. */
  lemma NamingSavesAreDisciplined(
    s: State, t: TxId, org: OrgId, innType: CardInn.TypeId, existing: seq<CardInn.Requisite>,
    nextId: CardInn.Id, inputs: seq<CardInn.Input>, others: set<string>)
    requires org in s.column && CardInn.DistinctIds(inputs) && CardInn.IdsBelow(existing, nextId)
    requires CardInn.PayloadInns(innType, inputs) != []
    requires CardInn.Save(innType, existing, nextId, s.column[org], inputs, others).Ok?
    ensures var target := CardInn.Save(innType, existing, nextId, s.column[org], inputs, others).value.1;
            Disciplined(BeginEdit(t, org, CardInn.LockedInn(innType, inputs, s.column[org]), target), s)
  {
    CardInn.NamedInnIsStored(innType, existing, nextId, s.column[org], inputs, others);
  }

  /** Creating needs no premise on the column: a new card has no rows, and must bring an INN. */
  lemma CreatesAreDisciplined(s: State, t: TxId, org: OrgId, innType: CardInn.TypeId, nextId: CardInn.Id,
                              inputs: seq<CardInn.Input>, others: set<string>)
    requires CardInn.PayloadInns(innType, inputs) != []
    requires CardInn.Save(innType, [], nextId, None, inputs, others).Ok?
    ensures var target := CardInn.Save(innType, [], nextId, None, inputs, others).value.1;
            target.Some? && Disciplined(BeginCreate(t, org, CardInn.LockedInn(innType, inputs, None), target), s)
  {
    CardInn.CreateKeepsPayloadInn(innType, nextId, inputs, others);
  }

  // ---- runs of saves that carry their payloads ----

  /** The rows a save loads, the next row id, and what the form sends. */
  datatype Form = Form(existing: seq<CardInn.Requisite>, nextId: CardInn.Id, inputs: seq<CardInn.Input>)

  /** A save begins with its form; everything later in it is a step as above. */
  datatype Event =
    | Edit(t: TxId, org: OrgId, form: Form)
    | Create(t: TxId, org: OrgId, form: Form)
    | Later(step: Step)

  /** The save as the card code computes it; the check against other organizations is a step of its own. */
  function Saved(innType: CardInn.TypeId, form: Form, loaded: Option<Inn>)
    : Result<(seq<CardInn.Requisite>, Option<Inn>), CardInn.Error>
  {
    CardInn.Save(innType, form.existing, form.nextId, loaded, form.inputs, {})
  }

  /** The step an event is, with the lock and the new INN that the card code computes from the form. */
  function StepOf(innType: CardInn.TypeId, s: State, event: Event): Step
    requires event.Edit? ==> event.org in s.column && Saved(innType, event.form, s.column[event.org]).Ok?
    requires event.Create? ==> Saved(innType, event.form, None).Ok?
  {
    match event
    case Edit(t, org, form) =>
      BeginEdit(t, org, CardInn.LockedInn(innType, form.inputs, s.column[org]),
                Saved(innType, form, s.column[org]).value.1)
    case Create(t, org, form) =>
      BeginCreate(t, org, CardInn.LockedInn(innType, form.inputs, None), Saved(innType, form, None).value.1)
    case Later(step) => step
  }

  /** The form names its INN under the INN type, and no row twice. */
  ghost predicate NamesItsInn(innType: CardInn.TypeId, form: Form) {
    && CardInn.DistinctIds(form.inputs) && CardInn.IdsBelow(form.existing, form.nextId)
    && CardInn.PayloadInns(innType, form.inputs) != []
  }

  /** The column agrees with the rows, and every row the form rewrites has its type stated. */
  predicate Careful(innType: CardInn.TypeId, form: Form, loaded: Option<Inn>) {
    CardInn.Agrees(innType, form.existing, loaded) && CardInn.Typed(form.inputs)
  }

  /** A create has no rows yet and must name an INN; a form that cannot be saved raises before it writes. */
  ghost predicate Happens(innType: CardInn.TypeId, s: State, event: Event) {
    && (match event
        case Edit(_, org, form) =>
          && org in s.column
          && Saved(innType, form, s.column[org]).Ok?
          && (NamesItsInn(innType, form) || Careful(innType, form, s.column[org]))
        case Create(_, _, form) =>
          && form.existing == []
          && CardInn.PayloadInns(innType, form.inputs) != []
          && Saved(innType, form, None).Ok?
        case Later(step) => !step.BeginEdit? && !step.BeginCreate?)
    && Enabled(s, StepOf(innType, s, event))
  }

  ghost predicate ValidEvents(innType: CardInn.TypeId, s: State, events: seq<Event>)
    decreases |events|
  {
    events == [] ||
    (Happens(innType, s, events[0]) && ValidEvents(innType, Next(s, StepOf(innType, s, events[0])), events[1..]))
  }

  ghost function RunEvents(innType: CardInn.TypeId, s: State, events: seq<Event>): State
    requires ValidEvents(innType, s, events)
    decreases |events|
  {
    if events == [] then s else RunEvents(innType, Next(s, StepOf(innType, s, events[0])), events[1..])
  }

  lemma EventsAreDisciplined(innType: CardInn.TypeId, s: State, event: Event)
    requires Happens(innType, s, event)
    ensures Disciplined(StepOf(innType, s, event), s)
  {
    match event
    case Edit(t, org, form) =>
      if NamesItsInn(innType, form) {
        NamingSavesAreDisciplined(s, t, org, innType, form.existing, form.nextId, form.inputs, {});
      } else {
        TypedSavesAreDisciplined(s, t, org, innType, form.existing, form.nextId, form.inputs, {});
      }
    case Create(t, org, form) => CreatesAreDisciplined(s, t, org, innType, form.nextId, form.inputs, {});
    case Later(_) =>
  }

  lemma {:induction false} EventsKeepBound(innType: CardInn.TypeId, s: State, events: seq<Event>, inn: Inn)
    requires Inv(s) && ValidEvents(innType, s, events)
    ensures |Carriers(RunEvents(innType, s, events).column, inn)| <= Max(1, |Carriers(s.column, inn)|)
    decreases |events|
  {
    if events != [] {
      var step := StepOf(innType, s, events[0]);
      EventsAreDisciplined(innType, s, events[0]);
      StepKeeps(s, step);
      StepKeepsBound(s, step, inn);
      EventsKeepBound(innType, Next(s, step), events[1..], inn);
    }
  }

  /**
   Saves that carry their rows and payloads, with lock and new INN computed as the card code does, in any
   interleaving: no INN is ever carried more often than once or than it was at the start.
   */
  lemma SavesKeepInnUnique(innType: CardInn.TypeId, s: State, events: seq<Event>, inn: Inn)
    requires Quiet(s) && ValidEvents(innType, s, events)
    ensures |Carriers(RunEvents(innType, s, events).column, inn)| <= Max(1, |Carriers(s.column, inn)|)
  {
    EventsKeepBound(innType, s, events, inn);
  }

  // ---- a save that keeps its INN ----

  /** The form names no INN or the one of the column, and leaves rows that agree with the column. */
  predicate KeepsInn(innType: CardInn.TypeId, form: Form, loaded: Option<Inn>) {
    && (loaded.Some? ==> IsInn(loaded.value))
    && (var named := CardInn.PayloadInns(innType, form.inputs);
        named == [] || (loaded.Some? && named == [loaded.value]))
    && (var rows := CardInn.SyncRequisites(form.existing, form.nextId, form.inputs);
        rows.Ok? && CardInn.Agrees(innType, rows.value, loaded))
  }

  lemma KeptInnIsSaved(innType: CardInn.TypeId, form: Form, loaded: Option<Inn>)
    requires KeepsInn(innType, form, loaded)
    ensures Saved(innType, form, loaded).Ok? && Saved(innType, form, loaded).value.1 == loaded
    ensures CardInn.LockedInn(innType, form.inputs, loaded) == None
  {
    var rows := CardInn.SyncRequisites(form.existing, form.nextId, form.inputs).value;
    CardInn.UnchangedInnNeverRefused(innType, rows, loaded, {});
  }

  /** The save is in flight, keeps the INN it read, and waits for no lock. */
  predicate Keeping(s: State, t: TxId, org: OrgId) {
    && t in s.txs && s.txs[t].org == org && !s.txs[t].isNew
    && s.txs[t].target == s.txs[t].loaded && s.txs[t].claim == None
  }

  /** The step a save takes next. */
  function NextStepOf(s: State, t: TxId): Step
    requires t in s.txs
  {
    match s.txs[t].phase
    case Begun => Lock(t)
    case Locked => Check(t)
    case Checked => Commit(t)
  }

  /** It waits for no lock and fails no check, however many others carry the INN, and writes no column. */
  lemma UnchangedInnIsAlwaysSavable(s: State, t: TxId, org: OrgId)
    requires Keeping(s, t, org) && org in s.column
    ensures Enabled(s, NextStepOf(s, t)) && Next(s, NextStepOf(s, t)).column == s.column
  {
    assert !Changes(s.txs[t]);
  }

  /** Nobody but the save itself ends it. */
  predicate Ends(event: Event, t: TxId) {
    event.Later? && (event.step == Commit(t) || event.step == Rollback(t))
  }

  lemma KeepingStays(innType: CardInn.TypeId, s: State, event: Event, t: TxId, org: OrgId)
    requires Keeping(s, t, org) && Happens(innType, s, event) && !Ends(event, t)
    ensures Keeping(Next(s, StepOf(innType, s, event)), t, org)
  {
  }

  lemma {:induction false} RunStaysKeeping(innType: CardInn.TypeId, s: State, events: seq<Event>, t: TxId, org: OrgId)
    requires Keeping(s, t, org) && ValidEvents(innType, s, events)
    requires forall i | 0 <= i < |events| :: !Ends(events[i], t)
    ensures Keeping(RunEvents(innType, s, events), t, org)
    decreases |events|
  {
    if events != [] {
      KeepingStays(innType, s, events[0], t, org);
      RunStaysKeeping(innType, Next(s, StepOf(innType, s, events[0])), events[1..], t, org);
    }
  }

  /**
   A save whose form keeps the INN of the column always begins, and whatever other saves do in between, its next
   step can be taken at once while the organization exists, and leaves every column as it is.
   */
  lemma UnchangedInnIsNeverRefused(
    innType: CardInn.TypeId, s: State, t: TxId, org: OrgId, form: Form, events: seq<Event>)
    requires t !in s.txs && org in s.column && KeepsInn(innType, form, s.column[org])
    ensures Saved(innType, form, s.column[org]).Ok? && Enabled(s, StepOf(innType, s, Edit(t, org, form)))
    ensures var begun := Next(s, StepOf(innType, s, Edit(t, org, form)));
            ValidEvents(innType, begun, events) && (forall i | 0 <= i < |events| :: !Ends(events[i], t)) ==>
              var end := RunEvents(innType, begun, events);
              t in end.txs &&
              (org in end.column ==>
                 Enabled(end, NextStepOf(end, t)) && Next(end, NextStepOf(end, t)).column == end.column)
  {
    KeptInnIsSaved(innType, form, s.column[org]);
    var begun := Next(s, StepOf(innType, s, Edit(t, org, form)));
    if ValidEvents(innType, begun, events) && forall i | 0 <= i < |events| :: !Ends(events[i], t) {
      RunStaysKeeping(innType, begun, events, t, org);
      var end := RunEvents(innType, begun, events);
      if org in end.column {
        UnchangedInnIsAlwaysSavable(end, t, org);
      }
    }
  }

  /** In every state a save passes its check unless another organization carries the INN it changes to. */
  lemma CheckPassesIff(s: State, t: TxId)
    requires t in s.txs && s.txs[t].phase == Locked
    ensures var tx := s.txs[t];
            Enabled(s, Check(t)) <==>
              || tx.target == None || tx.target == tx.loaded
              || forall o | o in s.column && o != tx.org :: s.column[o] != tx.target
  {
  }

  /** The INN of the save is none, the one it read, or one that no other organization carries. */
  predicate FreeFor(column: map<OrgId, Option<Inn>>, org: OrgId, target: Option<Inn>) {
    || target == None || (org in column && target == column[org])
    || forall o | o in column && o != org :: column[o] != target
  }

  /**
   A save with nobody beside it passes its check exactly when its INN is free, and then stores the INN its rows give
   and frees its lock.
   */
  lemma LoneSaveStores(innType: CardInn.TypeId, s: State, t: TxId, org: OrgId, form: Form)
    requires Quiet(s) && org in s.column && Saved(innType, form, s.column[org]).Ok?
    ensures var target := Saved(innType, form, s.column[org]).value.1;
            var edit := StepOf(innType, s, Edit(t, org, form));
            && Enabled(s, edit) && Enabled(Next(s, edit), Lock(t))
            && var locked := Next(Next(s, edit), Lock(t));
               && (Enabled(locked, Check(t)) <==> FreeFor(s.column, org, target))
               && (Enabled(locked, Check(t)) ==>
                     && Enabled(Next(locked, Check(t)), Commit(t))
                     && Next(Next(locked, Check(t)), Commit(t)) == s.(column := s.column[org := target]))
  {
    var target := Saved(innType, form, s.column[org]).value.1;
    var begun := Next(s, StepOf(innType, s, Edit(t, org, form)));
    var locked := Next(begun, Lock(t));
    assert Enabled(locked, Check(t)) <==> FreeFor(s.column, org, target);
    if Enabled(locked, Check(t)) {
      var done := Next(Next(locked, Check(t)), Commit(t));
      assert done.column == s.column[org := target];
      assert done.locks == map[] && done.txs == map[];
    }
  }

  /** Without the lock two saves may both see a free INN and both take it. */
  lemma UnlockedSavesDuplicate(inn: Inn)
    ensures var s := State(map[0 := None, 1 := None], map[], map[]);
            var both := s.(txs := map[0 := Tx(0, false, None, None, Some(inn), Checked),
                                      1 := Tx(1, false, None, None, Some(inn), Checked)]);
            && UnlockedRun(s, inn) == both
            && Enabled(both, Commit(0))
            && Enabled(Next(both, Commit(0)), Commit(1))
            && |Carriers(Next(Next(both, Commit(0)), Commit(1)).column, inn)| == 2
  {
    var both := UnlockedRun(State(map[0 := None, 1 := None], map[], map[]), inn);
    var last := Next(Next(both, Commit(0)), Commit(1));
    assert Carriers(last.column, inn) == {0, 1};
  }

  /** Both saves run up to their commit. */
  function UnlockedRun(s: State, inn: Inn): State
    requires s == State(map[0 := None, 1 := None], map[], map[])
  {
    var s1 := Next(s, BeginEdit(0, 0, None, Some(inn)));
    var s2 := Next(s1, BeginEdit(1, 1, None, Some(inn)));
    var s3 := Next(s2, Lock(0));
    var s4 := Next(s3, Lock(1));
    var s5 := Next(s4, Check(0));
    Next(s5, Check(1))
  }
}
