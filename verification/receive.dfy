/**
  * The receive flow (app/handlers/receive.py): number, then name and type (picked from the
  * names and types already in use, or typed), condition, machine and machine number; the last
  * answer inserts the unit and its `received` event.
  */
module Receive {

  import opened Common
  import opened Text
  import opened Models
  import opened Db
  import opened Fsm
  import opened Identity
  import opened Markup
  import opened ReceiveKeyboards

  const NamePrefix := "recv:name"
  const TypePrefix := "recv:type"
  /** `choices_paged_kb`'s default page size, which the receive flow uses. */
  const PageSize := 5

  const NumberKey := "number"
  const NameKey := "name"
  const TypeKey := "type"
  const ConditionKey := "condition"
  const MachineKey := "machine"
  const MachineNumberKey := "machine_number"
  const NamesKey := "names_all"
  const TypesKey := "types_all"

  // ---- what the pure parts of the flow compute ----

  /** The stored condition for a `recv:cond:*` token: one of four labels, any other token verbatim. */
  function ConditionLabel(token: string): (r: string)
    ensures token == "ok" ==> r == "Исправный"
    ensures token == "bad" ==> r == "Не исправный"
    ensures token == "warranty" ==> r == "Гарантийный"
    ensures token == "check" ==> r == "На проверку"
    ensures token !in {"ok", "bad", "warranty", "check"} ==> r == token
  {
    match token
    case "ok" => "Исправный"
    case "bad" => "Не исправный"
    case "warranty" => "Гарантийный"
    case "check" => "На проверку"
    case _ => token
  }

  /** A condition button whose label is the one its token maps to stores that label. */
  lemma CondButtonStoresLabel(icon: string, caption: string, token: string)
    requires ':' !in token && ConditionLabel(token) == caption
    ensures var b := CondButton(icon, caption, token);
            EndsWith(b.text, ConditionLabel(LastPart(b.data, ':')))
  {
    var b := CondButton(icon, caption, token);
    assert b.data == "recv:cond" + [':'] + token;
    LastPartAfterSep("recv:cond", ':', token);
    assert b.text[|b.text| - |caption|..] == caption;
  }

  /** Every button of the condition keyboard stores the label its caption shows. */
  lemma {:induction false} StatusKbStoresCaption(i: nat)
    requires i < 4
    ensures EndsWith(StatusKb()[i][0].text, ConditionLabel(LastPart(StatusKb()[i][0].data, ':')))
  {
    var b := StatusKb()[i][0];
    var (icon, caption, token) :=
      if i == 0 then ("\U{2705}", "Исправный", "ok")
      else if i == 1 then ("\U{274c}", "Не исправный", "bad")
      else if i == 2 then ("\U{1f6e1}", "Гарантийный", "warranty")
      else ("\U{1f9ea}", "На проверку", "check");
    assert b == CondButton(icon, caption, token);
    assert ':' !in token && ConditionLabel(token) == caption;
    CondButtonStoresLabel(icon, caption, token);
  }

  /** The machine a `recv:ra:*` token stores: `skip` stores nothing. */
  function MachineValue(token: string): (v: Value)
    ensures v == Null <==> token == "skip"
  {
    if token == "skip" then Null else Str(token)
  }

  /** The machine keyboard stores `RA1`, `RA2` or `RA3` (Latin letters), or nothing for skip. */
  lemma RaKbStoresMachine(i: nat)
    requires i < 4
    ensures var v := MachineValue(LastPart(RaKb()[i][0].data, ':'));
            if i == 3 then v == Null else v == Str(["RA1", "RA2", "RA3"][i])
  {
    var token := ["RA1", "RA2", "RA3", "skip"][i];
    assert RaKb()[i][0].data == RaData(token) == "recv:ra" + [':'] + token;
    LastPartAfterSep("recv:ra", ':', token);
  }

  /** The steps after the number: a name choice when names exist, else manual entry. */
  predicate AtNameStep(step: Option<Step>, data: Data, kb: Option<Keyboard>, d: Data, units: seq<Unit>) {
    var names := DistinctNames(units);
    if names != [] then
      step == Some(RecvNameChoice) && data == d[NamesKey := Strs(names)]
      && kb == Some(PagedKb(names, NamePrefix, 0, PageSize))
    else step == Some(RecvNameManual) && data == d && kb.None?
  }

  /** The steps after the name (`proceed_to_type`): a type choice when types exist, else manual entry. */
  predicate AtTypeStep(step: Option<Step>, data: Data, kb: Option<Keyboard>, d: Data, units: seq<Unit>) {
    var types := DistinctKinds(units);
    if types != [] then
      step == Some(RecvTypeChoice) && data == d[TypesKey := Strs(types)]
      && kb == Some(PagedKb(types, TypePrefix, 0, PageSize))
    else step == Some(RecvTypeManual) && data == d && kb.None?
  }

  /** The keys `finish_receive` renders with `str(...)` hold text, numbers or `None`. */
  predicate ReceiveShaped(d: Data) {
    && Scalar(d, NumberKey) && Scalar(d, NameKey) && Scalar(d, TypeKey)
    && Scalar(d, ConditionKey) && Scalar(d, MachineKey) && Scalar(d, MachineNumberKey)
  }

  /** The unit `finish_receive` builds; empty condition, machine and machine number become `None`. */
  function ReceivedUnit(d: Data, surname: Option<string>, now: Time, utc: Time): Unit
    requires ReceiveShaped(d)
  {
    NewUnit(0, PyStr(d, NumberKey), PyStr(d, NameKey), PyStr(d, TypeKey), utc,
            condition := TruthyStr(d, ConditionKey), machine := TruthyStr(d, MachineKey),
            machineNumber := TruthyStr(d, MachineNumberKey), acceptedAt := Some(now),
            masterSurname := surname)
  }

  /** Both commits of `finish_receive`: the unit, then its `received` event. */
  function ReceiveCommit(t: Tables, d: Data, from: Option<TgUser>, now: Time, utc: Time): Tables
    requires ReceiveShaped(d)
  {
    var surname := DisplayName(t.users, from);
    var withUnit := AddUnit(t, ReceivedUnit(d, surname, now, utc));
    AddEvent(withUnit, NewUnitEvent(0, |t.units| + 1, EventReceived, utc,
                                    ActorId(t.users, from), ReceiveEventName(t.users, from, surname)))
  }

  /**
    * Finishing adds exactly one unit, with a fresh id and status `received`, whose optional
    * columns are `None` exactly when the answers were empty, and exactly one `received` event for
    * it naming the same person as the unit's surname; nothing else changes and the invariant holds.
    */
  lemma ReceiveCommitSpec(t: Tables, d: Data, from: Option<TgUser>, now: Time, utc: Time)
    requires Valid(t) && ReceiveShaped(d)
    ensures var r := ReceiveCommit(t, d, from, now, utc);
            && Valid(r)
            && |r.units| == |t.units| + 1 && r.units[..|t.units|] == t.units
            && |r.events| == |t.events| + 1 && r.events[..|t.events|] == t.events
            && r.users == t.users && r.repairs == t.repairs && r.attachments == t.attachments
            && r.printJobs == t.printJobs && r.printEvents == t.printEvents && r.printers == t.printers
    ensures var r := ReceiveCommit(t, d, from, now, utc);
            var u := r.units[|t.units|];
            var e := r.events[|t.events|];
            && (forall i | 0 <= i < |t.units| :: t.units[i].id != u.id)
            && u.status == UnitReceived && u.acceptedAt == Some(now)
            && u.number == PyStr(d, NumberKey) && u.name == PyStr(d, NameKey) && u.kind == PyStr(d, TypeKey)
            && (u.condition.None? <==> !TruthyAt(d, ConditionKey))
            && (u.machine.None? <==> !TruthyAt(d, MachineKey))
            && (u.machineNumber.None? <==> !TruthyAt(d, MachineNumberKey))
            && u.masterSurname == DisplayName(t.users, from)
            && e.unitId == u.id && e.eventType == EventReceived
            && e.byUserName == u.masterSurname && e.byUserId == ActorId(t.users, from)
  {
    var surname := DisplayName(t.users, from);
    var u := ReceivedUnit(d, surname, now, utc);
    var e := NewUnitEvent(0, |t.units| + 1, EventReceived, utc,
                          ActorId(t.users, from), ReceiveEventName(t.users, from, surname));
    ReceiveKeepsValid(t, u, e);
    ReceiveEventNameIsSurname(t.users, from);
    FreshIds(t);
  }

  // ---- the handlers ----

  /** `start_receive`: a fresh session at the number step. */
  method StartReceive(s: Session)
    modifies s
    ensures s.step == Some(RecvNumber) && s.data == map[]
  {
    s.Clear();
    s.SetStep(RecvNumber);
  }

  /** `set_number`: a blank number is asked again; otherwise it is kept and the name step follows. */
  method SetNumber(s: Session, db: Store, text: string) returns (kb: Option<Keyboard>)
    requires s.step == Some(RecvNumber)
    modifies s
    ensures Strip(text) == [] ==> s.step == old(s.step) && s.data == old(s.data) && kb.None?
    ensures Strip(text) != [] ==>
      AtNameStep(s.step, s.data, kb, old(s.data)[NumberKey := Str(Strip(text))], db.units)
  {
    var number := Strip(text);
    kb := None;
    if number == [] {
      return;
    }
    s.Update(NumberKey, Str(number));
    var names := DistinctNames(db.units);
    if names != [] {
      s.Update(NamesKey, Strs(names));
      s.SetStep(RecvNameChoice);
      var page := ChoicesPagedKb(names, NamePrefix, 0, PageSize);
      kb := Some(page);
    } else {
      s.SetStep(RecvNameManual);
    }
  }

  /** `name_manual_switch`. */
  method NameManualSwitch(s: Session)
    requires s.step == Some(RecvNameChoice)
    modifies s
    ensures s.step == Some(RecvNameManual) && s.data == old(s.data)
  {
    s.SetStep(RecvNameManual);
  }

  /** `name_page`: the stored names at the page the button carries (page 0 if it is not a number). */
  method NamePage(s: Session, callbackData: string) returns (kb: Keyboard)
    requires s.step == Some(RecvNameChoice)
    ensures kb == PagedKb(GetStrs(s.data, NamesKey), NamePrefix, PageArg(callbackData), PageSize)
  {
    kb := ChoicesPagedKb(GetStrs(s.data, NamesKey), NamePrefix, PageArg(callbackData), PageSize);
  }

  /** `proceed_to_type`: offer the types in use, or ask for one. */
  method ProceedToType(s: Session, db: Store) returns (kb: Option<Keyboard>)
    modifies s
    ensures AtTypeStep(s.step, s.data, kb, old(s.data), db.units)
  {
    var types := DistinctKinds(db.units);
    kb := None;
    if types != [] {
      s.Update(TypesKey, Strs(types));
      s.SetStep(RecvTypeChoice);
      var page := ChoicesPagedKb(types, TypePrefix, 0, PageSize);
      kb := Some(page);
    } else {
      s.SetStep(RecvTypeManual);
    }
  }

  /** `name_pick`: a bad index falls back to manual entry; a good one stores the name shown. */
  method NamePick(s: Session, db: Store, callbackData: string) returns (kb: Option<Keyboard>)
    requires s.step == Some(RecvNameChoice)
    modifies s
    ensures var pick := PickArg(GetStrs(old(s.data), NamesKey), callbackData);
            && (pick.None? ==> s.step == Some(RecvNameManual) && s.data == old(s.data) && kb.None?)
            && (pick.Some? ==> AtTypeStep(s.step, s.data, kb, old(s.data)[NameKey := Str(pick.value)], db.units))
  {
    var pick := PickArg(GetStrs(s.data, NamesKey), callbackData);
    if pick.None? {
      s.SetStep(RecvNameManual);
      kb := None;
      return;
    }
    s.Update(NameKey, Str(pick.value));
    kb := ProceedToType(s, db);
  }

  /** `set_name_manual`: a blank name is asked again; otherwise it is stored and the type step follows. */
  method SetNameManual(s: Session, db: Store, text: string) returns (kb: Option<Keyboard>)
    requires s.step == Some(RecvNameManual)
    modifies s
    ensures Strip(text) == [] ==> s.step == old(s.step) && s.data == old(s.data) && kb.None?
    ensures Strip(text) != [] ==>
      AtTypeStep(s.step, s.data, kb, old(s.data)[NameKey := Str(Strip(text))], db.units)
  {
    var name := Strip(text);
    kb := None;
    if name == [] {
      return;
    }
    s.Update(NameKey, Str(name));
    kb := ProceedToType(s, db);
  }

  /** `type_manual_switch`. */
  method TypeManualSwitch(s: Session)
    requires s.step == Some(RecvTypeChoice)
    modifies s
    ensures s.step == Some(RecvTypeManual) && s.data == old(s.data)
  {
    s.SetStep(RecvTypeManual);
  }

  /** `type_page`. */
  method TypePage(s: Session, callbackData: string) returns (kb: Keyboard)
    requires s.step == Some(RecvTypeChoice)
    ensures kb == PagedKb(GetStrs(s.data, TypesKey), TypePrefix, PageArg(callbackData), PageSize)
  {
    kb := ChoicesPagedKb(GetStrs(s.data, TypesKey), TypePrefix, PageArg(callbackData), PageSize);
  }

  /** `type_pick`: a bad index falls back to manual entry; a good one stores the type and asks the condition. */
  method TypePick(s: Session, callbackData: string) returns (kb: Option<Keyboard>)
    requires s.step == Some(RecvTypeChoice)
    modifies s
    ensures var pick := PickArg(GetStrs(old(s.data), TypesKey), callbackData);
            && (pick.None? ==> s.step == Some(RecvTypeManual) && s.data == old(s.data) && kb.None?)
            && (pick.Some? ==> s.step == Some(RecvCondition) && s.data == old(s.data)[TypeKey := Str(pick.value)]
                               && kb == Some(StatusKb()))
  {
    var pick := PickArg(GetStrs(s.data, TypesKey), callbackData);
    if pick.None? {
      s.SetStep(RecvTypeManual);
      kb := None;
      return;
    }
    s.Update(TypeKey, Str(pick.value));
    s.SetStep(RecvCondition);
    kb := Some(StatusKb());
  }

  /** `set_type_manual`. */
  method SetTypeManual(s: Session, text: string) returns (kb: Option<Keyboard>)
    requires s.step == Some(RecvTypeManual)
    modifies s
    ensures Strip(text) == [] ==> s.step == old(s.step) && s.data == old(s.data) && kb.None?
    ensures Strip(text) != [] ==>
      s.step == Some(RecvCondition) && s.data == old(s.data)[TypeKey := Str(Strip(text))] && kb == Some(StatusKb())
  {
    var v := Strip(text);
    kb := None;
    if v == [] {
      return;
    }
    s.Update(TypeKey, Str(v));
    s.SetStep(RecvCondition);
    kb := Some(StatusKb());
  }

  /** `set_condition`: the label for the token after the last colon, then the machine step. */
  method SetCondition(s: Session, callbackData: string) returns (kb: Keyboard)
    requires s.step == Some(RecvCondition)
    modifies s
    ensures s.step == Some(RecvMachine)
    ensures s.data == old(s.data)[ConditionKey := Str(ConditionLabel(LastPart(callbackData, ':')))]
    ensures kb == RaKb()
  {
    var value := LastPart(callbackData, ':');
    s.Update(ConditionKey, Str(ConditionLabel(value)));
    s.SetStep(RecvMachine);
    kb := RaKb();
  }

  /** `set_machine`: the token after the last colon, `skip` as `None`; then the machine-number step. */
  method SetMachine(s: Session, callbackData: string) returns (kb: Keyboard)
    requires s.step == Some(RecvMachine)
    modifies s
    ensures s.step == Some(RecvMachineNumber)
    ensures s.data == old(s.data)[MachineKey := MachineValue(LastPart(callbackData, ':'))]
    ensures kb == SkipKb()
  {
    var value := LastPart(callbackData, ':');
    s.Update(MachineKey, MachineValue(value));
    s.SetStep(RecvMachineNumber);
    kb := SkipKb();
  }

  /**
    * `skip_machine_number` as written: it clears the machine number and then calls a function
    * that does not exist, so the handler fails with the session still at the machine-number step
    * and nothing written.
    */
  method SkipMachineNumberAsWritten(s: Session, db: Store) returns (outcome: Result<(), string>)
    requires s.step == Some(RecvMachineNumber)
    modifies s
    ensures outcome.Failure?
    ensures s.step == Some(RecvMachineNumber) && s.data == old(s.data)[MachineNumberKey := Null]
    ensures db.Snapshot() == old(db.Snapshot())
  {
    s.Update(MachineNumberKey, Null);
    outcome := Failure("NameError: name 'ask_accepted_at' is not defined");
  }

  /** The skip button as intended: no machine number, and the flow finishes like a typed one. */
  method SkipMachineNumber(s: Session, db: Store, from: Option<TgUser>, now: Time, utc: Time)
    requires s.step == Some(RecvMachineNumber)
    requires ReceiveShaped(s.data) && Valid(db.Snapshot())
    modifies s, db
    ensures db.Snapshot() == ReceiveCommit(old(db.Snapshot()), old(s.data)[MachineNumberKey := Null], from, now, utc)
    ensures Valid(db.Snapshot())
    ensures s.step == None && s.data == map[]
  {
    s.Update(MachineNumberKey, Null);
    FinishReceive(s, db, from, now, utc);
  }

  /** `set_machine_number`: the stripped text is the machine number, and the flow finishes. */
  method SetMachineNumber(s: Session, db: Store, from: Option<TgUser>, text: string, now: Time, utc: Time)
    requires s.step == Some(RecvMachineNumber)
    requires ReceiveShaped(s.data) && Valid(db.Snapshot())
    modifies s, db
    ensures db.Snapshot() == ReceiveCommit(old(db.Snapshot()), old(s.data)[MachineNumberKey := Str(Strip(text))], from, now, utc)
    ensures Valid(db.Snapshot())
    ensures s.step == None && s.data == map[]
  {
    s.Update(MachineNumberKey, Str(Strip(text)));
    FinishReceive(s, db, from, now, utc);
  }

  /**
    * `finish_receive`: resolves the receiver's surname, inserts the unit and commits, writes the
    * `received` event for the new id and commits, then clears the session.
    */
  method FinishReceive(s: Session, db: Store, from: Option<TgUser>, now: Time, utc: Time)
    requires ReceiveShaped(s.data) && Valid(db.Snapshot())
    modifies s, db
    ensures db.Snapshot() == ReceiveCommit(old(db.Snapshot()), old(s.data), from, now, utc)
    ensures Valid(db.Snapshot())
    ensures s.step == None && s.data == map[]
  {
    ReceiveCommitSpec(db.Snapshot(), s.data, from, now, utc);
    var surname := DisplayName(db.users, from);
    var byUserId := ActorId(db.users, from);
    var byUserName := ReceiveEventName(db.users, from, surname);
    var unitId := db.InsertUnit(ReceivedUnit(s.data, surname, now, utc));
    var eventId := db.InsertEvent(NewUnitEvent(0, unitId, EventReceived, utc, byUserId, byUserName));
    s.Clear();
  }
}
