/**
  * The issue flow (app/handlers/issue.py): number, pick one of the units with that number
  * (only a `done` unit may leave), destination machine and number, then confirmation, which
  * marks the unit `issued` and writes an `issued` event.
  */
module Issue {

  import opened Common
  import opened Text
  import opened Ints
  import opened Models
  import opened Db
  import opened Fsm
  import opened Identity
  import opened Markup
  import opened ReceiveKeyboards
  import Receive

  const UnitPrefix := "issue:unit"
  const PageSize := 5

  const NumberKey := "number"
  const UnitIdsKey := "unit_ids"
  const UnitLabelsKey := "unit_labels"
  const UnitNamesKey := "unit_names"
  const UnitIdKey := "unit_id"
  const DestMachineKey := "dest_machine"
  const DestNumberKey := "dest_machine_number"

  // ---- the unit list shown for a number ----

  /** `f"{name or '-'} | {type_ or '-'} | {status}"`. */
  function IssueLabel(u: Unit): string {
    OrDash(u.name) + " | " + OrDash(u.kind) + " | " + u.status
  }

  function LabelsOf(us: seq<Unit>): (r: seq<string>)
    ensures |r| == |us| && forall k | 0 <= k < |us| :: r[k] == IssueLabel(us[k])
  {
    seq(|us|, k requires 0 <= k < |us| => IssueLabel(us[k]))
  }

  function NamesOf(us: seq<Unit>): (r: seq<string>)
    ensures |r| == |us| && forall k | 0 <= k < |us| :: r[k] == OrDash(us[k].name)
  {
    seq(|us|, k requires 0 <= k < |us| => OrDash(us[k].name))
  }

  /**
    * The three stored lists run in parallel: the item button showing the label of the `k`-th
    * listed unit hands back that unit's id.
    */
  lemma PickMatchesLabel(us: seq<Unit>, page: int, i: nat)
    requires i + 2 < |PagedKb(LabelsOf(us), UnitPrefix, page, PageSize)|
    ensures var b := PagedKb(LabelsOf(us), UnitPrefix, page, PageSize)[i][0];
            exists k | 0 <= k < |us| :: PickArg(UnitIds(us), b.data) == Some(us[k].id) && b.text == IssueLabel(us[k])
  {
    ItemButtonPicksBeside(UnitIds(us), LabelsOf(us), UnitPrefix, page, PageSize, i);
  }

  /** The status named in the refusal: `label.split('|')[-1].strip()`. */
  function RefusedStatus(shown: string): string {
    Strip(LastPart(shown, '|'))
  }

  /** `"Этот блок нельзя выдать: статус '{status}'. Завершите ремонт."` */
  function Refusal(shown: string): string {
    "Этот блок нельзя выдать: статус '" + RefusedStatus(shown) + "'. Завершите ремонт."
  }

  /** The refusal for a listed unit names that unit's status. */
  lemma RefusalNamesStatus(u: Unit)
    requires '|' !in u.status && Trimmed(u.status)
    ensures RefusedStatus(IssueLabel(u)) == u.status
  {
    var head := OrDash(u.name) + " | " + OrDash(u.kind) + " ";
    assert IssueLabel(u) == head + ['|'] + (" " + u.status);
    assert '|' !in " " + u.status;
    LastPartAfterSep(head, '|', " " + u.status);
    StripLeadingSpace(u.status);
  }

  /** Under the invariant every status is one of three plain words, so the refusal names it. */
  lemma RefusalNamesStoredStatus(t: Tables, k: nat)
    requires Valid(t) && k < |t.units|
    ensures RefusedStatus(IssueLabel(t.units[k])) == t.units[k].status
  {
    assert Accounted(t.units[k], t.events);
    RefusalNamesStatus(t.units[k]);
  }

  // ---- the confirmation's write ----

  /** One commit: the unit becomes `issued` and one `issued` event records who sent it where. */
  function IssueCommit(t: Tables, k: nat, byName: Option<string>, d: Data, from: Option<TgUser>, utc: Time): Tables
    requires k < |t.units|
  {
    AddEvent(SetUnitStatus(t, k, UnitIssued),
             NewUnitEvent(0, t.units[k].id, EventIssued, utc, ActorId(t.users, from), byName,
                          GetStr(d, DestMachineKey), GetStr(d, DestNumberKey)))
  }

  /**
    * Confirming rewrites only the chosen unit's status, to `issued` whatever it was, and appends
    * exactly one `issued` event for that unit carrying the stored destination; nothing else
    * changes and the invariant holds.
    */
  lemma IssueCommitSpec(t: Tables, k: nat, byName: Option<string>, d: Data, from: Option<TgUser>, utc: Time)
    requires Valid(t) && k < |t.units|
    ensures var r := IssueCommit(t, k, byName, d, from, utc);
            && Valid(r)
            && r.units == t.units[k := t.units[k].(status := UnitIssued)]
            && |r.events| == |t.events| + 1 && r.events[..|t.events|] == t.events
            && r.events[|t.events|].unitId == t.units[k].id
            && r.events[|t.events|].eventType == EventIssued
            && r.events[|t.events|].byUserName == byName
            && r.events[|t.events|].destinationMachine == GetStr(d, DestMachineKey)
            && r.events[|t.events|].destinationMachineNumber == GetStr(d, DestNumberKey)
            && r.users == t.users && r.repairs == t.repairs && r.attachments == t.attachments
            && r.printJobs == t.printJobs && r.printEvents == t.printEvents && r.printers == t.printers
  {
    var e := NewUnitEvent(0, t.units[k].id, EventIssued, utc, ActorId(t.users, from), byName,
                          GetStr(d, DestMachineKey), GetStr(d, DestNumberKey));
    var t1 := AddEvent(t, e);
    AddEventKeepsValid(t, e);
    HasEventLast(t.events, e.(id := |t.events| + 1));
    SetUnitStatusKeepsValid(t1, k, UnitIssued);
    assert SetUnitStatus(t1, k, UnitIssued) == IssueCommit(t, k, byName, d, from, utc);
  }

  // ---- the handlers ----

  /** `start_issue`. */
  method StartIssue(s: Session)
    modifies s
    ensures s.step == Some(IssueNumber) && s.data == map[]
  {
    s.Clear();
    s.SetStep(IssueNumber);
  }

  /**
    * `set_number`: a blank number, or one no unit carries, is asked again; otherwise the units
    * with that number (by name, then type) are stored as three parallel lists and offered.
    */
  method SetNumber(s: Session, db: Store, text: string) returns (kb: Option<Keyboard>)
    requires s.step == Some(IssueNumber)
    modifies s
    ensures var us := UnitsWithNumber(db.units, Strip(text));
            && (Strip(text) == [] || us == [] ==> s.step == old(s.step) && s.data == old(s.data) && kb.None?)
            && (Strip(text) != [] && us != [] ==>
                  && s.step == Some(IssueUnitChoice)
                  && s.data == old(s.data)[UnitIdsKey := Ints(UnitIds(us))][UnitLabelsKey := Strs(LabelsOf(us))]
                                          [UnitNamesKey := Strs(NamesOf(us))][NumberKey := Str(Strip(text))]
                  && kb == Some(PagedKb(LabelsOf(us), UnitPrefix, 0, PageSize)))
  {
    var number := Strip(text);
    kb := None;
    if number == [] {
      return;
    }
    var us := UnitsWithNumber(db.units, number);
    if us == [] {
      return;
    }
    s.Update(UnitIdsKey, Ints(UnitIds(us)));
    s.Update(UnitLabelsKey, Strs(LabelsOf(us)));
    s.Update(UnitNamesKey, Strs(NamesOf(us)));
    s.Update(NumberKey, Str(number));
    s.SetStep(IssueUnitChoice);
    var page := ChoicesPagedKb(LabelsOf(us), UnitPrefix, 0, PageSize);
    kb := Some(page);
  }

  /** `unit_page`. */
  method UnitPage(s: Session, callbackData: string) returns (kb: Keyboard)
    requires s.step == Some(IssueUnitChoice)
    ensures kb == PagedKb(GetStrs(s.data, UnitLabelsKey), UnitPrefix, PageArg(callbackData), PageSize)
  {
    kb := ChoicesPagedKb(GetStrs(s.data, UnitLabelsKey), UnitPrefix, PageArg(callbackData), PageSize);
  }

  /** The label `unit_pick` falls back on: `unit_names[idx]` for a non-negative index in range, else "-". */
  function FallbackLabel(names: seq<string>, idx: int): string {
    if 0 <= idx < |names| then names[idx] else "-"
  }

  /**
    * `unit_pick`: a bad index goes back to the number step. A unit that exists and is `done`
    * moves on to the destination; any other pick is refused with a message naming the status,
    * and the session is cleared. Nothing is written to the database.
    */
  method UnitPick(s: Session, db: Store, callbackData: string) returns (refusal: Option<string>)
    requires s.step == Some(IssueUnitChoice)
    modifies s
    ensures var idx := ParseInt(LastPart(callbackData, ':'));
            var pick := PickArg(GetInts(old(s.data), UnitIdsKey), callbackData);
            && (pick.None? ==> s.step == Some(IssueNumber) && s.data == old(s.data) && refusal.None?)
            && (pick.Some? ==>
                  var found := FindUnit(db.units, pick.value);
                  if found.Some? && db.units[found.value].status == UnitDone then
                    s.step == Some(IssueDestMachine) && s.data == old(s.data)[UnitIdKey := Int(pick.value)]
                    && refusal.None?
                  else
                    && s.step == None && s.data == map[]
                    && refusal == Some(Refusal(if found.Some? then IssueLabel(db.units[found.value])
                                               else FallbackLabel(GetStrs(old(s.data), UnitNamesKey), idx.value))))
  {
    var pick := PickArg(GetInts(s.data, UnitIdsKey), callbackData);
    if pick.None? {
      s.SetStep(IssueNumber);
      refusal := None;
      return;
    }
    var idx := ParseInt(LastPart(callbackData, ':'));
    var unitLabel := FallbackLabel(GetStrs(s.data, UnitNamesKey), idx.value);
    var found := FindUnit(db.units, pick.value);
    if found.Some? && db.units[found.value].status == UnitDone {
      s.Update(UnitIdKey, Int(pick.value));
      s.SetStep(IssueDestMachine);
      refusal := None;
      return;
    }
    if found.Some? {
      unitLabel := IssueLabel(db.units[found.value]);
    }
    refusal := Some(Refusal(unitLabel));
    s.Clear();
  }

  /** `issue_set_machine`: `skip` stores `None`, any other token itself. */
  method IssueSetMachine(s: Session, callbackData: string) returns (kb: Keyboard)
    requires s.step == Some(IssueDestMachine)
    modifies s
    ensures s.step == Some(IssueDestNumber)
    ensures s.data == old(s.data)[DestMachineKey := Receive.MachineValue(LastPart(callbackData, ':'))]
    ensures kb == SkipKb()
  {
    s.Update(DestMachineKey, Receive.MachineValue(LastPart(callbackData, ':')));
    s.SetStep(IssueDestNumber);
    kb := SkipKb();
  }

  /** `issue_skip_machine_number`, then `ask_issue_confirm`. */
  method IssueSkipMachineNumber(s: Session)
    requires s.step == Some(IssueDestNumber)
    modifies s
    ensures s.step == Some(IssueConfirm) && s.data == old(s.data)[DestNumberKey := Null]
  {
    s.Update(DestNumberKey, Null);
    s.SetStep(IssueConfirm);
  }

  /** `issue_set_machine_number`: the stripped text, then `ask_issue_confirm`. */
  method IssueSetMachineNumber(s: Session, text: string)
    requires s.step == Some(IssueDestNumber)
    modifies s
    ensures s.step == Some(IssueConfirm) && s.data == old(s.data)[DestNumberKey := Str(Strip(text))]
  {
    s.Update(DestNumberKey, Str(Strip(text)));
    s.SetStep(IssueConfirm);
  }

  /** `issue_cancel`: the session is cleared and nothing is written. */
  method IssueCancel(s: Session, db: Store)
    requires s.step == Some(IssueConfirm)
    modifies s
    ensures s.step == None && s.data == map[]
    ensures db.Snapshot() == old(db.Snapshot())
  {
    s.Clear();
  }

  /**
    * `issue_confirm`: without an integer `unit_id`, or for a unit that is gone, the session is
    * cleared and nothing written. Otherwise the status becomes `issued` (it is not checked again)
    * and the `issued` event is written in the same commit, unless resolving the issuer's name
    * raises, in which case nothing is committed and the session stays as it was. That failing
    * branch is `Identity.IssuerName`'s, which a well-formed user table never takes
    * (`Identity.IssuerNameAgrees`, `Identity.IssuerNameTotal`).
    */
  method IssueConfirmYes(s: Session, db: Store, from: Option<TgUser>, utc: Time) returns (outcome: Result<(), string>)
    requires s.step == Some(IssueConfirm) && Valid(db.Snapshot())
    modifies s, db
    ensures Valid(db.Snapshot())
    ensures var unitId := GetInt(old(s.data), UnitIdKey);
            var found := if unitId.Some? then FindUnit(old(db.units), unitId.value) else None;
            var name := IssuerName(old(db.users), from);
            if found.None? then
              outcome.Success? && db.Snapshot() == old(db.Snapshot()) && s.step == None && s.data == map[]
            else if name.Failure? then
              outcome.Failure? && db.Snapshot() == old(db.Snapshot())
              && s.step == old(s.step) && s.data == old(s.data)
            else
              && outcome.Success? && s.step == None && s.data == map[]
              && db.Snapshot() == IssueCommit(old(db.Snapshot()), found.value, name.value, old(s.data), from, utc)
  {
    var unitId := GetInt(s.data, UnitIdKey);
    if unitId.None? {
      s.Clear();
      return Success(());
    }
    var found := FindUnit(db.units, unitId.value);
    if found.None? {
      s.Clear();
      return Success(());
    }
    var k := found.value;
    var name := IssuerName(db.users, from);
    if name.Failure? {
      return Failure(name.error);
    }
    IssueCommitSpec(db.Snapshot(), k, name.value, s.data, from, utc);
    var byUserId := ActorId(db.users, from);
    var e := NewUnitEvent(0, db.units[k].id, EventIssued, utc, byUserId, name.value,
                          GetStr(s.data, DestMachineKey), GetStr(s.data, DestNumberKey));
    db.UpdateUnitStatus(k, UnitIssued);
    var eventId := db.InsertEvent(e);
    s.Clear();
    outcome := Success(());
  }
}
