/**
  * The repair flow (app/handlers/repair.py): pick a unit by number (or press the repair button
  * of a unit card), which writes a `repair_open` event; describe the fault and the work; the
  * last message writes the repair record, marks the unit `done`, writes a `repair_close` event
  * and attaches the QR label of the repair.
  */
module Repair {

  import opened Common
  import opened Text
  import opened Ints
  import opened Models
  import opened Db
  import opened Fsm
  import opened Identity
  import opened Markup
  import opened ReceiveKeyboards
  import BlocksKeyboards

  const UnitPrefix := "repair:unit"
  const PageSize := 5

  const NumberKey := "number"
  const UnitIdsKey := "unit_ids"
  const UnitLabelsKey := "unit_labels"
  const UnitIdKey := "unit_id"
  const FaultKey := "fault"

  // ---- the unit list shown for a number ----

  /** `f"{name or '-'} | {type_ or '-'}"`. */
  function RepairLabel(u: Unit): string {
    OrDash(u.name) + " | " + OrDash(u.kind)
  }

  function LabelsOf(us: seq<Unit>): (r: seq<string>)
    ensures |r| == |us| && forall k | 0 <= k < |us| :: r[k] == RepairLabel(us[k])
  {
    seq(|us|, k requires 0 <= k < |us| => RepairLabel(us[k]))
  }

  /** The item button showing the label of a listed unit hands back that unit's id. */
  lemma PickMatchesLabel(us: seq<Unit>, page: int, i: nat)
    requires i + 2 < |PagedKb(LabelsOf(us), UnitPrefix, page, PageSize)|
    ensures var b := PagedKb(LabelsOf(us), UnitPrefix, page, PageSize)[i][0];
            exists k | 0 <= k < |us| :: PickArg(UnitIds(us), b.data) == Some(us[k].id) && b.text == RepairLabel(us[k])
  {
    ItemButtonPicksBeside(UnitIds(us), LabelsOf(us), UnitPrefix, page, PageSize, i);
  }

  // ---- opening a repair ----

  /** The `repair_open` event written when a unit is picked; the unit row itself is not touched. */
  function OpenCommit(t: Tables, unitId: int, from: Option<TgUser>, utc: Time): Tables {
    AddEvent(t, NewUnitEvent(0, unitId, EventRepairOpen, utc, ActorId(t.users, from), DisplayName(t.users, from)))
  }

  /**
    * Opening a repair only adds history: one `repair_open` event naming the sender, with every
    * unit (and its status) left as it was.
    */
  lemma OpenCommitSpec(t: Tables, unitId: int, from: Option<TgUser>, utc: Time)
    requires Valid(t)
    ensures var r := OpenCommit(t, unitId, from, utc);
            && Valid(r)
            && r.units == t.units
            && |r.events| == |t.events| + 1 && r.events[..|t.events|] == t.events
            && r.events[|t.events|].unitId == unitId
            && r.events[|t.events|].eventType == EventRepairOpen
            && r.events[|t.events|].byUserId == ActorId(t.users, from)
            && r.events[|t.events|].byUserName == DisplayName(t.users, from)
            && r.users == t.users && r.repairs == t.repairs && r.attachments == t.attachments
            && r.printJobs == t.printJobs && r.printEvents == t.printEvents && r.printers == t.printers
  {
    AddEventKeepsValid(t, NewUnitEvent(0, unitId, EventRepairOpen, utc, ActorId(t.users, from), DisplayName(t.users, from)));
  }

  // ---- closing a repair ----

  /**
    * The repair's `summary` and the closing event's `comment`: the fault and the work when a
    * fault was given, else the work alone, and `None` when both are empty.
    */
  function RepairNote(fault: Option<string>, summary: string): (r: Option<string>)
    ensures r.None? <==> !Truthy(fault) && summary == []
    ensures r.Some? ==> EndsWith(r.value, summary)
    ensures Truthy(fault) ==> StartsWith(r.value, "Неисправность: " + fault.value)
    ensures !Truthy(fault) ==> r.Some? ==> r.value == summary
  {
    if Truthy(fault) then
      var head := "Неисправность: " + fault.value;
      var note := head + ". Работы: " + summary;
      assert note[..|head|] == head;
      assert note[|note| - |summary|..] == summary;
      Some(note)
    else if summary == [] then None
    else Some(summary)
  }

  /**
    * The first commit of `finish_repair`: a `done` repair opened and closed now, the unit set to
    * `done` when it exists, and a `repair_close` event with the same note.
    */
  function CloseCommit(t: Tables, unitId: int, fault: Option<string>, summary: string,
                       from: Option<TgUser>, now: Time, utc: Time): Tables
  {
    var note := RepairNote(fault, summary);
    var actor := ActorId(t.users, from);
    var t1 := AddRepair(t, NewRepair(0, unitId, now, RepairDone, Some(now), note, actor));
    var t2 := AddEvent(t1, NewUnitEvent(0, unitId, EventRepairClose, utc, actor, DisplayName(t.users, from),
                                        None, None, note));
    match FindUnit(t.units, unitId)
    case None => t2
    case Some(k) => SetUnitStatus(t2, k, UnitDone)
  }

  /**
    * Closing appends exactly one `done` repair and one `repair_close` event, whose comment is the
    * repair's summary; the unit with that id, if any, becomes `done` and no other unit changes;
    * the invariant holds afterwards.
    */
  lemma CloseCommitSpec(t: Tables, unitId: int, fault: Option<string>, summary: string,
                        from: Option<TgUser>, now: Time, utc: Time)
    requires Valid(t)
    ensures var r := CloseCommit(t, unitId, fault, summary, from, now, utc);
            && Valid(r)
            && |r.repairs| == |t.repairs| + 1 && r.repairs[..|t.repairs|] == t.repairs
            && var rep := r.repairs[|t.repairs|];
            && rep.id == |t.repairs| + 1 && rep.unitId == unitId && rep.status == RepairDone
            && rep.openedAt == now && rep.closedAt == Some(now)
            && rep.summary == RepairNote(fault, summary) && rep.byUserId == ActorId(t.users, from)
            && |r.events| == |t.events| + 1 && r.events[..|t.events|] == t.events
            && var e := r.events[|t.events|];
            && e.unitId == unitId && e.eventType == EventRepairClose && e.comment == rep.summary
            && e.byUserId == rep.byUserId && e.byUserName == DisplayName(t.users, from)
            && (FindUnit(t.units, unitId).None? ==> r.units == t.units)
            && (FindUnit(t.units, unitId).Some? ==>
                  var k := FindUnit(t.units, unitId).value;
                  r.units == t.units[k := t.units[k].(status := UnitDone)])
            && r.users == t.users && r.attachments == t.attachments
            && r.printJobs == t.printJobs && r.printEvents == t.printEvents && r.printers == t.printers
  {
    var note := RepairNote(fault, summary);
    var actor := ActorId(t.users, from);
    var t1 := AddRepair(t, NewRepair(0, unitId, now, RepairDone, Some(now), note, actor));
    var e := NewUnitEvent(0, unitId, EventRepairClose, utc, actor, DisplayName(t.users, from), None, None, note);
    var t2 := AddEvent(t1, e);
    AddRepairKeepsValid(t, NewRepair(0, unitId, now, RepairDone, Some(now), note, actor));
    AddEventKeepsValid(t1, e);
    HasEventLast(t1.events, e.(id := |t1.events| + 1));
    match FindUnit(t.units, unitId)
    case None =>
    case Some(k) =>
      SetUnitStatusKeepsValid(t2, k, UnitDone);
  }

  /** `f"{unit.number};{unit.name};{closed}"`, with the closing time already formatted. */
  function QrPayload(u: Unit, closedText: string): string {
    u.number + ";" + u.name + ";" + closedText
  }

  /** A reader splitting the label at `;` gets the number, the name and the time back. */
  lemma QrPayloadSplits(u: Unit, closedText: string)
    requires ';' !in u.number && ';' !in u.name && ';' !in closedText
    ensures SplitOn(QrPayload(u, closedText), ';') == [u.number, u.name, closedText]
  {
    assert QrPayload(u, closedText) == u.number + [';'] + (u.name + [';'] + closedText);
    SplitOnFirst(u.number, ';', u.name + [';'] + closedText);
    SplitOnFirst(u.name, ';', closedText);
    SplitOnNoSep(closedText, ';');
  }

  /** `f"repair_qr_{rep.id}.png"`. */
  function QrFileName(repairId: int): string {
    "repair_qr_" + IntToString(repairId) + ".png"
  }

  /** Different repairs never share a QR file name. */
  lemma QrFileNameInjective(a: int, b: int)
    requires QrFileName(a) == QrFileName(b)
    ensures a == b
  {
    var sa := QrFileName(a);
    assert IntToString(a) == sa[10..|sa| - 4];
    assert IntToString(b) == QrFileName(b)[10..|QrFileName(b)| - 4];
    ParseIntRoundTrip(a);
    ParseIntRoundTrip(b);
  }

  /** The second commit: the QR picture attached to the repair just written. */
  function AttachQr(t: Tables, repairId: int, fileId: Option<string>, utc: Time): Tables {
    AddAttachment(t, Attachment(0, EntityRepair, repairId, fileId, Some(QrFileName(repairId)), utc))
  }

  /** The QR attachment belongs to an existing repair, so the invariant holds; nothing else changes. */
  lemma AttachQrSpec(t: Tables, repairId: int, fileId: Option<string>, utc: Time)
    requires Valid(t) && 1 <= repairId <= |t.repairs|
    ensures var r := AttachQr(t, repairId, fileId, utc);
            && Valid(r)
            && |r.attachments| == |t.attachments| + 1 && r.attachments[..|t.attachments|] == t.attachments
            && r.attachments[|t.attachments|].entityType == EntityRepair
            && r.attachments[|t.attachments|].entityId == repairId
            && r.attachments[|t.attachments|].fileId == fileId
            && r.attachments[|t.attachments|].filename == Some(QrFileName(repairId))
            && r.users == t.users && r.units == t.units && r.events == t.events && r.repairs == t.repairs
            && r.printJobs == t.printJobs && r.printEvents == t.printEvents && r.printers == t.printers
  {
    AddAttachmentKeepsValid(t, Attachment(0, EntityRepair, repairId, fileId, Some(QrFileName(repairId)), utc));
  }

  // ---- the handlers ----

  /** `start_repair`. */
  method StartRepair(s: Session)
    modifies s
    ensures s.step == Some(RepairNumber) && s.data == map[]
  {
    s.Clear();
    s.SetStep(RepairNumber);
  }

  /**
    * `set_number`: a blank number, or one no unit carries, is asked again; otherwise the units
    * with that number (by name, then type) are stored as ids and labels and offered.
    */
  method SetNumber(s: Session, db: Store, text: string) returns (kb: Option<Keyboard>)
    requires s.step == Some(RepairNumber)
    modifies s
    ensures var us := UnitsWithNumber(db.units, Strip(text));
            && (Strip(text) == [] || us == [] ==> s.step == old(s.step) && s.data == old(s.data) && kb.None?)
            && (Strip(text) != [] && us != [] ==>
                  && s.step == Some(RepairUnitChoice)
                  && s.data == old(s.data)[UnitIdsKey := Ints(UnitIds(us))][UnitLabelsKey := Strs(LabelsOf(us))]
                                          [NumberKey := Str(Strip(text))]
                  && kb == Some(PagedKb(LabelsOf(us), UnitPrefix, 0, PageSize)))
  {
    var number := Strip(text);
    kb := None;
    if number == [] {
      return;
    }
    var us := UnitsWithNumber(db.units, number);
    if us == [] {
      return;
    }
    s.Update(UnitIdsKey, Ints(UnitIds(us)));
    s.Update(UnitLabelsKey, Strs(LabelsOf(us)));
    s.Update(NumberKey, Str(number));
    s.SetStep(RepairUnitChoice);
    var page := ChoicesPagedKb(LabelsOf(us), UnitPrefix, 0, PageSize);
    kb := Some(page);
  }

  /** `unit_page`. */
  method UnitPage(s: Session, callbackData: string) returns (kb: Keyboard)
    requires s.step == Some(RepairUnitChoice)
    ensures kb == PagedKb(GetStrs(s.data, UnitLabelsKey), UnitPrefix, PageArg(callbackData), PageSize)
  {
    kb := ChoicesPagedKb(GetStrs(s.data, UnitLabelsKey), UnitPrefix, PageArg(callbackData), PageSize);
  }

  /**
    * `unit_pick`: a bad index goes back to the number step; otherwise the picked id is stored,
    * the `repair_open` event written and the fault asked for.
    */
  method UnitPick(s: Session, db: Store, from: Option<TgUser>, utc: Time, callbackData: string)
    requires s.step == Some(RepairUnitChoice) && Valid(db.Snapshot())
    modifies s, db
    ensures Valid(db.Snapshot())
    ensures var pick := PickArg(GetInts(old(s.data), UnitIdsKey), callbackData);
            && (pick.None? ==>
                  s.step == Some(RepairNumber) && s.data == old(s.data) && db.Snapshot() == old(db.Snapshot()))
            && (pick.Some? ==>
                  && s.step == Some(RepairFault) && s.data == old(s.data)[UnitIdKey := Int(pick.value)]
                  && db.Snapshot() == OpenCommit(old(db.Snapshot()), pick.value, from, utc))
  {
    var pick := PickArg(GetInts(s.data, UnitIdsKey), callbackData);
    if pick.None? {
      s.SetStep(RepairNumber);
      return;
    }
    s.Update(UnitIdKey, Int(pick.value));
    OpenRepair(db, pick.value, from, utc);
    s.SetStep(RepairFault);
  }

  /** Writes the `repair_open` event (shared by both ways into the flow). */
  method OpenRepair(db: Store, unitId: int, from: Option<TgUser>, utc: Time)
    requires Valid(db.Snapshot())
    modifies db
    ensures db.Snapshot() == OpenCommit(old(db.Snapshot()), unitId, from, utc)
    ensures Valid(db.Snapshot())
  {
    OpenCommitSpec(db.Snapshot(), unitId, from, utc);
    var e := NewUnitEvent(0, unitId, EventRepairOpen, utc, ActorId(db.users, from), DisplayName(db.users, from));
    var eventId := db.InsertEvent(e);
  }

  /**
    * `start_repair_from_card`: callback data whose last part is not an integer changes nothing;
    * otherwise the session is restarted with that unit id (whether or not such a unit exists),
    * the `repair_open` event is written and the fault asked for.
    */
  method StartFromCard(s: Session, db: Store, from: Option<TgUser>, utc: Time, callbackData: string)
    requires Valid(db.Snapshot())
    modifies s, db
    ensures Valid(db.Snapshot())
    ensures var id := ParseInt(LastPart(callbackData, ':'));
            && (id.None? ==>
                  s.step == old(s.step) && s.data == old(s.data) && db.Snapshot() == old(db.Snapshot()))
            && (id.Some? ==>
                  && s.step == Some(RepairFault) && s.data == map[UnitIdKey := Int(id.value)]
                  && db.Snapshot() == OpenCommit(old(db.Snapshot()), id.value, from, utc))
  {
    var id := ParseInt(LastPart(callbackData, ':'));
    if id.None? {
      return;
    }
    s.Clear();
    s.Update(UnitIdKey, Int(id.value));
    OpenRepair(db, id.value, from, utc);
    s.SetStep(RepairFault);
  }

  /** The repair button of a unit card opens a repair of exactly that unit. */
  lemma CardButtonOpensUnit(unitId: int)
    ensures ParseInt(LastPart(BlocksKeyboards.UnitCardKb(unitId)[2][0].data, ':')) == Some(unitId)
  {
    BlocksKeyboards.RepairButtonDecodes(unitId);
  }

  /** `set_fault`: the stripped text, possibly empty. */
  method SetFault(s: Session, text: string)
    requires s.step == Some(RepairFault)
    modifies s
    ensures s.step == Some(RepairSummary) && s.data == old(s.data)[FaultKey := Str(Strip(text))]
  {
    s.Update(FaultKey, Str(Strip(text)));
    s.SetStep(RepairSummary);
  }

  /**
    * The database part of `finish_repair` for a known sender: the closing commit, then, when
    * the unit exists, its QR label (returned as the payload) attached to the new repair.
    * `closedText` is the closing time as formatted for the label, `photoFileId` the file id
    * Telegram gives the sent picture.
    */
  method CloseRepair(db: Store, unitId: int, fault: Option<string>, summary: string, from: Option<TgUser>,
                     now: Time, utc: Time, closedText: string, photoFileId: Option<string>) returns (qr: Option<string>)
    requires Valid(db.Snapshot())
    modifies db
    ensures Valid(db.Snapshot())
    ensures var closed := CloseCommit(old(db.Snapshot()), unitId, fault, summary, from, now, utc);
            var found := FindUnit(old(db.units), unitId);
            if found.None? then
              db.Snapshot() == closed && qr.None?
            else
              && db.Snapshot() == AttachQr(closed, |closed.repairs|, photoFileId, utc)
              && qr == Some(QrPayload(old(db.units)[found.value], closedText))
  {
    var t0 := db.Snapshot();
    CloseCommitSpec(t0, unitId, fault, summary, from, now, utc);
    var note := RepairNote(fault, summary);
    var actor := ActorId(db.users, from);
    var byName := DisplayName(db.users, from);
    var found := FindUnit(db.units, unitId);
    var shown := if found.Some? then QrPayload(db.units[found.value], closedText) else "";
    var repairId := db.InsertRepair(NewRepair(0, unitId, now, RepairDone, Some(now), note, actor));
    var eventId := db.InsertEvent(NewUnitEvent(0, unitId, EventRepairClose, utc, actor, byName, None, None, note));
    if found.None? {
      return None;
    }
    db.UpdateUnitStatus(found.value, UnitDone);
    assert db.Snapshot() == CloseCommit(t0, unitId, fault, summary, from, now, utc);
    AttachQrSpec(db.Snapshot(), repairId, photoFileId, utc);
    var a := Attachment(0, EntityRepair, repairId, photoFileId, Some(QrFileName(repairId)), utc);
    var attachmentId := db.InsertAttachment(a);
    qr := Some(shown);
  }

  /**
    * `finish_repair`: with no usable `unit_id` (missing, not an integer, or 0), or no sender,
    * nothing is written; otherwise the stripped text is the work done and the repair is closed.
    * The session is cleared either way.
    */
  method FinishRepair(s: Session, db: Store, from: Option<TgUser>, text: string, now: Time, utc: Time,
                      closedText: string, photoFileId: Option<string>) returns (qr: Option<string>)
    requires s.step == Some(RepairSummary) && Valid(db.Snapshot())
    modifies s, db
    ensures Valid(db.Snapshot())
    ensures s.step == None && s.data == map[]
    ensures var unitId := GetInt(old(s.data), UnitIdKey);
            if unitId.None? || unitId.value == 0 || from.None? then
              db.Snapshot() == old(db.Snapshot()) && qr.None?
            else
              var closed := CloseCommit(old(db.Snapshot()), unitId.value, GetStr(old(s.data), FaultKey), Strip(text),
                                        from, now, utc);
              var found := FindUnit(old(db.units), unitId.value);
              if found.None? then
                db.Snapshot() == closed && qr.None?
              else
                && db.Snapshot() == AttachQr(closed, |closed.repairs|, photoFileId, utc)
                && qr == Some(QrPayload(old(db.units)[found.value], closedText))
  {
    var unitId := GetInt(s.data, UnitIdKey);
    qr := None;
    if unitId.Some? && unitId.value != 0 && from.Some? {
      qr := CloseRepair(db, unitId.value, GetStr(s.data, FaultKey), Strip(text), from, now, utc, closedText, photoFileId);
    }
    s.Clear();
  }
}
