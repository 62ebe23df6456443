/**
  * The print-job flow and the printer commands (app/handlers/printing.py): a model file, an
  * optional photo, a printer name (with a warning when that printer is under maintenance), the
  * expected minutes and a confirmation that writes the job and its first event; `/add_printer`
  * and `/maint` keep the printers table.
  */
module Printing {

  import opened Common
  import opened Text
  import opened Ints
  import opened Models
  import opened Db
  import opened Fsm
  import opened Identity

  const ModelFileKey := "model_file_id"
  const ModelNameKey := "model_filename"
  const PhotoKey := "photo_file_id"
  const PrinterNameKey := "printer_name"
  const MinutesKey := "expected_time_min"

  /** The word that skips the photo (compared after case folding). */
  const SkipWord := "пропустить"

  const TimePrompt := "Укажите ожидаемое время печати в минутах (например, 120)."

  /** A document as it arrives: Telegram's file id and the file name, when the client sent one. */
  datatype Document = Document(fileId: string, fileName: Option<string>)

  // ---- the model file ----

  /** `_is_allowed_model`: a non-empty name ending in `.stl` or `.3mf`, in any letter case. */
  predicate IsAllowedModel(fileName: Option<string>) {
    Truthy(fileName) && (EndsWith(Lower(fileName.value), ".stl") || EndsWith(Lower(fileName.value), ".3mf"))
  }

  lemma LowerCharIdempotent(c: char)
    ensures LowerChar(LowerChar(c)) == LowerChar(c)
  {
  }

  /** Lower-casing twice is lower-casing once. */
  lemma LowerIdempotent(s: string)
    ensures Lower(Lower(s)) == Lower(s)
  {
    forall i | 0 <= i < |s| ensures Lower(Lower(s))[i] == Lower(s)[i] {
      LowerCharIdempotent(s[i]);
    }
  }

  /** The check looks at the letters only, never their case. */
  lemma AllowedIgnoresCase(f: string)
    ensures IsAllowedModel(Some(f)) <==> IsAllowedModel(Some(Lower(f)))
  {
    LowerIdempotent(f);
  }

  /** Any stem with the two extensions, in upper or lower case, is accepted. */
  lemma AllowedExtensions(stem: string)
    ensures IsAllowedModel(Some(stem + ".stl")) && IsAllowedModel(Some(stem + ".STL"))
    ensures IsAllowedModel(Some(stem + ".3mf")) && IsAllowedModel(Some(stem + ".3MF"))
  {
    var names := [stem + ".stl", stem + ".STL", stem + ".3mf", stem + ".3MF"];
    forall k | 0 <= k < 4 ensures |Lower(names[k])| >= 4 {
    }
    assert Lower(stem + ".stl")[|stem| + 4 - 4..] == ".stl";
    assert Lower(stem + ".STL")[|stem| + 4 - 4..] == ".stl";
    assert Lower(stem + ".3mf")[|stem| + 4 - 4..] == ".3mf";
    assert Lower(stem + ".3MF")[|stem| + 4 - 4..] == ".3mf";
  }

  /** Other extensions, and a missing or empty name, are refused. */
  lemma RefusedModels(stem: string)
    ensures !IsAllowedModel(None) && !IsAllowedModel(Some(""))
    ensures !IsAllowedModel(Some(stem + ".obj"))
  {
    var f := stem + ".obj";
    assert Lower(f)[|f| - 1] == 'j';
  }

  // ---- the warning at the printer step ----

  /** The end of the maintenance of the named printer, when it is under maintenance right now. */
  function MaintenanceUntil(printers: seq<Printer>, name: string, utc: Time): (r: Option<Time>)
    ensures r.Some? ==> r.value > utc
    ensures r.Some? ==> FindPrinter(printers, name).Some?
                        && printers[FindPrinter(printers, name).value].status == Some(PrinterMaintenance)
  {
    match FindPrinter(printers, name)
    case None => None
    case Some(i) =>
      var p := printers[i];
      if p.status == Some(PrinterMaintenance) && p.maintenanceUntil.Some? && p.maintenanceUntil.value > utc
      then p.maintenanceUntil else None
  }

  /** The warning text, with the end time formatted by `format`. */
  function Warning(until: Option<Time>, format: Time -> string): Option<string> {
    match until
    case None => None
    case Some(u) => Some("Внимание: принтер на обслуживании до " + format(u) + ".")
  }

  /**
    * The reply of `set_printer` as written: the conditional expression binds looser than `+`,
    * so it reads `(warn + "\n") if warn else ("" + prompt)`.
    */
  function PrinterReplyAsWritten(warn: Option<string>): string {
    if Truthy(warn) then warn.value + "\n" else "" + TimePrompt
  }

  /** With a warning, the reply as written loses the request for the minutes. */
  lemma PromptLostAsWritten(w: string)
    requires w != []
    ensures !EndsWith(PrinterReplyAsWritten(Some(w)), TimePrompt)
  {
    var r := PrinterReplyAsWritten(Some(w));
    assert r[|r| - 1] == '\n';
    assert TimePrompt[|TimePrompt| - 1] == '.';
  }

  /** The evidently intended reply: the warning line, if any, then the prompt. */
  function PrinterReply(warn: Option<string>): string {
    (if Truthy(warn) then warn.value + "\n" else "") + TimePrompt
  }

  /** The intended reply always asks for the minutes and starts with the warning when there is one. */
  lemma PrinterReplyPrompts(warn: Option<string>)
    ensures EndsWith(PrinterReply(warn), TimePrompt)
    ensures Truthy(warn) ==> StartsWith(PrinterReply(warn), warn.value)
    ensures !Truthy(warn) ==> PrinterReply(warn) == PrinterReplyAsWritten(warn)
  {
    var r := PrinterReply(warn);
    assert r[|r| - |TimePrompt|..] == TimePrompt;
    if Truthy(warn) {
      assert r[..|warn.value|] == warn.value;
    }
  }

  // ---- the minutes ----

  /** `int(txt)` accepted only when positive. */
  function PositiveMinutes(text: string): (r: Option<int>)
    ensures r.Some? ==> r.value > 0
    ensures r.Some? <==> ParseInt(text).Some? && ParseInt(text).value > 0
  {
    match ParseInt(text)
    case None => None
    case Some(m) => if m > 0 then Some(m) else None
  }

  /** Every positive number written in decimal is accepted as itself; zero and negatives are not. */
  lemma PositiveMinutesDecimal(m: int)
    ensures PositiveMinutes(IntToString(m)) == if m > 0 then Some(m) else None
  {
    ParseIntRoundTrip(m);
  }

  // ---- the confirmation's writes ----

  /** `str(x)` of an optional number or text: `None` prints as "None". */
  function ShowInt(v: Option<int>): string {
    match v
    case None => "None"
    case Some(n) => IntToString(n)
  }

  function ShowStr(v: Option<string>): string {
    match v
    case None => "None"
    case Some(t) => t
  }

  /** The comment of the `requested` print event. */
  function JobComment(minutes: Option<int>, printer: Option<string>): string {
    "Заявка создана. Время: " + ShowInt(minutes) + " мин. Принтер: " + ShowStr(printer)
  }

  /** The job and its `requested` event, written as two commits one after the other. */
  function PrintCommit(t: Tables, d: Data, fileId: string, from: Option<TgUser>): Tables {
    var actor := ActorId(t.users, from);
    var t1 := AddPrintJob(t, PrintJob(0, actor, GetStr(d, PrinterNameKey), fileId, GetStr(d, ModelNameKey),
                                      GetStr(d, PhotoKey), GetInt(d, MinutesKey), JobRequested));
    AddPrintEvent(t1, PrintEvent(0, |t.printJobs| + 1, JobRequested, actor,
                                 Some(JobComment(GetInt(d, MinutesKey), GetStr(d, PrinterNameKey)))))
  }

  /**
    * Confirming appends exactly one `requested` job carrying the collected answers and exactly
    * one `requested` event of that very job; nothing else changes and the invariant holds.
    */
  lemma PrintCommitSpec(t: Tables, d: Data, fileId: string, from: Option<TgUser>)
    requires Valid(t)
    ensures var r := PrintCommit(t, d, fileId, from);
            && Valid(r)
            && |r.printJobs| == |t.printJobs| + 1 && r.printJobs[..|t.printJobs|] == t.printJobs
            && var j := r.printJobs[|t.printJobs|];
            && j.id == |t.printJobs| + 1 && j.status == JobRequested && j.fileId == fileId
            && j.userId == ActorId(t.users, from) && j.printerName == GetStr(d, PrinterNameKey)
            && j.filename == GetStr(d, ModelNameKey) && j.photoFileId == GetStr(d, PhotoKey)
            && j.expectedTimeMin == GetInt(d, MinutesKey)
            && |r.printEvents| == |t.printEvents| + 1 && r.printEvents[..|t.printEvents|] == t.printEvents
            && var e := r.printEvents[|t.printEvents|];
            && e.jobId == j.id && e.eventType == JobRequested && e.byUserId == j.userId
            && e.comment == Some(JobComment(j.expectedTimeMin, j.printerName))
            && r.users == t.users && r.units == t.units && r.events == t.events && r.repairs == t.repairs
            && r.attachments == t.attachments && r.printers == t.printers
  {
    var actor := ActorId(t.users, from);
    var j := PrintJob(0, actor, GetStr(d, PrinterNameKey), fileId, GetStr(d, ModelNameKey),
                      GetStr(d, PhotoKey), GetInt(d, MinutesKey), JobRequested);
    AddPrintJobKeepsValid(t, j);
    AddPrintEventKeepsValid(AddPrintJob(t, j), PrintEvent(0, |t.printJobs| + 1, JobRequested, actor,
                            Some(JobComment(GetInt(d, MinutesKey), GetStr(d, PrinterNameKey)))));
  }

  // ---- the printer commands ----

  /** What a printer command did. */
  datatype CommandOutcome = Usage | BadMinutes | Duplicate | NotFound | Done

  /** `args[1].strip()` after `text.split(maxsplit=1)`; empty exactly when `args` has fewer than 2 parts. */
  function CommandRest(text: string): string {
    var t := TrimLeft(text);
    Strip(t[TokenLen(t)..])
  }

  /** `/add_printer <name>` hands over the name, whatever blanks surround it. */
  lemma CommandRestOfName(cmd: string, name: string)
    requires cmd != [] && NoSpace(cmd) && Trimmed(name)
    ensures CommandRest(cmd + " " + name) == name
  {
    var s := cmd + " " + name;
    assert SpaceRun(s) == 0;
    assert s[0..] == s;
    assert s == cmd + (" " + name);
    TokenLenAppend(cmd, " " + name);
    TokenLenWord(cmd);
    assert s[|cmd|..] == " " + name;
    StripLeadingSpace(name);
  }

  /** The new printer: a name and nothing else. */
  function NewPrinter(name: string): Printer {
    Printer(0, name, None, None)
  }

  /**
    * `/add_printer <name>` on the printers table: a missing name is a usage error, a name already
    * present changes nothing, any other name adds exactly one printer.
    */
  function AddPrinterResult(t: Tables, text: string): (Tables, CommandOutcome) {
    AddNamed(t, CommandRest(text))
  }

  /** `/add_printer` once the name is read: an empty or taken name is refused. */
  function AddNamed(t: Tables, name: string): (Tables, CommandOutcome) {
    if name == [] then (t, Usage)
    else if FindPrinter(t.printers, name).Some? then (t, Duplicate)
    else (AddPrinter(t, NewPrinter(name)), Done)
  }

  /** Adding keeps the names unique, and the same command a second time changes nothing. */
  lemma {:induction false} AddPrinterIdempotent(t: Tables, text: string)
    requires Valid(t)
    ensures var (t1, o1) := AddPrinterResult(t, text);
            && Valid(t1)
            && (o1 == Done ==> |t1.printers| == |t.printers| + 1 && t1.printers[..|t.printers|] == t.printers
                               && t1.printers[|t.printers|].name == CommandRest(text))
            && (o1 != Done ==> t1 == t)
            && var (t2, o2) := AddPrinterResult(t1, text);
            && t2 == t1 && o2 != Done
  {
    AddNamedIdempotent(t, CommandRest(text));
  }

  lemma {:induction false} AddNamedIdempotent(t: Tables, name: string)
    requires Valid(t)
    ensures var (t1, o1) := AddNamed(t, name);
            && Valid(t1)
            && (o1 == Done ==> |t1.printers| == |t.printers| + 1 && t1.printers[..|t.printers|] == t.printers
                               && t1.printers[|t.printers|].name == name)
            && (o1 != Done ==> t1 == t)
            && var (t2, o2) := AddNamed(t1, name);
            && t2 == t1 && o2 != Done
  {
    if name != [] && FindPrinter(t.printers, name).None? {
      AddPrinterKeepsValid(t, NewPrinter(name));
      var t1 := AddPrinter(t, NewPrinter(name));
      assert t1.printers[|t.printers|].name == name;
      assert FindPrinter(t1.printers, name).Some?;
    }
  }

  /** `/maint <name> <minutes>`: the name and the positive minutes, or why the command is refused. */
  function MaintArgs(text: string): (r: Result<(string, int), CommandOutcome>)
    ensures r.Success? ==> r.value.1 > 0
  {
    var args := SplitWs(text);
    if |args| < 3 then Failure(Usage)
    else match PositiveMinutes(args[2])
      case None => Failure(BadMinutes)
      case Some(m) => Success((args[1], m))
  }

  /** A well-formed command hands over the printer's name and the minutes it states. */
  lemma {:induction false} MaintArgsOfCommand(cmd: string, name: string, m: int)
    requires cmd != [] && NoSpace(cmd) && name != [] && NoSpace(name) && m > 0
    ensures MaintArgs(cmd + " " + name + " " + IntToString(m)) == Success((name, m))
  {
    var digits := IntToString(m);
    DecimalHasNoSpace(m);
    SplitThreeWords(cmd, name, digits);
    PositiveMinutesDecimal(m);
  }

  lemma {:induction false} DecimalHasNoSpace(m: int)
    ensures IntToString(m) != [] && NoSpace(IntToString(m))
  {
    var digits := IntToString(m);
    forall i | 0 <= i < |digits| ensures !IsSpace(digits[i]) {
      assert digits[i] == '-' || IsDigit(digits[i]);
    }
  }

  /** The printer under maintenance until `until`. */
  function MaintCommit(t: Tables, i: nat, until: Time): Tables
    requires i < |t.printers|
  {
    SetPrinter(t, i, t.printers[i].(status := Some(PrinterMaintenance), maintenanceUntil := Some(until)))
  }

  /**
    * After `/maint`, the printer step warns about that printer exactly while the maintenance lasts;
    * only that printer changed and the invariant holds.
    */
  lemma MaintThenWarns(t: Tables, i: nat, until: Time, later: Time)
    requires Valid(t) && i < |t.printers|
    ensures var r := MaintCommit(t, i, until);
            && Valid(r)
            && MaintenanceUntil(r.printers, t.printers[i].name, later) == (if later < until then Some(until) else None)
            && |r.printers| == |t.printers|
            && (forall k | 0 <= k < |t.printers| && k != i :: r.printers[k] == t.printers[k])
            && r.users == t.users && r.units == t.units && r.events == t.events && r.repairs == t.repairs
            && r.attachments == t.attachments && r.printJobs == t.printJobs && r.printEvents == t.printEvents
  {
    var p := t.printers[i].(status := Some(PrinterMaintenance), maintenanceUntil := Some(until));
    SetPrinterKeepsValid(t, i, p);
    var r := MaintCommit(t, i, until);
    FindPrinterUnique(r.printers, i);
  }

  // ---- the handlers ----

  /** `/print`. */
  method StartPrint(s: Session)
    modifies s
    ensures s.step == Some(PrintFile) && s.data == map[]
  {
    s.Clear();
    s.SetStep(PrintFile);
  }

  /** `got_model_file`: a refused file keeps the step; an accepted one is stored and the photo asked for. */
  method GotModelFile(s: Session, doc: Document)
    requires s.step == Some(PrintFile)
    modifies s
    ensures !IsAllowedModel(doc.fileName) ==> s.step == old(s.step) && s.data == old(s.data)
    ensures IsAllowedModel(doc.fileName) ==>
              && s.step == Some(PrintPhoto)
              && s.data == old(s.data)[ModelFileKey := Str(doc.fileId)][ModelNameKey := Str(doc.fileName.value)]
  {
    if !IsAllowedModel(doc.fileName) {
      return;
    }
    s.Update(ModelFileKey, Str(doc.fileId));
    s.Update(ModelNameKey, Str(doc.fileName.value));
    s.SetStep(PrintPhoto);
  }

  /** `got_photo`: the last (largest) size of the photo. */
  method GotPhoto(s: Session, sizes: seq<string>)
    requires s.step == Some(PrintPhoto) && |sizes| > 0
    modifies s
    ensures s.step == Some(PrintPrinter) && s.data == old(s.data)[PhotoKey := Str(sizes[|sizes| - 1])]
  {
    s.Update(PhotoKey, Str(sizes[|sizes| - 1]));
    s.SetStep(PrintPrinter);
  }

  /** `skip_photo`: only the skip word, in any case, is handled at the photo step; other text is ignored. */
  method SkipPhoto(s: Session, text: string) returns (handled: bool)
    requires s.step == Some(PrintPhoto)
    modifies s
    ensures handled <==> CaseFold(text) == SkipWord
    ensures handled ==> s.step == Some(PrintPrinter) && s.data == old(s.data)[PhotoKey := Null]
    ensures !handled ==> s.step == old(s.step) && s.data == old(s.data)
  {
    handled := CaseFold(text) == SkipWord;
    if handled {
      s.Update(PhotoKey, Null);
      s.SetStep(PrintPrinter);
    }
  }

  /** The skip word is recognised with a capital letter too. */
  lemma SkipCapitalised()
    ensures CaseFold("Пропустить") == SkipWord
  {
    assert Lower("Пропустить")[0] == LowerChar('П');
  }

  /**
    * `set_printer` as written: the stripped name is stored and the step moves to the minutes.
    * When that printer is under maintenance now the reply is the warning alone and the time
    * prompt is lost (see `PromptLostAsWritten`). `format` renders the end time.
    */
  method SetPrinterName(s: Session, db: Store, text: string, utc: Time, format: Time -> string) returns (reply: string)
    requires s.step == Some(PrintPrinter)
    modifies s
    ensures s.step == Some(PrintTime) && s.data == old(s.data)[PrinterNameKey := Str(Strip(text))]
    ensures reply == PrinterReplyAsWritten(Warning(MaintenanceUntil(db.printers, Strip(text), utc), format))
  {
    var name := Strip(text);
    s.Update(PrinterNameKey, Str(name));
    var warn := Warning(MaintenanceUntil(db.printers, name, utc), format);
    s.SetStep(PrintTime);
    reply := PrinterReplyAsWritten(warn);
  }

  /**
    * `set_printer` as evidently intended: the same state change, and the reply asks for the
    * minutes in every case, with the warning in front when there is one.
    */
  method SetPrinterNameCorrected(s: Session, db: Store, text: string, utc: Time, format: Time -> string) returns (reply: string)
    requires s.step == Some(PrintPrinter)
    modifies s
    ensures s.step == Some(PrintTime) && s.data == old(s.data)[PrinterNameKey := Str(Strip(text))]
    ensures reply == PrinterReply(Warning(MaintenanceUntil(db.printers, Strip(text), utc), format))
  {
    var name := Strip(text);
    s.Update(PrinterNameKey, Str(name));
    var warn := Warning(MaintenanceUntil(db.printers, name, utc), format);
    s.SetStep(PrintTime);
    reply := PrinterReply(warn);
  }

  /** `set_time`: a positive whole number is stored and the confirmation shown; anything else is asked again. */
  method SetTime(s: Session, text: string) returns (accepted: bool)
    requires s.step == Some(PrintTime)
    modifies s
    ensures accepted <==> PositiveMinutes(Strip(text)).Some?
    ensures accepted ==> s.step == Some(PrintConfirm)
                         && s.data == old(s.data)[MinutesKey := Int(PositiveMinutes(Strip(text)).value)]
    ensures !accepted ==> s.step == old(s.step) && s.data == old(s.data)
  {
    var minutes := PositiveMinutes(Strip(text));
    accepted := minutes.Some?;
    if accepted {
      s.Update(MinutesKey, Int(minutes.value));
      s.SetStep(PrintConfirm);
    }
  }

  /** `print_cancel`: the session is cleared and nothing is written. */
  method PrintCancel(s: Session, db: Store)
    requires s.step == Some(PrintConfirm)
    modifies s
    ensures s.step == None && s.data == map[]
    ensures db.Snapshot() == old(db.Snapshot())
  {
    s.Clear();
  }

  /**
    * `print_confirm`: without a model file nothing is written; otherwise the job and its event
    * are, and the new job's id is returned. The session is cleared either way.
    */
  method PrintConfirmYes(s: Session, db: Store, from: Option<TgUser>) returns (jobId: Option<int>)
    requires s.step == Some(PrintConfirm) && Valid(db.Snapshot())
    modifies s, db
    ensures Valid(db.Snapshot())
    ensures s.step == None && s.data == map[]
    ensures var f := GetStr(old(s.data), ModelFileKey);
            if !Truthy(f) then db.Snapshot() == old(db.Snapshot()) && jobId.None?
            else && db.Snapshot() == PrintCommit(old(db.Snapshot()), old(s.data), f.value, from)
                 && jobId == Some(|old(db.printJobs)| + 1)
  {
    var f := GetStr(s.data, ModelFileKey);
    if !Truthy(f) {
      s.Clear();
      return None;
    }
    var id := CommitPrint(db, s.data, f.value, from);
    jobId := Some(id);
    s.Clear();
  }

  /** The confirmation's two inserts: the job, then its `requested` event. */
  method CommitPrint(db: Store, d: Data, fileId: string, from: Option<TgUser>) returns (id: int)
    requires Valid(db.Snapshot())
    modifies db
    ensures Valid(db.Snapshot())
    ensures db.Snapshot() == PrintCommit(old(db.Snapshot()), d, fileId, from)
    ensures id == |old(db.printJobs)| + 1
  {
    PrintCommitSpec(db.Snapshot(), d, fileId, from);
    var actor := ActorId(db.users, from);
    id := db.InsertPrintJob(PrintJob(0, actor, GetStr(d, PrinterNameKey), fileId, GetStr(d, ModelNameKey),
                                     GetStr(d, PhotoKey), GetInt(d, MinutesKey), JobRequested));
    var eventId := db.InsertPrintEvent(PrintEvent(0, id, JobRequested, actor,
                                                  Some(JobComment(GetInt(d, MinutesKey), GetStr(d, PrinterNameKey)))));
  }

  /** `/add_printer`. */
  method AddPrinterCommand(db: Store, text: string) returns (outcome: CommandOutcome)
    requires Valid(db.Snapshot())
    modifies db
    ensures Valid(db.Snapshot())
    ensures (db.Snapshot(), outcome) == AddPrinterResult(old(db.Snapshot()), text)
  {
    AddPrinterIdempotent(db.Snapshot(), text);
    var name := CommandRest(text);
    if name == [] {
      return Usage;
    }
    if FindPrinter(db.printers, name).Some? {
      return Duplicate;
    }
    var id := db.InsertPrinter(NewPrinter(name));
    outcome := Done;
  }

  /**
    * `/maint <name> <minutes>` on the tables: refused arguments or an unknown printer change
    * nothing; otherwise that printer is under maintenance until `utc` plus the minutes.
    */
  function MaintResult(t: Tables, text: string, utc: Time): (Tables, CommandOutcome) {
    MaintApply(t, MaintArgs(text), utc)
  }

  /** What `/maint` does once its arguments are read (or refused). */
  function MaintApply(t: Tables, args: Result<(string, int), CommandOutcome>, utc: Time): (Tables, CommandOutcome) {
    match args
    case Failure(why) => (t, why)
    case Success(a) =>
      match FindPrinter(t.printers, a.0)
      case None => (t, NotFound)
      case Some(i) => (MaintCommit(t, i, utc + Minutes(a.1)), Done)
  }

  /**
    * `/maint` refused or aimed at an unknown printer changes nothing; a successful one leaves the
    * named printer warning right away, since the minutes are positive; the invariant holds.
    */
  lemma MaintResultSpec(t: Tables, text: string, utc: Time)
    requires Valid(t)
    ensures var (r, o) := MaintResult(t, text, utc);
            && Valid(r)
            && (o != Done ==> r == t)
            && (o == NotFound <==> MaintArgs(text).Success? && FindPrinter(t.printers, MaintArgs(text).value.0).None?)
            && (o == Done ==> MaintArgs(text).Success?
                              && MaintenanceUntil(r.printers, MaintArgs(text).value.0, utc)
                                 == Some(utc + Minutes(MaintArgs(text).value.1)))
  {
    var args := MaintArgs(text);
    if args.Success? {
      var (name, mins) := args.value;
      var found := FindPrinter(t.printers, name);
      if found.Some? {
        MaintThenWarns(t, found.value, utc + Minutes(mins), utc);
      }
    }
  }

  /** `/maint`. */
  method MaintCommand(db: Store, text: string, utc: Time) returns (outcome: CommandOutcome)
    requires Valid(db.Snapshot())
    modifies db
    ensures Valid(db.Snapshot())
    ensures (db.Snapshot(), outcome) == MaintResult(old(db.Snapshot()), text, utc)
  {
    var args := MaintArgs(text);
    outcome := ApplyMaint(db, args, utc);
  }

  /** `/maint` after its arguments are read: the printer lookup and the write. */
  method ApplyMaint(db: Store, args: Result<(string, int), CommandOutcome>, utc: Time) returns (outcome: CommandOutcome)
    requires Valid(db.Snapshot())
    modifies db
    ensures Valid(db.Snapshot())
    ensures (db.Snapshot(), outcome) == MaintApply(old(db.Snapshot()), args, utc)
  {
    if args.Failure? {
      return args.error;
    }
    var found := FindPrinter(db.printers, args.value.0);
    if found.None? {
      return NotFound;
    }
    StartMaintenance(db, found.value, utc + Minutes(args.value.1));
    outcome := Done;
  }

  /** Writes the maintenance state of one printer. */
  method StartMaintenance(db: Store, i: nat, until: Time)
    requires Valid(db.Snapshot()) && i < |db.printers|
    modifies db
    ensures Valid(db.Snapshot())
    ensures db.Snapshot() == MaintCommit(old(db.Snapshot()), i, until)
  {
    var p := db.printers[i].(status := Some(PrinterMaintenance), maintenanceUntil := Some(until));
    SetPrinterKeepsValid(db.Snapshot(), i, p);
    db.UpdatePrinter(i, p);
  }
}
