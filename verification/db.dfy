/**
  * The database as the handlers see it: one sequence of rows per table, ids handed out by
  * autoincrement (the `n`-th row inserted gets id `n`; rows are never deleted), the lookups
  * the handlers run and the invariant every commit keeps.
  */
module Db {

  import opened Common
  import opened Models
  import opened Order
  import opened Text

  /** The contents of all tables at one instant. */
  datatype Tables = Tables(
    users: seq<User>,
    units: seq<Unit>,
    events: seq<UnitEvent>,
    repairs: seq<Repair>,
    attachments: seq<Attachment>,
    printJobs: seq<PrintJob>,
    printEvents: seq<PrintEvent>,
    printers: seq<Printer>)

  const EmptyTables := Tables([], [], [], [], [], [], [], [])

  // ---- autoincrement ids ----

  predicate UsersNumbered(xs: seq<User>) { forall i | 0 <= i < |xs| :: xs[i].id == i + 1 }
  predicate UnitsNumbered(xs: seq<Unit>) { forall i | 0 <= i < |xs| :: xs[i].id == i + 1 }
  predicate EventsNumbered(xs: seq<UnitEvent>) { forall i | 0 <= i < |xs| :: xs[i].id == i + 1 }
  predicate RepairsNumbered(xs: seq<Repair>) { forall i | 0 <= i < |xs| :: xs[i].id == i + 1 }
  predicate AttachmentsNumbered(xs: seq<Attachment>) { forall i | 0 <= i < |xs| :: xs[i].id == i + 1 }
  predicate JobsNumbered(xs: seq<PrintJob>) { forall i | 0 <= i < |xs| :: xs[i].id == i + 1 }
  predicate PrintEventsNumbered(xs: seq<PrintEvent>) { forall i | 0 <= i < |xs| :: xs[i].id == i + 1 }
  predicate PrintersNumbered(xs: seq<Printer>) { forall i | 0 <= i < |xs| :: xs[i].id == i + 1 }

  predicate Numbered(t: Tables) {
    && UsersNumbered(t.users) && UnitsNumbered(t.units) && EventsNumbered(t.events)
    && RepairsNumbered(t.repairs) && AttachmentsNumbered(t.attachments)
    && JobsNumbered(t.printJobs) && PrintEventsNumbered(t.printEvents) && PrintersNumbered(t.printers)
  }

  // ---- the invariant ----

  /** `tg_id` is a unique column. */
  predicate UniqueTgIds(users: seq<User>) {
    forall i, j | 0 <= i < j < |users| :: users[i].tgId != users[j].tgId
  }

  /** Roles and statuses the handlers assign, an admin always active, and a registered full
    * name of at least two words (registration refuses anything shorter). */
  predicate WellFormedUser(u: User) {
    && (u.role == RoleMaster || u.role == RoleAdmin)
    && (u.status == StatusPending || u.status == StatusActive)
    && (u.role == RoleAdmin ==> u.status == StatusActive)
    && (u.fullName.Some? ==> |SplitWs(u.fullName.value)| >= 2)
  }

  predicate UsersWellFormed(users: seq<User>) {
    forall i | 0 <= i < |users| :: WellFormedUser(users[i])
  }

  /** Some event of type `eventType` was written for unit `unitId`. */
  ghost predicate HasEvent(events: seq<UnitEvent>, unitId: int, eventType: string) {
    exists k | 0 <= k < |events| :: events[k].unitId == unitId && events[k].eventType == eventType
  }

  /** A unit's status is explained by its history: it was received, and a `done` unit had a
    * repair closed and an `issued` unit an issue written. */
  ghost predicate Accounted(u: Unit, events: seq<UnitEvent>) {
    && (u.status == UnitReceived || u.status == UnitDone || u.status == UnitIssued)
    && HasEvent(events, u.id, EventReceived)
    && (u.status == UnitDone ==> HasEvent(events, u.id, EventRepairClose))
    && (u.status == UnitIssued ==> HasEvent(events, u.id, EventIssued))
  }

  ghost predicate UnitsAccounted(units: seq<Unit>, events: seq<UnitEvent>) {
    forall i | 0 <= i < |units| :: Accounted(units[i], events)
  }

  /** Attachments of repairs point at an existing repair. */
  predicate AttachmentsOfRepairs(attachments: seq<Attachment>, repairs: seq<Repair>) {
    forall i | 0 <= i < |attachments| ::
      attachments[i].entityType == EntityRepair ==> 1 <= attachments[i].entityId <= |repairs|
  }

  /** Print events point at an existing print job. */
  predicate PrintEventsOfJobs(printEvents: seq<PrintEvent>, printJobs: seq<PrintJob>) {
    forall i | 0 <= i < |printEvents| :: 1 <= printEvents[i].jobId <= |printJobs|
  }

  /** No two printers share a name (the add command refuses duplicates). */
  predicate UniquePrinterNames(printers: seq<Printer>) {
    forall i, j | 0 <= i < j < |printers| :: printers[i].name != printers[j].name
  }

  ghost predicate Valid(t: Tables) {
    && Numbered(t)
    && UniqueTgIds(t.users)
    && UsersWellFormed(t.users)
    && UnitsAccounted(t.units, t.events)
    && AttachmentsOfRepairs(t.attachments, t.repairs)
    && PrintEventsOfJobs(t.printEvents, t.printJobs)
    && UniquePrinterNames(t.printers)
  }

  lemma EmptyValid()
    ensures Valid(EmptyTables)
  {
  }

  // ---- inserts and in-place updates, as pure functions on the tables ----

  function AddUser(t: Tables, u: User): Tables {
    t.(users := t.users + [u.(id := |t.users| + 1)])
  }

  function AddUnit(t: Tables, u: Unit): Tables {
    t.(units := t.units + [u.(id := |t.units| + 1)])
  }

  function AddEvent(t: Tables, e: UnitEvent): Tables {
    t.(events := t.events + [e.(id := |t.events| + 1)])
  }

  function AddRepair(t: Tables, r: Repair): Tables {
    t.(repairs := t.repairs + [r.(id := |t.repairs| + 1)])
  }

  function AddAttachment(t: Tables, a: Attachment): Tables {
    t.(attachments := t.attachments + [a.(id := |t.attachments| + 1)])
  }

  function AddPrintJob(t: Tables, j: PrintJob): Tables {
    t.(printJobs := t.printJobs + [j.(id := |t.printJobs| + 1)])
  }

  function AddPrintEvent(t: Tables, e: PrintEvent): Tables {
    t.(printEvents := t.printEvents + [e.(id := |t.printEvents| + 1)])
  }

  function AddPrinter(t: Tables, p: Printer): Tables {
    t.(printers := t.printers + [p.(id := |t.printers| + 1)])
  }

  function SetUnitStatus(t: Tables, i: nat, status: string): Tables
    requires i < |t.units|
  {
    t.(units := t.units[i := t.units[i].(status := status)])
  }

  function SetUser(t: Tables, i: nat, u: User): Tables
    requires i < |t.users|
  {
    t.(users := t.users[i := u])
  }

  function SetPrinter(t: Tables, i: nat, p: Printer): Tables
    requires i < |t.printers|
  {
    t.(printers := t.printers[i := p])
  }

  /** Autoincrement: the id an insert hands out is used by no row already in the table. */
  lemma FreshIds(t: Tables)
    requires Numbered(t)
    ensures forall i | 0 <= i < |t.users| :: t.users[i].id != |t.users| + 1
    ensures forall i | 0 <= i < |t.units| :: t.units[i].id != |t.units| + 1
    ensures forall i | 0 <= i < |t.events| :: t.events[i].id != |t.events| + 1
    ensures forall i | 0 <= i < |t.repairs| :: t.repairs[i].id != |t.repairs| + 1
    ensures forall i | 0 <= i < |t.attachments| :: t.attachments[i].id != |t.attachments| + 1
    ensures forall i | 0 <= i < |t.printJobs| :: t.printJobs[i].id != |t.printJobs| + 1
    ensures forall i | 0 <= i < |t.printEvents| :: t.printEvents[i].id != |t.printEvents| + 1
    ensures forall i | 0 <= i < |t.printers| :: t.printers[i].id != |t.printers| + 1
  {
  }

  // ---- lookups ----

  /** `select(User).where(User.tg_id == tgId)`: the index of the first matching row. */
  function FindUser(users: seq<User>, tgId: int): (r: Option<nat>)
    ensures r.Some? ==> r.value < |users| && users[r.value].tgId == tgId
    ensures r.None? <==> forall i | 0 <= i < |users| :: users[i].tgId != tgId
  {
    if users == [] then None
    else if users[0].tgId == tgId then Some(0)
    else match FindUser(users[1..], tgId)
      case None => None
      case Some(i) => Some(i + 1)
  }

  /** With `tg_id` unique, the row found is the one row carrying that id. */
  lemma FindUserUnique(users: seq<User>, i: nat)
    requires UniqueTgIds(users) && i < |users|
    ensures FindUser(users, users[i].tgId) == Some(i)
  {
  }

  /** `select(Unit).where(Unit.id == id)`: the index of the row with that id. */
  function FindUnit(units: seq<Unit>, id: int): (r: Option<nat>)
    ensures r.Some? ==> r.value < |units| && units[r.value].id == id
    ensures r.None? <==> forall i | 0 <= i < |units| :: units[i].id != id
  {
    if units == [] then None
    else if units[0].id == id then Some(0)
    else match FindUnit(units[1..], id)
      case None => None
      case Some(i) => Some(i + 1)
  }

  /** With autoincrement ids, the unit with id `id` exists iff `1 <= id <= |units|`, at index `id - 1`. */
  lemma FindUnitById(units: seq<Unit>, id: int)
    requires UnitsNumbered(units)
    ensures FindUnit(units, id) == if 1 <= id <= |units| then Some(id - 1) else None
  {
    if 1 <= id <= |units| {
      assert units[id - 1].id == id;
    }
  }

  /** `select(Printer).where(Printer.name == name)`. */
  function FindPrinter(printers: seq<Printer>, name: string): (r: Option<nat>)
    ensures r.Some? ==> r.value < |printers| && printers[r.value].name == name
    ensures r.None? <==> forall i | 0 <= i < |printers| :: printers[i].name != name
  {
    if printers == [] then None
    else if printers[0].name == name then Some(0)
    else match FindPrinter(printers[1..], name)
      case None => None
      case Some(i) => Some(i + 1)
  }

  /** With names unique, the printer found by a name is the one row carrying it. */
  lemma FindPrinterUnique(printers: seq<Printer>, i: nat)
    requires UniquePrinterNames(printers) && i < |printers|
    ensures FindPrinter(printers, printers[i].name) == Some(i)
  {
  }

  // ---- units by number, ordered by (name, type) ----

  /** `where(Unit.number == n)`, in table order. */
  function WithNumber(units: seq<Unit>, n: string): (r: seq<Unit>)
    ensures forall i | 0 <= i < |r| :: r[i].number == n
    ensures forall u | u in units && u.number == n :: u in r
    ensures forall u | u in r :: u in units
  {
    if units == [] then []
    else (if units[0].number == n then [units[0]] else []) + WithNumber(units[1..], n)
  }

  predicate UnitLessEq(a: Unit, b: Unit) {
    PairLessEq(a.name, a.kind, b.name, b.kind)
  }

  predicate SortedByNameKind(xs: seq<Unit>) {
    forall i, j | 0 <= i < j < |xs| :: UnitLessEq(xs[i], xs[j])
  }

  /** Places `u` after every row that does not sort strictly above it. */
  function InsertByNameKind(u: Unit, xs: seq<Unit>): (r: seq<Unit>)
    ensures multiset(r) == multiset(xs) + multiset{u}
  {
    if xs == [] then [u]
    else if PairLess(u.name, u.kind, xs[0].name, xs[0].kind) then [u] + xs
    else
      assert xs == [xs[0]] + xs[1..];
      [xs[0]] + InsertByNameKind(u, xs[1..])
  }

  /** A row placed before a sorted list it does not exceed keeps the list sorted. */
  lemma {:induction false} ConsSortedUnits(x: Unit, rest: seq<Unit>)
    requires SortedByNameKind(rest)
    requires forall k | 0 <= k < |rest| :: UnitLessEq(x, rest[k])
    ensures SortedByNameKind([x] + rest)
  {
    var r := [x] + rest;
    forall i, j | 0 <= i < j < |r| ensures UnitLessEq(r[i], r[j]) {
      if i == 0 {
        assert r[j] == rest[j - 1];
      } else {
        assert r[i] == rest[i - 1] && r[j] == rest[j - 1];
      }
    }
  }

  /** Every row of an insertion into `xs` is a row of `xs` or the inserted one. */
  lemma {:induction false} InsertedRows(u: Unit, xs: seq<Unit>, k: nat)
    requires k < |InsertByNameKind(u, xs)|
    ensures InsertByNameKind(u, xs)[k] == u || InsertByNameKind(u, xs)[k] in xs
  {
    var r := InsertByNameKind(u, xs);
    assert r[k] in multiset(r);
  }

  /** A lower bound of the sorted rows and of the inserted row bounds the insertion. */
  lemma {:induction false} InsertKeepsBound(x: Unit, u: Unit, xs: seq<Unit>)
    requires UnitLessEq(x, u) && forall k | 0 <= k < |xs| :: UnitLessEq(x, xs[k])
    ensures forall k | 0 <= k < |InsertByNameKind(u, xs)| :: UnitLessEq(x, InsertByNameKind(u, xs)[k])
  {
    var rest := InsertByNameKind(u, xs);
    forall k | 0 <= k < |rest| ensures UnitLessEq(x, rest[k]) {
      InsertedRows(u, xs, k);
      if rest[k] != u {
        var j :| 0 <= j < |xs| && xs[j] == rest[k];
      }
    }
  }

  lemma {:induction false} InsertSorted(u: Unit, xs: seq<Unit>)
    requires SortedByNameKind(xs)
    ensures SortedByNameKind(InsertByNameKind(u, xs))
  {
    if xs == [] {
    } else if PairLess(u.name, u.kind, xs[0].name, xs[0].kind) {
      forall k | 0 <= k < |xs| ensures UnitLessEq(u, xs[k]) {
        if k > 0 {
          assert UnitLessEq(xs[0], xs[k]);
          PairLessEqTransitive(u.name, u.kind, xs[0].name, xs[0].kind, xs[k].name, xs[k].kind);
        }
      }
      ConsSortedUnits(u, xs);
    } else {
      InsertSorted(u, xs[1..]);
      PairTotal(u.name, u.kind, xs[0].name, xs[0].kind);
      assert forall k | 0 <= k < |xs[1..]| :: UnitLessEq(xs[0], xs[1..][k]) by {
        forall k | 0 <= k < |xs[1..]| ensures UnitLessEq(xs[0], xs[1..][k]) {
          assert xs[1..][k] == xs[k + 1];
        }
      }
      InsertKeepsBound(xs[0], u, xs[1..]);
      ConsSortedUnits(xs[0], InsertByNameKind(u, xs[1..]));
    }
  }

  /** Insertion sort by (name, type); rows that compare equal keep their table order. */
  function SortByNameKind(xs: seq<Unit>): (r: seq<Unit>)
    ensures multiset(r) == multiset(xs)
  {
    if xs == [] then []
    else
      assert xs == xs[..|xs| - 1] + [xs[|xs| - 1]];
      InsertByNameKind(xs[|xs| - 1], SortByNameKind(xs[..|xs| - 1]))
  }

  lemma {:induction false} SortSorted(xs: seq<Unit>)
    ensures SortedByNameKind(SortByNameKind(xs))
  {
    if xs != [] {
      SortSorted(xs[..|xs| - 1]);
      InsertSorted(xs[|xs| - 1], SortByNameKind(xs[..|xs| - 1]));
    }
  }

  /** The rows the number search lists: `where number == n order by name, type`. */
  function UnitsWithNumber(units: seq<Unit>, n: string): seq<Unit> {
    SortByNameKind(WithNumber(units, n))
  }

  /** The search lists exactly the units with that number, sorted by (name, type). */
  lemma UnitsWithNumberSpec(units: seq<Unit>, n: string)
    ensures SortedByNameKind(UnitsWithNumber(units, n))
    ensures multiset(UnitsWithNumber(units, n)) == multiset(WithNumber(units, n))
    ensures forall u :: u in UnitsWithNumber(units, n) <==> u in units && u.number == n
    ensures UnitsWithNumber(units, n) == [] <==> forall i | 0 <= i < |units| :: units[i].number != n
  {
    var r := UnitsWithNumber(units, n);
    var w := WithNumber(units, n);
    SortSorted(w);
    forall u ensures u in r <==> u in w {
      assert u in r <==> u in multiset(r);
      assert u in w <==> u in multiset(w);
    }
    if r == [] {
      assert |w| == |multiset(w)| == 0;
      forall i | 0 <= i < |units| ensures units[i].number != n {
        assert units[i] in units;
      }
    } else {
      assert r[0] in w;
    }
  }

  // ---- distinct names and types, ascending ----

  function UnitIds(units: seq<Unit>): (r: seq<int>)
    ensures |r| == |units| && forall i | 0 <= i < |units| :: r[i] == units[i].id
  {
    seq(|units|, i requires 0 <= i < |units| => units[i].id)
  }

  function Names(units: seq<Unit>): (r: seq<string>)
    ensures |r| == |units| && forall i | 0 <= i < |units| :: r[i] == units[i].name
  {
    seq(|units|, i requires 0 <= i < |units| => units[i].name)
  }

  function Kinds(units: seq<Unit>): (r: seq<string>)
    ensures |r| == |units| && forall i | 0 <= i < |units| :: r[i] == units[i].kind
  {
    seq(|units|, i requires 0 <= i < |units| => units[i].kind)
  }

  /** `select distinct name ... order by name`, then the empty names filtered out. */
  function DistinctNames(units: seq<Unit>): seq<string> {
    DistinctSorted(Names(units))
  }

  function DistinctKinds(units: seq<Unit>): seq<string> {
    DistinctSorted(Kinds(units))
  }

  /** The name list is ascending without repeats, and holds exactly the non-empty names in use. */
  lemma DistinctNamesSpec(units: seq<Unit>)
    ensures StrictlySorted(DistinctNames(units))
    ensures forall v :: v in DistinctNames(units) <==> v != [] && exists i | 0 <= i < |units| :: units[i].name == v
  {
    var ns := Names(units);
    assert Elems(DistinctNames(units)) == Elems(ns) - {[]};
    forall v ensures v in DistinctNames(units) <==> v != [] && exists i | 0 <= i < |units| :: units[i].name == v {
      assert v in DistinctNames(units) <==> v in Elems(DistinctNames(units));
      if v in ns {
        var i :| 0 <= i < |ns| && ns[i] == v;
        assert units[i].name == v;
      }
      if exists i | 0 <= i < |units| :: units[i].name == v {
        var i :| 0 <= i < |units| && units[i].name == v;
        assert ns[i] == v;
      }
    }
  }

  /** The same for the types. */
  lemma DistinctKindsSpec(units: seq<Unit>)
    ensures StrictlySorted(DistinctKinds(units))
    ensures forall v :: v in DistinctKinds(units) <==> v != [] && exists i | 0 <= i < |units| :: units[i].kind == v
  {
    var ks := Kinds(units);
    assert Elems(DistinctKinds(units)) == Elems(ks) - {[]};
    forall v ensures v in DistinctKinds(units) <==> v != [] && exists i | 0 <= i < |units| :: units[i].kind == v {
      assert v in DistinctKinds(units) <==> v in Elems(DistinctKinds(units));
      if v in ks {
        var i :| 0 <= i < |ks| && ks[i] == v;
        assert units[i].kind == v;
      }
      if exists i | 0 <= i < |units| :: units[i].kind == v {
        var i :| 0 <= i < |units| && units[i].kind == v;
        assert ks[i] == v;
      }
    }
  }

  // ---- what each kind of write does to the invariant ----

  lemma HasEventAppend(events: seq<UnitEvent>, e: UnitEvent, unitId: int, eventType: string)
    requires HasEvent(events, unitId, eventType)
    ensures HasEvent(events + [e], unitId, eventType)
  {
    var k :| 0 <= k < |events| && events[k].unitId == unitId && events[k].eventType == eventType;
    assert (events + [e])[k] == events[k];
  }

  lemma HasEventLast(events: seq<UnitEvent>, e: UnitEvent)
    ensures HasEvent(events + [e], e.unitId, e.eventType)
  {
    assert (events + [e])[|events|] == e;
  }

  lemma AccountedAppend(units: seq<Unit>, events: seq<UnitEvent>, e: UnitEvent)
    requires UnitsAccounted(units, events)
    ensures UnitsAccounted(units, events + [e])
  {
    forall i | 0 <= i < |units| ensures Accounted(units[i], events + [e]) {
      var u := units[i];
      HasEventAppend(events, e, u.id, EventReceived);
      if u.status == UnitDone {
        HasEventAppend(events, e, u.id, EventRepairClose);
      }
      if u.status == UnitIssued {
        HasEventAppend(events, e, u.id, EventIssued);
      }
    }
  }

  /** Writing any unit event keeps the invariant (events only add history). */
  lemma AddEventKeepsValid(t: Tables, e: UnitEvent)
    requires Valid(t)
    ensures Valid(AddEvent(t, e))
  {
    AccountedAppend(t.units, t.events, e.(id := |t.events| + 1));
  }

  /** A unit inserted as `received` together with its `received` event keeps the invariant. */
  lemma ReceiveKeepsValid(t: Tables, u: Unit, e: UnitEvent)
    requires Valid(t)
    requires u.status == UnitReceived
    requires e.unitId == |t.units| + 1 && e.eventType == EventReceived
    ensures Valid(AddEvent(AddUnit(t, u), e))
  {
    var t1 := AddUnit(t, u);
    var e1 := e.(id := |t.events| + 1);
    var t2 := AddEvent(t1, e);
    AccountedAppend(t.units, t.events, e1);
    HasEventLast(t.events, e1);
    assert t2.units == t.units + [u.(id := |t.units| + 1)];
    forall i | 0 <= i < |t2.units| ensures Accounted(t2.units[i], t2.events) {
      if i < |t.units| {
        assert t2.units[i] == t.units[i];
      }
    }
  }

  /** A status change keeps the invariant when the history already explains the new status. */
  lemma SetUnitStatusKeepsValid(t: Tables, i: nat, status: string)
    requires Valid(t) && i < |t.units|
    requires status == UnitReceived || status == UnitDone || status == UnitIssued
    requires status == UnitDone ==> HasEvent(t.events, t.units[i].id, EventRepairClose)
    requires status == UnitIssued ==> HasEvent(t.events, t.units[i].id, EventIssued)
    ensures Valid(SetUnitStatus(t, i, status))
  {
    var t1 := SetUnitStatus(t, i, status);
    forall k | 0 <= k < |t1.units| ensures Accounted(t1.units[k], t1.events) {
      if k != i {
        assert t1.units[k] == t.units[k];
      }
    }
  }

  lemma AddRepairKeepsValid(t: Tables, r: Repair)
    requires Valid(t)
    ensures Valid(AddRepair(t, r))
  {
  }

  /** An attachment keeps the invariant when it belongs to an existing repair (or to no repair). */
  lemma AddAttachmentKeepsValid(t: Tables, a: Attachment)
    requires Valid(t)
    requires a.entityType == EntityRepair ==> 1 <= a.entityId <= |t.repairs|
    ensures Valid(AddAttachment(t, a))
  {
  }

  lemma AddPrintJobKeepsValid(t: Tables, j: PrintJob)
    requires Valid(t)
    ensures Valid(AddPrintJob(t, j))
  {
  }

  /** A print event keeps the invariant when its job exists. */
  lemma AddPrintEventKeepsValid(t: Tables, e: PrintEvent)
    requires Valid(t)
    requires 1 <= e.jobId <= |t.printJobs|
    ensures Valid(AddPrintEvent(t, e))
  {
  }

  /** A printer keeps the invariant when its name is new. */
  lemma AddPrinterKeepsValid(t: Tables, p: Printer)
    requires Valid(t)
    requires FindPrinter(t.printers, p.name).None?
    ensures Valid(AddPrinter(t, p))
  {
  }

  /** Rewriting a printer's other columns keeps the invariant. */
  lemma SetPrinterKeepsValid(t: Tables, i: nat, p: Printer)
    requires Valid(t) && i < |t.printers|
    requires p.id == t.printers[i].id && p.name == t.printers[i].name
    ensures Valid(SetPrinter(t, i, p))
  {
    var ps := t.printers[i := p];
    forall a, b | 0 <= a < b < |ps| ensures ps[a].name != ps[b].name {
      assert ps[a].name == t.printers[a].name && ps[b].name == t.printers[b].name;
    }
  }

  /** A user keeps the invariant when the Telegram id is new and role and status fit together. */
  lemma AddUserKeepsValid(t: Tables, u: User)
    requires Valid(t)
    requires FindUser(t.users, u.tgId).None? && WellFormedUser(u)
    ensures Valid(AddUser(t, u))
  {
  }

  /** Rewriting a user in place keeps the invariant when its ids stay and role and status fit. */
  lemma SetUserKeepsValid(t: Tables, i: nat, u: User)
    requires Valid(t) && i < |t.users|
    requires u.id == t.users[i].id && u.tgId == t.users[i].tgId && WellFormedUser(u)
    ensures Valid(SetUser(t, i, u))
  {
    var us := t.users[i := u];
    forall a, b | 0 <= a < b < |us| ensures us[a].tgId != us[b].tgId {
      assert us[a].tgId == t.users[a].tgId && us[b].tgId == t.users[b].tgId;
    }
  }

  // ---- the store the handlers write through ----

  /** The database: each table is a sequence the session appends to or rewrites in place. */
  class Store {
    var users: seq<User>
    var units: seq<Unit>
    var events: seq<UnitEvent>
    var repairs: seq<Repair>
    var attachments: seq<Attachment>
    var printJobs: seq<PrintJob>
    var printEvents: seq<PrintEvent>
    var printers: seq<Printer>

    function Snapshot(): Tables
      reads this
    {
      Tables(users, units, events, repairs, attachments, printJobs, printEvents, printers)
    }

    constructor()
      ensures Snapshot() == EmptyTables
    {
      users, units, events, repairs := [], [], [], [];
      attachments, printJobs, printEvents, printers := [], [], [], [];
    }

    /** `session.add(unit)` and a flush: the row gets the next id. */
    method InsertUnit(u: Unit) returns (id: int)
      modifies this
      ensures id == |old(units)| + 1
      ensures Snapshot() == AddUnit(old(Snapshot()), u)
    {
      id := |units| + 1;
      units := units + [u.(id := id)];
    }

    method InsertEvent(e: UnitEvent) returns (id: int)
      modifies this
      ensures id == |old(events)| + 1
      ensures Snapshot() == AddEvent(old(Snapshot()), e)
    {
      id := |events| + 1;
      events := events + [e.(id := id)];
    }

    method InsertRepair(r: Repair) returns (id: int)
      modifies this
      ensures id == |old(repairs)| + 1
      ensures Snapshot() == AddRepair(old(Snapshot()), r)
    {
      id := |repairs| + 1;
      repairs := repairs + [r.(id := id)];
    }

    method InsertAttachment(a: Attachment) returns (id: int)
      modifies this
      ensures id == |old(attachments)| + 1
      ensures Snapshot() == AddAttachment(old(Snapshot()), a)
    {
      id := |attachments| + 1;
      attachments := attachments + [a.(id := id)];
    }

    method InsertPrintJob(j: PrintJob) returns (id: int)
      modifies this
      ensures id == |old(printJobs)| + 1
      ensures Snapshot() == AddPrintJob(old(Snapshot()), j)
    {
      id := |printJobs| + 1;
      printJobs := printJobs + [j.(id := id)];
    }

    method InsertPrintEvent(e: PrintEvent) returns (id: int)
      modifies this
      ensures id == |old(printEvents)| + 1
      ensures Snapshot() == AddPrintEvent(old(Snapshot()), e)
    {
      id := |printEvents| + 1;
      printEvents := printEvents + [e.(id := id)];
    }

    method InsertPrinter(p: Printer) returns (id: int)
      modifies this
      ensures id == |old(printers)| + 1
      ensures Snapshot() == AddPrinter(old(Snapshot()), p)
    {
      id := |printers| + 1;
      printers := printers + [p.(id := id)];
    }

    method InsertUser(u: User) returns (id: int)
      modifies this
      ensures id == |old(users)| + 1
      ensures Snapshot() == AddUser(old(Snapshot()), u)
    {
      id := |users| + 1;
      users := users + [u.(id := id)];
    }

    /** `unit.status = status` on a loaded row. */
    method UpdateUnitStatus(i: nat, status: string)
      requires i < |units|
      modifies this
      ensures Snapshot() == SetUnitStatus(old(Snapshot()), i, status)
    {
      units := units[i := units[i].(status := status)];
    }

    method UpdateUser(i: nat, u: User)
      requires i < |users|
      modifies this
      ensures Snapshot() == SetUser(old(Snapshot()), i, u)
    {
      users := users[i := u];
    }

    method UpdatePrinter(i: nat, p: Printer)
      requires i < |printers|
      modifies this
      ensures Snapshot() == SetPrinter(old(Snapshot()), i, p)
    {
      printers := printers[i := p];
    }
  }
}
