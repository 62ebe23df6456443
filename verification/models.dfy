/**
  * The database rows (app/db/models.py), plus the three print-shop rows the printing handlers
  * construct. Nullable columns are `Option`s; timestamps are opaque instants (`Time`).
  * Every constructor function fills the column defaults the table declares.
  */
module Models {

  import opened Common

  /** An instant, as seconds on one clock; its calendar rendering is not modelled. */
  type Time = int

  /** Seconds in the `timedelta(minutes=m)` the maintenance command adds. */
  function Minutes(m: int): int {
    60 * m
  }

  // ---- column vocabularies ----

  const RoleMaster := "master"
  const RoleAdmin := "admin"
  const StatusPending := "pending"
  const StatusActive := "active"

  const UnitReceived := "received"
  const UnitDone := "done"
  const UnitIssued := "issued"

  const EventReceived := "received"
  const EventIssued := "issued"
  const EventRepairOpen := "repair_open"
  const EventRepairClose := "repair_close"

  const RepairDone := "done"
  const EntityRepair := "repair"
  const JobRequested := "requested"
  const PrinterMaintenance := "maintenance"

  // ---- app/db/models.py ----

  datatype User = User(
    id: int,
    tgId: int,
    fullName: Option<string>,
    username: Option<string>,
    role: string,
    status: string,
    createdAt: Time)

  datatype Attachment = Attachment(
    id: int,
    entityType: string,
    entityId: int,
    fileId: Option<string>,
    filename: Option<string>,
    createdAt: Time)

  datatype Repair = Repair(
    id: int,
    unitId: int,
    openedAt: Time,
    closedAt: Option<Time>,
    status: string,
    summary: Option<string>,
    byUserId: Option<int>)

  datatype UnitEvent = UnitEvent(
    id: int,
    unitId: int,
    eventType: string,
    byUserId: Option<int>,
    byUserName: Option<string>,
    destinationMachine: Option<string>,
    destinationMachineNumber: Option<string>,
    timestamp: Time,
    comment: Option<string>)

  /** A unit (block) kept in the depot; `number` is not unique. */
  datatype Unit = Unit(
    id: int,
    number: string,
    name: string,
    kind: string,
    status: string,
    condition: Option<string>,
    machine: Option<string>,
    machineNumber: Option<string>,
    acceptedAt: Option<Time>,
    masterSurname: Option<string>,
    createdAt: Time)

  // ---- rows the printing handlers construct ----

  datatype PrintJob = PrintJob(
    id: int,
    userId: Option<int>,
    printerName: Option<string>,
    fileId: string,
    filename: Option<string>,
    photoFileId: Option<string>,
    expectedTimeMin: Option<int>,
    status: string)

  datatype PrintEvent = PrintEvent(
    id: int,
    jobId: int,
    eventType: string,
    byUserId: Option<int>,
    comment: Option<string>)

  /** A printer; `status` is `None` until the maintenance command sets it (its default is not known). */
  datatype Printer = Printer(
    id: int,
    name: string,
    status: Option<string>,
    maintenanceUntil: Option<Time>)

  // ---- constructors with the declared column defaults ----

  function NewUser(id: int, tgId: int, fullName: Option<string>, username: Option<string>, createdAt: Time,
                   role: string := RoleMaster, status: string := StatusPending): User
  {
    User(id, tgId, fullName, username, role, status, createdAt)
  }

  function NewUnit(id: int, number: string, name: string, kind: string, createdAt: Time,
                   status: string := UnitReceived,
                   condition: Option<string> := None, machine: Option<string> := None,
                   machineNumber: Option<string> := None, acceptedAt: Option<Time> := None,
                   masterSurname: Option<string> := None): Unit
  {
    Unit(id, number, name, kind, status, condition, machine, machineNumber, acceptedAt, masterSurname, createdAt)
  }

  function NewUnitEvent(id: int, unitId: int, eventType: string, timestamp: Time,
                        byUserId: Option<int> := None, byUserName: Option<string> := None,
                        destinationMachine: Option<string> := None,
                        destinationMachineNumber: Option<string> := None,
                        comment: Option<string> := None): UnitEvent
  {
    UnitEvent(id, unitId, eventType, byUserId, byUserName, destinationMachine, destinationMachineNumber,
              timestamp, comment)
  }

  function NewRepair(id: int, unitId: int, openedAt: Time, status: string := RepairDone,
                     closedAt: Option<Time> := None, summary: Option<string> := None,
                     byUserId: Option<int> := None): Repair
  {
    Repair(id, unitId, openedAt, closedAt, status, summary, byUserId)
  }

  /** The defaults the tables declare: a unit starts `received` with its optional columns empty. */
  lemma UnitDefaults(id: int, number: string, name: string, kind: string, createdAt: Time)
    ensures var u := NewUnit(id, number, name, kind, createdAt);
            && u.status == "received"
            && u.condition.None? && u.machine.None? && u.machineNumber.None?
            && u.acceptedAt.None? && u.masterSurname.None?
  {
  }

  /** A user starts as a pending master. */
  lemma UserDefaults(id: int, tgId: int, createdAt: Time)
    ensures var u := NewUser(id, tgId, None, None, createdAt);
            u.role == "master" && u.status == "pending"
  {
  }

  /** A repair record is `done` by default and may have no closing time. */
  lemma RepairDefaults(id: int, unitId: int, openedAt: Time)
    ensures var r := NewRepair(id, unitId, openedAt);
            r.status == "done" && r.closedAt.None?
  {
  }

  /** An event has no destination and no comment unless given. */
  lemma EventDefaults(id: int, unitId: int, eventType: string, timestamp: Time)
    ensures var e := NewUnitEvent(id, unitId, eventType, timestamp);
            && e.destinationMachine.None? && e.destinationMachineNumber.None? && e.comment.None?
            && e.byUserId.None? && e.byUserName.None?
  {
  }
}
