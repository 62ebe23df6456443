/**
  * The per-user conversation state the handlers share: an optional step tag and a key/value
  * data map, updated in place by `set_state`, `update_data` and `clear`.
  */
module Fsm {

  import opened Common
  import opened Ints

  /** Every step of every flow (the `StatesGroup`s of the handler modules). */
  datatype Step =
    // app/handlers/receive.py: ReceiveStates
    | RecvNumber | RecvNameChoice | RecvNameManual | RecvTypeChoice | RecvTypeManual
    | RecvCondition | RecvMachine | RecvMachineNumber
    // app/handlers/issue.py: IssueStates
    | IssueNumber | IssueUnitChoice | IssueDestMachine | IssueDestNumber | IssueConfirm
    // app/handlers/repair.py: RepairStates
    | RepairNumber | RepairUnitChoice | RepairFault | RepairSummary
    // app/handlers/printing.py: PrintStates
    | PrintFile | PrintPhoto | PrintPrinter | PrintTime | PrintConfirm
    // app/handlers/registration.py: RegStates
    | RegWaitingFullName

  /** The values the handlers store: text, integers, `None`, and lists of either. */
  datatype Value = Str(text: string) | Int(num: int) | Null | Strs(texts: seq<string>) | Ints(nums: seq<int>)

  type Data = map<string, Value>

  /** Python truthiness of `data.get(key)`. */
  predicate TruthyAt(d: Data, key: string) {
    key in d &&
    match d[key]
    case Str(t) => t != []
    case Int(n) => n != 0
    case Null => false
    case Strs(ts) => ts != []
    case Ints(ns) => ns != []
  }

  /** `data.get(key)` read as an optional string (any other shape reads as `None`). */
  function GetStr(d: Data, key: string): (r: Option<string>)
    ensures r.Some? <==> key in d && d[key].Str?
  {
    if key in d && d[key].Str? then Some(d[key].text) else None
  }

  /** `data.get(key)` read as an optional integer. */
  function GetInt(d: Data, key: string): (r: Option<int>)
    ensures r.Some? <==> key in d && d[key].Int?
  {
    if key in d && d[key].Int? then Some(d[key].num) else None
  }

  /** `data.get(key, [])` for a list of strings. */
  function GetStrs(d: Data, key: string): seq<string> {
    if key in d && d[key].Strs? then d[key].texts else []
  }

  /** `data.get(key, [])` for a list of integers. */
  function GetInts(d: Data, key: string): seq<int> {
    if key in d && d[key].Ints? then d[key].nums else []
  }

  /** The value under `key` is not a list (what `str(...)` below is defined on). */
  predicate Scalar(d: Data, key: string) {
    key in d ==> !d[key].Strs? && !d[key].Ints?
  }

  /** `str(data.get(key))`: the text itself, an integer in decimal, or "None". */
  function PyStr(d: Data, key: string): (r: string)
    requires Scalar(d, key)
    ensures GetStr(d, key).Some? ==> r == GetStr(d, key).value
    ensures key !in d ==> r == "None"
  {
    if key !in d then "None"
    else match d[key]
      case Str(t) => t
      case Int(n) => IntToString(n)
      case Null => "None"
  }

  /** `str(data.get(key)) if data.get(key) else None`. */
  function TruthyStr(d: Data, key: string): (r: Option<string>)
    requires Scalar(d, key)
    ensures r.Some? <==> TruthyAt(d, key)
    ensures r.Some? ==> r.value != []
  {
    if TruthyAt(d, key) then
      assert d[key].Str? ==> PyStr(d, key) != [];
      assert d[key].Int? ==> PyStr(d, key) == IntToString(d[key].num);
      Some(PyStr(d, key))
    else None
  }

  /** The FSM context of one chat: the current step and the stored data. */
  class Session {
    var step: Option<Step>
    var data: Data

    constructor()
      ensures step == None && data == map[]
    {
      step := None;
      data := map[];
    }

    /** `state.clear()`: no step and no data. */
    method Clear()
      modifies this
      ensures step == None && data == map[]
    {
      step := None;
      data := map[];
    }

    /** `state.set_state(s)`: the data is kept. */
    method SetStep(s: Step)
      modifies this
      ensures step == Some(s) && data == old(data)
    {
      step := Some(s);
    }

    /** `state.update_data(key=v)`: one key rewritten, the step kept. */
    method Update(key: string, v: Value)
      modifies this
      ensures data == old(data)[key := v] && step == old(step)
    {
      data := data[key := v];
    }
  }
}
