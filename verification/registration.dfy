/**
  * Registration and approval (app/handlers/registration.py): `/register` asks for the full name,
  * whose answer inserts or updates the sender's user row; `/approve <tg_id>` lets an admin
  * activate a user. The admin ids come from the settings; whether the handlers' database
  * session factory is bound is the flag `bound`.
  */
module Registration {

  import opened Common
  import opened Text
  import opened Ints
  import opened Models
  import opened Db
  import opened Fsm
  import opened Identity

  /** What the handlers answer. */
  datatype Reply =
    | NoSender | LookupFailed | TooShort | NoDatabase | Registered(asAdmin: bool)
    | NotAdmin | MissingId | NotNumber | NotFound | Approved(tgId: int)

  /** `"admin" if tg_id in admin_tg_ids else "master"`. */
  function RoleFor(tgId: int, adminIds: seq<int>): (r: string)
    ensures r == RoleAdmin <==> tgId in adminIds
    ensures r == RoleAdmin || r == RoleMaster
  {
    if tgId in adminIds then RoleAdmin else RoleMaster
  }

  /** The row an existing user becomes: new name and username, never demoted, activated by an admin role. */
  function Reregistered(u: User, fullName: string, username: Option<string>, role: string): User {
    u.(fullName := Some(fullName), username := username,
       role := if u.role != RoleAdmin then role else u.role,
       status := if u.status != StatusActive && role == RoleAdmin then StatusActive else u.status)
  }

  /** The upsert of `reg_set_full_name`. */
  function Upsert(t: Tables, tgId: int, fullName: string, username: Option<string>, adminIds: seq<int>,
                  createdAt: Time): Tables
  {
    var role := RoleFor(tgId, adminIds);
    match FindUser(t.users, tgId)
    case None =>
      AddUser(t, NewUser(0, tgId, Some(fullName), username, createdAt, role,
                         if role == RoleAdmin then StatusActive else StatusPending))
    case Some(i) => SetUser(t, i, Reregistered(t.users[i], fullName, username, role))
  }

  /** A re-registered row still fits the invariant on users. */
  lemma ReregisteredWellFormed(u: User, fullName: string, username: Option<string>, role: string)
    requires WellFormedUser(u) && (role == RoleAdmin || role == RoleMaster) && |SplitWs(fullName)| >= 2
    ensures WellFormedUser(Reregistered(u, fullName, username, role))
  {
  }

  /** Re-registering with the same answers a second time leaves the row as it is. */
  lemma ReregisteredAgain(u: User, fullName: string, username: Option<string>, role: string)
    requires WellFormedUser(u) && (role == RoleAdmin || role == RoleMaster)
    ensures var v := Reregistered(u, fullName, username, role);
            Reregistered(v, fullName, username, role) == v
  {
  }

  /** The upsert keeps the invariant and touches the users table only. */
  lemma UpsertKeepsValid(t: Tables, tgId: int, fullName: string, username: Option<string>, adminIds: seq<int>,
                         createdAt: Time)
    requires Valid(t) && |SplitWs(fullName)| >= 2
    ensures var r := Upsert(t, tgId, fullName, username, adminIds, createdAt);
            && Valid(r)
            && r.units == t.units && r.events == t.events && r.repairs == t.repairs
            && r.attachments == t.attachments && r.printJobs == t.printJobs
            && r.printEvents == t.printEvents && r.printers == t.printers
  {
    var role := RoleFor(tgId, adminIds);
    match FindUser(t.users, tgId)
    case None =>
      AddUserKeepsValid(t, NewUser(0, tgId, Some(fullName), username, createdAt, role,
                                   if role == RoleAdmin then StatusActive else StatusPending));
    case Some(i) =>
      assert WellFormedUser(t.users[i]);
      ReregisteredWellFormed(t.users[i], fullName, username, role);
      SetUserKeepsValid(t, i, Reregistered(t.users[i], fullName, username, role));
  }

  /** A new Telegram id gets exactly one new row, with the admin role and active iff it is an admin id. */
  lemma UpsertNewUser(t: Tables, tgId: int, fullName: string, username: Option<string>, adminIds: seq<int>,
                      createdAt: Time)
    requires FindUser(t.users, tgId).None?
    ensures var r := Upsert(t, tgId, fullName, username, adminIds, createdAt);
            && |r.users| == |t.users| + 1 && r.users[..|t.users|] == t.users
            && var u := r.users[|t.users|];
            && u.tgId == tgId && u.fullName == Some(fullName) && u.username == username
            && (u.role == RoleAdmin <==> tgId in adminIds)
            && (u.status == StatusActive <==> tgId in adminIds)
  {
  }

  /**
    * A known Telegram id has its own row updated in place and no other: name and username
    * overwritten, an admin never demoted, the status raised to active for an admin id and
    * otherwise kept.
    */
  lemma UpsertKnownUser(t: Tables, tgId: int, fullName: string, username: Option<string>, adminIds: seq<int>,
                        createdAt: Time)
    requires FindUser(t.users, tgId).Some?
    ensures var r := Upsert(t, tgId, fullName, username, adminIds, createdAt);
            var i := FindUser(t.users, tgId).value;
            var before := t.users[i];
            && |r.users| == |t.users|
            && (forall k | 0 <= k < |t.users| && k != i :: r.users[k] == t.users[k])
            && var u := r.users[i];
            && u.id == before.id && u.tgId == tgId && u.createdAt == before.createdAt
            && u.fullName == Some(fullName) && u.username == username
            && (before.role == RoleAdmin ==> u.role == RoleAdmin)
            && (before.role != RoleAdmin ==> u.role == RoleFor(tgId, adminIds))
            && (tgId in adminIds ==> u.status == StatusActive)
            && (tgId !in adminIds ==> u.status == before.status)
  {
  }

  /** The upsert never makes two rows share a Telegram id. */
  lemma UpsertUniqueTgIds(t: Tables, tgId: int, fullName: string, username: Option<string>, adminIds: seq<int>,
                          createdAt: Time)
    requires UniqueTgIds(t.users)
    ensures UniqueTgIds(Upsert(t, tgId, fullName, username, adminIds, createdAt).users)
  {
    var us := Upsert(t, tgId, fullName, username, adminIds, createdAt).users;
    forall a, b | 0 <= a < b < |us| ensures us[a].tgId != us[b].tgId {
      if b < |t.users| {
        assert us[a].tgId == t.users[a].tgId && us[b].tgId == t.users[b].tgId;
      }
    }
  }

  /** Sending the same full name again changes nothing more. */
  lemma {:induction false} UpsertIdempotent(t: Tables, tgId: int, fullName: string, username: Option<string>,
                                            adminIds: seq<int>, createdAt: Time, later: Time)
    requires UniqueTgIds(t.users) && UsersWellFormed(t.users)
    ensures var r := Upsert(t, tgId, fullName, username, adminIds, createdAt);
            Upsert(r, tgId, fullName, username, adminIds, later) == r
  {
    UpsertUniqueTgIds(t, tgId, fullName, username, adminIds, createdAt);
    var r := Upsert(t, tgId, fullName, username, adminIds, createdAt);
    var role := RoleFor(tgId, adminIds);
    var k: nat;
    match FindUser(t.users, tgId)
    case None =>
      k := |t.users|;
      assert r.users[k] == Reregistered(r.users[k], fullName, username, role);
    case Some(i) =>
      k := i;
      assert WellFormedUser(t.users[i]);
      ReregisteredAgain(t.users[i], fullName, username, role);
    UpsertFixed(r, k, tgId, fullName, username, adminIds, later);
  }

  /** Upserting a user whose row already carries the same answers changes nothing. */
  lemma {:induction false} UpsertFixed(r: Tables, k: nat, tgId: int, fullName: string, username: Option<string>,
                                       adminIds: seq<int>, later: Time)
    requires UniqueTgIds(r.users) && k < |r.users| && r.users[k].tgId == tgId
    requires Reregistered(r.users[k], fullName, username, RoleFor(tgId, adminIds)) == r.users[k]
    ensures Upsert(r, tgId, fullName, username, adminIds, later) == r
  {
    FindUserUnique(r.users, k);
    assert r.users[k := r.users[k]] == r.users;
  }

  // ---- the handlers ----

  /**
    * `/register`: with a sender, the full name is asked for; the stored data is kept as it is.
    * With the session factory bound, the existence check first calls `query` on an asynchronous
    * session, which has no such method, so the handler stops there and nothing changes.
    */
  method Register(s: Session, from: Option<TgUser>, bound: bool) returns (reply: Option<Reply>)
    modifies s
    ensures from.None? ==> reply == Some(NoSender) && s.step == old(s.step) && s.data == old(s.data)
    ensures from.Some? && bound ==> reply == Some(LookupFailed) && s.step == old(s.step) && s.data == old(s.data)
    ensures from.Some? && !bound ==> reply.None? && s.step == Some(RegWaitingFullName) && s.data == old(s.data)
  {
    if from.None? {
      return Some(NoSender);
    }
    if bound {
      return Some(LookupFailed);
    }
    s.SetStep(RegWaitingFullName);
    reply := None;
  }

  /**
    * `reg_set_full_name`: without a sender, or with fewer than two words, nothing changes; with
    * the session factory unbound the session is cleared and nothing written; otherwise the
    * stripped name is upserted and the session cleared.
    */
  method SetFullName(s: Session, db: Store, from: Option<TgUser>, text: string, adminIds: seq<int>,
                     bound: bool, utc: Time) returns (reply: Reply)
    requires s.step == Some(RegWaitingFullName) && Valid(db.Snapshot())
    modifies s, db
    ensures Valid(db.Snapshot())
    ensures from.None? || |SplitWs(text)| < 2 ==>
              && reply == (if from.None? then NoSender else TooShort)
              && s.step == old(s.step) && s.data == old(s.data) && db.Snapshot() == old(db.Snapshot())
    ensures from.Some? && |SplitWs(text)| >= 2 && !bound ==>
              reply == NoDatabase && s.step == None && s.data == map[] && db.Snapshot() == old(db.Snapshot())
    ensures from.Some? && |SplitWs(text)| >= 2 && bound ==>
              && reply == Registered(from.value.id in adminIds)
              && s.step == None && s.data == map[]
              && db.Snapshot() == Upsert(old(db.Snapshot()), from.value.id, Strip(text), from.value.username,
                                         adminIds, utc)
  {
    if from.None? {
      return NoSender;
    }
    if |SplitWs(text)| < 2 {
      return TooShort;
    }
    if !bound {
      s.Clear();
      return NoDatabase;
    }
    var fullName := Strip(text);
    SplitWsStrip(text);
    var f := from.value;
    SaveUser(db, f.id, fullName, f.username, adminIds, utc);
    reply := Registered(f.id in adminIds);
    s.Clear();
  }

  /** Writes the upsert. */
  method SaveUser(db: Store, tgId: int, fullName: string, username: Option<string>, adminIds: seq<int>, utc: Time)
    requires Valid(db.Snapshot()) && |SplitWs(fullName)| >= 2
    modifies db
    ensures Valid(db.Snapshot())
    ensures db.Snapshot() == Upsert(old(db.Snapshot()), tgId, fullName, username, adminIds, utc)
  {
    UpsertKeepsValid(db.Snapshot(), tgId, fullName, username, adminIds, utc);
    var role := RoleFor(tgId, adminIds);
    var found := FindUser(db.users, tgId);
    if found.None? {
      var status := if role == RoleAdmin then StatusActive else StatusPending;
      var id := db.InsertUser(NewUser(0, tgId, Some(fullName), username, utc, role, status));
    } else {
      db.UpdateUser(found.value, Reregistered(db.users[found.value], fullName, username, role));
    }
  }

  /** `message.text.split()[1:]`: the words after the command. */
  function CommandArgs(text: string): seq<string> {
    var words := SplitWs(text);
    if words == [] then [] else words[1..]
  }

  /** `cmd_approve` on the tables: the reply, if any, and the tables afterwards. */
  function ApproveResult(t: Tables, from: Option<TgUser>, text: string, adminIds: seq<int>, bound: bool)
    : (Tables, Option<Reply>)
  {
    if from.None? then (t, None)
    else if from.value.id !in adminIds then (t, Some(NotAdmin))
    else
      var args := CommandArgs(text);
      if args == [] then (t, Some(MissingId))
      else match ParseInt(args[0])
        case None => (t, Some(NotNumber))
        case Some(target) =>
          if !bound then (t, Some(NoDatabase))
          else match FindUser(t.users, target)
            case None => (t, Some(NotFound))
            case Some(i) => (SetUser(t, i, t.users[i].(status := StatusActive)), Some(Approved(target)))
  }

  /**
    * Only an admin id changes anything, and then only the status of the one user named, which
    * becomes active; approving again changes nothing more. The invariant holds afterwards.
    */
  lemma {:induction false} ApproveSpec(t: Tables, from: Option<TgUser>, text: string, adminIds: seq<int>, bound: bool)
    requires Valid(t)
    ensures var (r, reply) := ApproveResult(t, from, text, adminIds, bound);
            && Valid(r)
            && (r != t ==> from.Some? && from.value.id in adminIds && bound)
            && (reply.Some? && reply.value.Approved? ==>
                  && FindUser(t.users, reply.value.tgId).Some?
                  && var i := FindUser(t.users, reply.value.tgId).value;
                  && r == t.(users := t.users[i := t.users[i].(status := StatusActive)])
                  && FindUser(r.users, reply.value.tgId) == Some(i)
                  && r.users[i].status == StatusActive)
            && ApproveResult(r, from, text, adminIds, bound).0 == r
  {
    var args := CommandArgs(text);
    if from.Some? && from.value.id in adminIds && args != [] && ParseInt(args[0]).Some? && bound
       && FindUser(t.users, ParseInt(args[0]).value).Some?
    {
      var target := ParseInt(args[0]).value;
      var i := FindUser(t.users, target).value;
      ActivateSpec(t, i);
      var r := SetUser(t, i, t.users[i].(status := StatusActive));
      assert ApproveResult(t, from, text, adminIds, bound) == (r, Some(Approved(target)));
      assert ApproveResult(r, from, text, adminIds, bound).0 == SetUser(r, i, r.users[i].(status := StatusActive));
    } else {
      assert ApproveResult(t, from, text, adminIds, bound).0 == t;
    }
  }

  /** Activating user `i` keeps the invariant, keeps the user findable, and is idempotent. */
  lemma {:induction false} ActivateSpec(t: Tables, i: nat)
    requires Valid(t) && i < |t.users|
    ensures var r := SetUser(t, i, t.users[i].(status := StatusActive));
            && Valid(r)
            && FindUser(r.users, t.users[i].tgId) == Some(i)
            && r.users[i].status == StatusActive
            && SetUser(r, i, r.users[i].(status := StatusActive)) == r
  {
    assert WellFormedUser(t.users[i]);
    SetUserKeepsValid(t, i, t.users[i].(status := StatusActive));
    var r := SetUser(t, i, t.users[i].(status := StatusActive));
    FindUserUnique(r.users, i);
    assert r.users[i := r.users[i].(status := StatusActive)] == r.users;
  }

  /** `/approve <tg_id>`. */
  method Approve(db: Store, from: Option<TgUser>, text: string, adminIds: seq<int>, bound: bool)
    returns (reply: Option<Reply>)
    requires Valid(db.Snapshot())
    modifies db
    ensures Valid(db.Snapshot())
    ensures (db.Snapshot(), reply) == ApproveResult(old(db.Snapshot()), from, text, adminIds, bound)
  {
    ApproveSpec(db.Snapshot(), from, text, adminIds, bound);
    if from.None? {
      return None;
    }
    if from.value.id !in adminIds {
      return Some(NotAdmin);
    }
    var args := CommandArgs(text);
    if args == [] {
      return Some(MissingId);
    }
    var target := ParseInt(args[0]);
    if target.None? {
      return Some(NotNumber);
    }
    if !bound {
      return Some(NoDatabase);
    }
    var found := FindUser(db.users, target.value);
    if found.None? {
      return Some(NotFound);
    }
    var i := found.value;
    db.UpdateUser(i, db.users[i].(status := StatusActive));
    reply := Some(Approved(target.value));
  }
}
