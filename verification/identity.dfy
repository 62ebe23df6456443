/**
  * Who is acting: the Telegram sender of an update and the name the handlers record for them.
  * The same resolution is written out in the receive, repair and issue handlers; it is defined
  * once here, with the issue handler's variant (which can raise) beside it.
  */
module Identity {

  import opened Common
  import opened Text
  import opened Models
  import opened Db

  /** The sender of a message or callback as Telegram describes it. */
  datatype TgUser = TgUser(id: int, firstName: string, lastName: Option<string>, username: Option<string>)

  /** Python truthiness of an optional string. */
  predicate Truthy(s: Option<string>) {
    s.Some? && s.value != []
  }

  /** `(last_name or "") or (first_name or "")) or None`: the Telegram fallback. */
  function TelegramName(from: TgUser): (r: Option<string>)
    ensures r.Some? ==> r.value != []
    ensures r.None? <==> !Truthy(from.lastName) && from.firstName == []
    ensures Truthy(from.lastName) ==> r == from.lastName
  {
    if Truthy(from.lastName) then from.lastName
    else if from.firstName != [] then Some(from.firstName)
    else None
  }

  /** The row of the sender in the users table, if registered. */
  function Account(users: seq<User>, from: Option<TgUser>): (r: Option<nat>)
    ensures r.Some? ==> from.Some? && r.value < |users| && users[r.value].tgId == from.value.id
  {
    match from
    case None => None
    case Some(f) => FindUser(users, f.id)
  }

  /** `by_user_id`: the sender's user id, when registered. */
  function ActorId(users: seq<User>, from: Option<TgUser>): (r: Option<int>)
    ensures r.Some? <==> Account(users, from).Some?
  {
    match Account(users, from)
    case None => None
    case Some(i) => Some(users[i].id)
  }

  /** The first word of the sender's registered full name, when there is one. */
  function RegisteredWord(users: seq<User>, from: Option<TgUser>): (r: Option<string>)
    ensures r.Some? ==> r.value != []
  {
    match Account(users, from)
    case None => None
    case Some(i) =>
      match users[i].fullName
      case None => None
      case Some(n) => FirstToken(n)
  }

  /**
    * The name recorded for the sender: the first word of the registered full name, else the
    * Telegram last name, else the first name; nothing without a sender.
    */
  function DisplayName(users: seq<User>, from: Option<TgUser>): (r: Option<string>)
    ensures r.Some? ==> r.value != []
    ensures from.None? ==> r.None?
    ensures RegisteredWord(users, from).Some? ==> r == RegisteredWord(users, from)
    ensures from.Some? && RegisteredWord(users, from).None? ==> r == TelegramName(from.value)
  {
    match from
    case None => None
    case Some(f) => if RegisteredWord(users, from).Some? then RegisteredWord(users, from) else TelegramName(f)
  }

  /**
    * The receive handler's second pass for the event's `by_user_name`: start from the surname
    * already found and fill it from the account, then from Telegram, when it is still empty.
    */
  function ReceiveEventName(users: seq<User>, from: Option<TgUser>, surname: Option<string>): Option<string> {
    if from.None? then surname
    else
      var fromAccount :=
        if Truthy(surname) then surname
        else if Account(users, from).Some? && RegisteredWord(users, from).Some? then RegisteredWord(users, from)
        else surname;
      if Truthy(fromAccount) then fromAccount else TelegramName(from.value)
  }

  /** The event of a received unit names the same person as the unit's `master_surname`. */
  lemma ReceiveEventNameIsSurname(users: seq<User>, from: Option<TgUser>)
    ensures ReceiveEventName(users, from, DisplayName(users, from)) == DisplayName(users, from)
  {
  }

  /**
    * The issue handler's variant: `full_name.split()[0]` without the guard the other handlers
    * have, so a full name that is non-empty but all whitespace raises `IndexError`.
    */
  function IssuerName(users: seq<User>, from: Option<TgUser>): (r: Result<Option<string>, string>)
    ensures r.Failure? <==>
      Account(users, from).Some? && Truthy(users[Account(users, from).value].fullName)
      && AllSpace(users[Account(users, from).value].fullName.value)
  {
    match from
    case None => Success(None)
    case Some(f) =>
      match Account(users, from)
      case None => Success(TelegramName(f))
      case Some(i) =>
        if Truthy(users[i].fullName) then
          var words := SplitWs(users[i].fullName.value);
          BlankIffNoTokens(users[i].fullName.value);
          if words == [] then Failure("IndexError: list index out of range") else Success(Some(words[0]))
        else Success(TelegramName(f))
  }

  /** When the issue handler does not raise, it records the same name as the other handlers. */
  lemma IssuerNameAgrees(users: seq<User>, from: Option<TgUser>)
    ensures IssuerName(users, from).Success? ==> IssuerName(users, from).value == DisplayName(users, from)
  {
  }

  /** Full names written by registration have two words, so the issue handler never raises on them. */
  lemma IssuerNameTotal(users: seq<User>, from: Option<TgUser>)
    requires UsersWellFormed(users)
    ensures IssuerName(users, from).Success?
  {
    match Account(users, from)
    case None =>
    case Some(i) =>
      assert WellFormedUser(users[i]);
      if Truthy(users[i].fullName) {
        BlankIffNoTokens(users[i].fullName.value);
      }
  }
}
