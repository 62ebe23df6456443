/**
  * Settings loading (app/config.py): the bot token must be present, and `ADMIN_TG_IDS` is a
  * comma-separated list whose blank and non-numeric entries are skipped.
  */
module Config {

  import opened Common
  import opened Text
  import opened Ints

  datatype Settings = Settings(telegramBotToken: string, adminTgIds: seq<int>)

  /** What one comma-separated entry contributes: its number, or nothing when blank or not a number. */
  function EntryIds(part: string): (r: seq<int>)
    ensures |r| <= 1
  {
    var p := Strip(part);
    if p == [] then []
    else
      match ParseInt(p)
      case Some(v) => [v]
      case None => []
  }

  /** An entry contributes exactly the number `int()` reads from it, if any. */
  lemma EntryIdsParse(part: string)
    ensures EntryIds(part) == [] <==> ParseInt(part).None?
    ensures EntryIds(part) != [] ==> EntryIds(part) == [ParseInt(part).value]
  {
    ParseIntStrip(part);
    BlankIffNoTokens(part);
  }

  /** `f` applied to each element of `xs`, in order. */
  function MapSeq<T, U>(xs: seq<T>, f: T -> U): (ys: seq<U>)
    ensures |ys| == |xs|
    ensures forall i | 0 <= i < |xs| :: ys[i] == f(xs[i])
  {
    seq(|xs|, i requires 0 <= i < |xs| => f(xs[i]))
  }

  /** The lists of `xs`, joined in order. */
  function Concat(xs: seq<seq<int>>): seq<int> {
    if xs == [] then [] else Concat(xs[..|xs| - 1]) + xs[|xs| - 1]
  }

  /** The admin ids the entries yield, in entry order. */
  function AdminIdsFrom(parts: seq<string>): seq<int> {
    Concat(MapSeq(parts, EntryIds))
  }

  lemma {:induction false} AdminIdsStep(parts: seq<string>, i: nat)
    requires i < |parts|
    ensures AdminIdsFrom(parts[..i + 1]) == AdminIdsFrom(parts[..i]) + EntryIds(parts[i])
  {
    var entries := MapSeq(parts[..i + 1], EntryIds);
    assert entries[..i] == MapSeq(parts[..i], EntryIds);
  }

  /** The loop over `admin_str.split(",")` that collects the admin ids. */
  method ParseAdminIds(adminStr: string) returns (ids: seq<int>)
    ensures ids == AdminIdsFrom(SplitOn(adminStr, ','))
  {
    ids := [];
    if adminStr != [] {
      var parts := SplitOn(adminStr, ',');
      var i := 0;
      while i < |parts|
        invariant 0 <= i <= |parts|
        invariant ids == AdminIdsFrom(parts[..i])
      {
        AdminIdsStep(parts, i);
        var part := Strip(parts[i]);
        if part != [] {
          var parsed := ParseInt(part);
          if parsed.Some? {
            ids := ids + [parsed.value];
          }
        }
        i := i + 1;
      }
      assert parts[..|parts|] == parts;
    } else {
      NoAdminsWhenUnset();
    }
  }

  /** `get_settings`: fails without a token; otherwise the token and the parsed admin ids. */
  method GetSettings(token: Option<string>, adminEnv: Option<string>) returns (r: Result<Settings, string>)
    ensures r.Failure? <==> token.None? || token.value == []
    ensures r.Success? ==> r.value.telegramBotToken == token.value
    ensures r.Success? ==> r.value.adminTgIds == AdminIdsFrom(SplitOn(adminEnv.GetOr(""), ','))
  {
    if token.None? || token.value == [] {
      return Failure("TELEGRAM_BOT_TOKEN is not set. Create a .env file with TELEGRAM_BOT_TOKEN=...");
    }
    var ids := ParseAdminIds(adminEnv.GetOr(""));
    r := Success(Settings(token.value, ids));
  }

  lemma {:induction false} MapSeqAppend<T, U>(a: seq<T>, b: seq<T>, f: T -> U)
    ensures MapSeq(a + b, f) == MapSeq(a, f) + MapSeq(b, f)
  {
    var l, r := MapSeq(a + b, f), MapSeq(a, f) + MapSeq(b, f);
    forall i | 0 <= i < |l| ensures l[i] == r[i] {
      if i < |a| {
        assert (a + b)[i] == a[i];
      } else {
        assert (a + b)[i] == b[i - |a|];
      }
    }
  }

  lemma {:induction false} ConcatAppend(a: seq<seq<int>>, b: seq<seq<int>>)
    ensures Concat(a + b) == Concat(a) + Concat(b)
    decreases |b|
  {
    if b == [] {
      assert a + b == a;
    } else {
      var init := b[..|b| - 1];
      var last := b[|b| - 1];
      assert (a + b)[..|a + b| - 1] == a + init;
      assert (a + b)[|a + b| - 1] == last;
      assert Concat(a + b) == Concat(a + init) + last;
      ConcatAppend(a, init);
      assert Concat(b) == Concat(init) + last;
      assert Concat(a + b) == (Concat(a) + Concat(init)) + last;
    }
  }

  /** Splitting the entries splits the ids: order is kept and duplicates are not merged. */
  lemma {:induction false} AdminIdsAppend(a: seq<string>, b: seq<string>)
    ensures AdminIdsFrom(a + b) == AdminIdsFrom(a) + AdminIdsFrom(b)
  {
    MapSeqAppend(a, b, EntryIds);
    ConcatAppend(MapSeq(a, EntryIds), MapSeq(b, EntryIds));
  }

  /** Some list of `xs` holds `v`. */
  predicate InSome(xs: seq<seq<int>>, v: int) {
    exists i | 0 <= i < |xs| :: v in xs[i]
  }

  lemma {:induction false} InSomeSnoc(xs: seq<seq<int>>, v: int)
    requires xs != []
    ensures InSome(xs, v) <==> InSome(xs[..|xs| - 1], v) || v in xs[|xs| - 1]
  {
    var init := xs[..|xs| - 1];
    if InSome(init, v) {
      var i :| 0 <= i < |init| && v in init[i];
      assert xs[i] == init[i];
    }
    if InSome(xs, v) {
      var i :| 0 <= i < |xs| && v in xs[i];
      assert i < |init| ==> init[i] == xs[i];
    }
  }

  lemma {:induction false} ConcatMembers(xs: seq<seq<int>>, v: int)
    ensures v in Concat(xs) <==> InSome(xs, v)
  {
    if xs != [] {
      ConcatMembers(xs[..|xs| - 1], v);
      InSomeSnoc(xs, v);
    }
  }

  /** An id is an admin exactly when some entry parses to it. */
  lemma {:induction false} AdminIdsMembers(parts: seq<string>, v: int)
    ensures v in AdminIdsFrom(parts) <==> exists i | 0 <= i < |parts| :: ParseInt(parts[i]) == Some(v)
  {
    ConcatMembers(MapSeq(parts, EntryIds), v);
    forall i | 0 <= i < |parts|
      ensures v in EntryIds(parts[i]) <==> ParseInt(parts[i]) == Some(v)
    {
      EntryIdsParse(parts[i]);
    }
  }

  /** An unset or empty `ADMIN_TG_IDS` yields no admins. */
  lemma {:induction false} NoAdminsWhenUnset()
    ensures AdminIdsFrom(SplitOn("", ',')) == []
  {
    assert SplitOn("", ',') == [""];
    assert MapSeq([""], EntryIds) == [EntryIds("")];
  }

  /** Each entry contributes at most one id, so there are never more ids than entries. */
  lemma {:induction false} ConcatBound(xs: seq<seq<int>>)
    requires forall i | 0 <= i < |xs| :: |xs[i]| <= 1
    ensures |Concat(xs)| <= |xs|
  {
    if xs != [] {
      ConcatBound(xs[..|xs| - 1]);
    }
  }

  lemma {:induction false} AdminIdsBound(parts: seq<string>)
    ensures |AdminIdsFrom(parts)| <= |parts|
  {
    ConcatBound(MapSeq(parts, EntryIds));
  }
}
