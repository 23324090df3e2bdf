/** Properties of the account service that relate several calls: logins
    stay unique and password histories stay bounded under any sequence of
    operations, the revoke/activate toggle, lockout, and reuse rejection. */
module AccountingProperties {
  import opened Common
  import opened UserAccounts
  import opened Accounting

  /** Every password history holds at most `n` hashes. */
  ghost predicate HistoryBounded(users: seq<Account>, n: int)
  {
    forall i :: 0 <= i < |users| ==> |users[i].lastHash| <= n
  }

  /** One call to the service. */
  datatype AccountOp =
    | Register(req: UserRequest, userType: Option<UserType>)
    | ChangePassword(login: string, password: Option<string>)
    | Revoke(login: string)
    | Activate(login: string)
    | Remove(login: string)
    | Seed

  /** The accounts after one call at time `now`; a call that throws rolls
      its transaction back and leaves the accounts as they were. */
  function Apply(cfg: Config, users: seq<Account>, op: AccountOp, now: int): seq<Account>
  {
    match op
    case Register(req, t) =>
      (match Registration(cfg, users, req, t, now) case Ok(u) => u case Err(_) => users)
    case ChangePassword(l, p) =>
      (match UpdatePassword(cfg, users, l, p, now) case Ok(u) => u case Err(_) => users)
    case Revoke(l) =>
      (match RevokeAccount(users, l) case Ok(u) => u case Err(_) => users)
    case Activate(l) =>
      (match ActivateAccount(users, l, now) case Ok(u) => u case Err(_) => users)
    case Remove(l) =>
      (match RemoveUser(users, l) case Ok(res) => res.0 case Err(_) => users)
    case Seed => SeedAdmin(users, now)
  }

  /** The accounts after a sequence of calls, each with its own time. */
  function ApplyAll(cfg: Config, users: seq<Account>, ops: seq<(AccountOp, int)>): seq<Account>
    decreases |ops|
  {
    if |ops| == 0 then users
    else ApplyAll(cfg, Apply(cfg, users, ops[0].0, ops[0].1), ops[1..])
  }

  /** Replacing one account by one with the same login keeps logins unique. */
  lemma ReplaceKeepsUnique(users: seq<Account>, i: nat, a: Account)
    requires UniqueLogins(users) && i < |users| && a.login == users[i].login
    ensures UniqueLogins(users[i := a])
  {
  }

  /** A successful registration keeps logins unique: the new login was absent. */
  lemma {:induction false} RegistrationKeepsUnique(cfg: Config, users: seq<Account>, req: UserRequest,
                                                   t: Option<UserType>, now: int)
    requires UniqueLogins(users)
    requires Registration(cfg, users, req, t, now).Ok?
    ensures UniqueLogins(Registration(cfg, users, req, t, now).value)
  {
    var r := Registration(cfg, users, req, t, now).value;
    forall i, j | 0 <= i < j < |r|
      ensures r[i].login != r[j].login
    {
      if j == |users| {
        assert r[i] == users[i];
      } else {
        assert r[i] == users[i] && r[j] == users[j];
      }
    }
  }

  /** Removing an account keeps logins unique. */
  lemma {:induction false} RemoveKeepsUnique(users: seq<Account>, login: string)
    requires UniqueLogins(users)
    requires RemoveUser(users, login).Ok?
    ensures UniqueLogins(RemoveUser(users, login).value.0)
  {
    var i := FindByLogin(users, login).value;
    var r := RemoveUser(users, login).value.0;
    assert r == users[..i] + users[i + 1..];
    forall a, b | 0 <= a < b < |r|
      ensures r[a].login != r[b].login
    {
      var a' := if a < i then a else a + 1;
      var b' := if b < i then b else b + 1;
      assert r[a] == users[a'] && r[b] == users[b'];
    }
  }

  /** Every call keeps logins unique. */
  lemma {:induction false} ApplyKeepsUnique(cfg: Config, users: seq<Account>, op: AccountOp, now: int)
    requires UniqueLogins(users)
    ensures UniqueLogins(Apply(cfg, users, op, now))
  {
    match op
    case Register(req, t) =>
      if Registration(cfg, users, req, t, now).Ok? {
        RegistrationKeepsUnique(cfg, users, req, t, now);
      }
    case ChangePassword(l, p) =>
      if UpdatePassword(cfg, users, l, p, now).Ok? {
        var i := FindByLogin(users, l).value;
        ReplaceKeepsUnique(users, i, UpdatePassword(cfg, users, l, p, now).value[i]);
        assert UpdatePassword(cfg, users, l, p, now).value
            == users[i := UpdatePassword(cfg, users, l, p, now).value[i]];
      }
    case Revoke(l) =>
      if RevokeAccount(users, l).Ok? {
        var i := FindByLogin(users, l).value;
        ReplaceKeepsUnique(users, i, users[i].(revoked := true));
        assert RevokeAccount(users, l).value == users[i := users[i].(revoked := true)];
      }
    case Activate(l) =>
      if ActivateAccount(users, l, now).Ok? {
        var i := FindByLogin(users, l).value;
        ReplaceKeepsUnique(users, i, users[i].(revoked := false, activationDate := now));
        assert ActivateAccount(users, l, now).value
            == users[i := users[i].(revoked := false, activationDate := now)];
      }
    case Remove(l) =>
      if RemoveUser(users, l).Ok? {
        RemoveKeepsUnique(users, l);
      }
    case Seed =>
      if !ExistsByLogin(users, "admin") {
        var r := SeedAdmin(users, now);
        forall i, j | 0 <= i < j < |r|
          ensures r[i].login != r[j].login
        {
          if j == |users| {
            assert r[i] == users[i];
            assert r[j].login == "admin";
          } else {
            assert r[i] == users[i] && r[j] == users[j];
          }
        }
      }
  }

  /** Logins stay unique across all accounts after any sequence of calls,
      and so after any sequence of successful registrations. */
  lemma {:induction false} LoginsStayUnique(cfg: Config, users: seq<Account>, ops: seq<(AccountOp, int)>)
    requires UniqueLogins(users)
    ensures UniqueLogins(ApplyAll(cfg, users, ops))
    decreases |ops|
  {
    if |ops| > 0 {
      ApplyKeepsUnique(cfg, users, ops[0].0, ops[0].1);
      LoginsStayUnique(cfg, Apply(cfg, users, ops[0].0, ops[0].1), ops[1..]);
    }
  }

  /** The password history is a FIFO window: a change keeps the most recent
      `min(|lastHash| + 1, n)` hashes of the history followed by the current one,
      so with `n >= 1` it never grows beyond `n`. */
  lemma HistoryWindow(lastHash: seq<Hash>, current: Hash, n: int)
    requires n >= 1 && |lastHash| <= n
    ensures PushHistory(lastHash, current, n).Some?
    ensures var h := PushHistory(lastHash, current, n).value;
      && |h| == (if |lastHash| + 1 <= n then |lastHash| + 1 else n)
      && h == (lastHash + [current])[|lastHash| + 1 - |h|..]
  {
    var w := lastHash + [current];
    if |lastHash| >= n {
      assert w[1..] == lastHash[1..] + [current];
    } else {
      assert w[0..] == w;
    }
  }

  /** Every call keeps each password history within `n` entries, `n >= 1`. */
  lemma {:induction false} ApplyKeepsHistoryBounded(cfg: Config, users: seq<Account>, op: AccountOp, now: int)
    requires cfg.nLastHash >= 1 && HistoryBounded(users, cfg.nLastHash)
    ensures HistoryBounded(Apply(cfg, users, op, now), cfg.nLastHash)
  {
    var n := cfg.nLastHash;
    match op
    case Register(req, t) =>
    case ChangePassword(l, p) =>
      if UpdatePassword(cfg, users, l, p, now).Ok? {
        var i := FindByLogin(users, l).value;
        HistoryWindow(users[i].lastHash, users[i].hash, n);
      }
    case Revoke(l) =>
    case Activate(l) =>
    case Remove(l) =>
      if RemoveUser(users, l).Ok? {
        var i := FindByLogin(users, l).value;
        var r := RemoveUser(users, l).value.0;
        assert r == users[..i] + users[i + 1..];
        forall k | 0 <= k < |r|
          ensures |r[k].lastHash| <= n
        {
          assert r[k] == users[if k < i then k else k + 1];
        }
      }
    case Seed =>
  }

  /** Password histories stay bounded by `n >= 1` under any sequence of calls. */
  lemma {:induction false} HistoryStaysBounded(cfg: Config, users: seq<Account>, ops: seq<(AccountOp, int)>)
    requires cfg.nLastHash >= 1 && HistoryBounded(users, cfg.nLastHash)
    ensures HistoryBounded(ApplyAll(cfg, users, ops), cfg.nLastHash)
    decreases |ops|
  {
    if |ops| > 0 {
      ApplyKeepsHistoryBounded(cfg, users, ops[0].0, ops[0].1);
      HistoryStaysBounded(cfg, Apply(cfg, users, ops[0].0, ops[0].1), ops[1..]);
    }
  }

  /** After a successful change from `previous` to `chosen`, changing the
      password back to either of them is rejected: `chosen` matches the
      current hash and `previous` matches the newest history entry. */
  lemma {:induction false} ChangeRejectsReuse(cfg: Config, users: seq<Account>, login: string,
                                              previous: string, chosen: string, now: int, later: int)
    requires ExistsByLogin(users, login)
    requires users[FindByLogin(users, login).value].hash == Encode(previous)
    requires UpdatePassword(cfg, users, login, Some(chosen), now).Ok?
    ensures var u := UpdatePassword(cfg, users, login, Some(chosen), now).value;
      && UpdatePassword(cfg, u, login, Some(chosen), later) == Err(PasswordInvalid)
      && UpdatePassword(cfg, u, login, Some(previous), later) == Err(PasswordInvalid)
  {
    var i := FindByLogin(users, login).value;
    var u := UpdatePassword(cfg, users, login, Some(chosen), now).value;
    assert u[i].login == login;
    assert forall j :: 0 <= j < i ==> u[j] == users[j];
    assert FindByLogin(u, login) == Some(i);
    var h := u[i].lastHash;
    assert h[|h| - 1] == Encode(previous);
    assert Matches(previous, h[|h| - 1]);
    assert IsPasswordFromLast(previous, h);
    if PasswordRejected(cfg, Some(previous)) {
    }
  }

  /** Revoking and then activating an account restores it, except that its
      activation date becomes the time of activation. */
  lemma {:induction false} RevokeThenActivate(users: seq<Account>, login: string, now: int)
    requires RevokeAccount(users, login).Ok?
    ensures var i := FindByLogin(users, login).value;
      ActivateAccount(RevokeAccount(users, login).value, login, now)
        == Ok(users[i := users[i].(activationDate := now)])
  {
    var i := FindByLogin(users, login).value;
    var u := RevokeAccount(users, login).value;
    assert u == users[i := users[i].(revoked := true)];
    assert u[i].login == login;
    assert forall j :: 0 <= j < i ==> u[j] == users[j];
    assert FindByLogin(u, login) == Some(i);
    var a := ActivateAccount(u, login, now).value;
    assert a == u[i := u[i].(revoked := false, activationDate := now)];
    assert !users[i].revoked;
    assert u[i].(revoked := false, activationDate := now) == users[i].(activationDate := now);
    assert u[i := u[i].(revoked := false, activationDate := now)] == users[i := users[i].(activationDate := now)];
    assert ActivateAccount(u, login, now) == Ok(a);
  }

  /** Revoke and activate form a two-state toggle: each fails when the account
      is already in its target state. */
  lemma {:induction false} ToggleFailsInTargetState(users: seq<Account>, login: string, now: int)
    requires RevokeAccount(users, login).Ok?
    ensures RevokeAccount(RevokeAccount(users, login).value, login) == Err(AccountRevoke)
    ensures ActivateAccount(users, login, now) == Err(AccountActivate)
  {
    var i := FindByLogin(users, login).value;
    var u := RevokeAccount(users, login).value;
    assert u[i].login == login;
    assert forall j :: 0 <= j < i ==> u[j] == users[j];
    assert FindByLogin(u, login) == Some(i);
  }

  /** A revoked account is locked out: the security layer refuses every password. */
  lemma {:induction false} RevokeLocksOut(users: seq<Account>, login: string, password: string)
    requires RevokeAccount(users, login).Ok?
    ensures var a := GetUserAccount(RevokeAccount(users, login).value, login);
      && a.Ok?
      && !IsAccountNonLocked(a.value) && !IsEnabled(a.value)
      && !CanAuthenticate(a.value, password)
  {
    var i := FindByLogin(users, login).value;
    var u := RevokeAccount(users, login).value;
    assert u[i].login == login;
    assert forall j :: 0 <= j < i ==> u[j] == users[j];
    assert FindByLogin(u, login) == Some(i);
  }

  /** A freshly registered account is found by its login, is not locked, signs
      in with exactly the registered password, and cannot be activated. */
  lemma {:induction false} RegisteredAccountAuthenticates(cfg: Config, users: seq<Account>, req: UserRequest,
                                                          t: Option<UserType>, now: int, attempt: string)
    requires Registration(cfg, users, req, t, now).Ok?
    ensures var u := Registration(cfg, users, req, t, now).value;
      && GetUserAccount(u, req.login).Ok?
      && Username(GetUserAccount(u, req.login).value) == req.login
      && (CanAuthenticate(GetUserAccount(u, req.login).value, attempt) <==> attempt == req.password.value)
      && ActivateAccount(u, req.login, now) == Err(AccountActivate)
  {
    var u := Registration(cfg, users, req, t, now).value;
    assert u[..|users|] == users;
    assert forall j :: 0 <= j < |users| ==> u[j] == users[j];
    assert u[|users|].login == req.login;
    assert FindByLogin(u, req.login) == Some(|users|);
  }

  /** Registering a login a second time fails with `UserExists`, whatever the
      role, even a missing one, and password. */
  lemma {:induction false} SecondRegistrationConflicts(cfg: Config, users: seq<Account>, req: UserRequest,
                                                       t: Option<UserType>, now: int, again: UserRequest,
                                                       t2: Option<UserType>, later: int)
    requires Registration(cfg, users, req, t, now).Ok?
    requires again.login == req.login && !PasswordRejected(cfg, again.password)
    ensures Registration(cfg, Registration(cfg, users, req, t, now).value, again, t2, later) == Err(UserExists)
  {
    var u := Registration(cfg, users, req, t, now).value;
    assert u[|users|].login == again.login;
  }

  /** Seeding the administrator twice is the same as seeding it once. */
  lemma SeedAdminIdempotent(users: seq<Account>, now: int, later: int)
    ensures SeedAdmin(SeedAdmin(users, now), later) == SeedAdmin(users, now)
  {
  }

  /** The default policy rejects exactly a missing password or one shorter
      than five characters, and keeps three previous hashes. */
  lemma DefaultPolicy(password: Option<string>)
    ensures PasswordRejected(DEFAULT_CONFIG, password) <==> password.None? || |password.value| < 5
    ensures DEFAULT_CONFIG.nLastHash == 3
  {
  }

  /** A login no account carries is reported as `UserNotFound` by every
      operation that looks it up (a password change checks its policy first). */
  lemma MissingLoginNotFound(cfg: Config, users: seq<Account>, login: string, p: Option<string>, now: int)
    requires !ExistsByLogin(users, login)
    ensures GetUserAccount(users, login) == Err(UserNotFound)
    ensures RevokeAccount(users, login) == Err(UserNotFound)
    ensures ActivateAccount(users, login, now) == Err(UserNotFound)
    ensures RemoveUser(users, login) == Err(UserNotFound)
    ensures !PasswordRejected(cfg, p) ==> UpdatePassword(cfg, users, login, p, now) == Err(UserNotFound)
  {
  }
}
