/** The account service: registration under a password-length policy and
    unique logins, password change with a bounded history of previous hashes,
    the revoke/activate toggle, removal, lookup and the start-up seeding of
    the administrator. The account repository is a sequence of accounts;
    every operation is one transaction, so an error leaves it as it was. */
module Accounting {
  import opened Common
  import opened UserAccounts

  /** The configurable properties `password.length` and `last_hash`. */
  datatype Config = Config(passwordLength: int, nLastHash: int)

  const DEFAULT_CONFIG: Config := Config(5, 3)

  /** The exceptions the service throws. `NoSuchElement` is what
      `LinkedList.removeFirst` throws on an empty history; `ServerError` is
      a null dereference, which the web layer answers with status 500. */
  datatype AccountError =
    | PasswordInvalid
    | UserExists
    | UserNotFound
    | AccountRevoke
    | AccountActivate
    | NoSuchElement
    | ServerError

  /** The fields of a registration request that the service reads. */
  datatype UserRequest = UserRequest(
    login: string,
    password: Option<string>,
    firstName: Option<string>,
    lastName: Option<string>,
    email: Option<string>,
    phone: Option<string>)

  /** `userRepository.findByLogin`: the position of the account with that login. */
  function FindByLogin(users: seq<Account>, login: string): (r: Option<nat>)
    ensures r.Some? ==> r.value < |users| && users[r.value].login == login
    ensures r.None? <==> forall i :: 0 <= i < |users| ==> users[i].login != login
  {
    Find(users, (a: Account) => a.login == login)
  }

  predicate ExistsByLogin(users: seq<Account>, login: string)
  {
    FindByLogin(users, login).Some?
  }

  /** Logins are unique across all accounts (the `unique` column constraint). */
  ghost predicate UniqueLogins(users: seq<Account>)
  {
    forall i, j :: 0 <= i < j < |users| ==> users[i].login != users[j].login
  }

  /** An identifier no stored account carries: the generator's fresh UUID. */
  function FreshAccountId(users: seq<Account>): (id: AccountId)
    ensures forall i :: 0 <= i < |users| ==> users[i].id < id
  {
    if |users| == 0 then 0
    else
      var rest := FreshAccountId(users[1..]);
      assert forall i :: 1 <= i < |users| ==> users[i] == users[1..][i - 1];
      if users[0].id < rest then rest else users[0].id + 1
  }

  /** The password policy. The source names this check `isPasswordValid`,
      though it answers whether the password is to be REJECTED. */
  predicate PasswordRejected(cfg: Config, password: Option<string>)
  {
    password.None? || |password.value| < cfg.passwordLength
  }

  /** `registration`: the password policy is checked first, then the login's
      uniqueness, then the role is switched on; the request does not require
      a role, and switching on a missing one is a null dereference. On
      success exactly one account is appended. */
  function Registration(cfg: Config, users: seq<Account>, req: UserRequest,
                        userType: Option<UserType>, now: int): (r: Result<seq<Account>, AccountError>)
    ensures PasswordRejected(cfg, req.password) ==> r == Err(PasswordInvalid)
    ensures (!PasswordRejected(cfg, req.password) && ExistsByLogin(users, req.login))
              ==> r == Err(UserExists)
    ensures (!PasswordRejected(cfg, req.password) && !ExistsByLogin(users, req.login) && userType.None?)
              ==> r == Err(ServerError)
    ensures r.Ok? <==> !PasswordRejected(cfg, req.password) && !ExistsByLogin(users, req.login) && userType.Some?
    ensures r.Ok? ==>
      && |r.value| == |users| + 1
      && r.value[..|users|] == users
      && var a := r.value[|users|];
         && a.login == req.login && a.userType == userType.value
         && Matches(req.password.value, a.hash)
         && !a.revoked && a.activationDate == now && a.lastHash == []
         && a.firstName == req.firstName && a.lastName == req.lastName
         && a.email == req.email && a.phone == req.phone
         && forall i :: 0 <= i < |users| ==> users[i].id != a.id
  {
    if PasswordRejected(cfg, req.password) then Err(PasswordInvalid)
    else if ExistsByLogin(users, req.login) then Err(UserExists)
    else if userType.None? then Err(ServerError)
    else
      var a := NewAccount(FreshAccountId(users), req.login, Encode(req.password.value),
                          req.firstName, req.lastName, userType.value, req.email, req.phone, now);
      Ok(users + [a])
  }

  /** `getUserAccount`: the account with that login, or `UserNotFound`. */
  function GetUserAccount(users: seq<Account>, login: string): (r: Result<Account, AccountError>)
    ensures r.Err? <==> forall i :: 0 <= i < |users| ==> users[i].login != login
    ensures r.Err? ==> r.error == UserNotFound
    ensures r.Ok? ==> r.value in users && r.value.login == login
  {
    match FindByLogin(users, login)
    case None => Err(UserNotFound)
    case Some(i) => Ok(users[i])
  }

  /** `isPasswordFromLast`: whether the password matches a hash in the history. */
  predicate IsPasswordFromLast(password: string, lastHash: seq<Hash>)
  {
    exists i :: 0 <= i < |lastHash| && Matches(password, lastHash[i])
  }

  /** The history after a change away from `current`: the oldest entry is evicted
      when the history already holds `n` entries, then `current` is appended.
      `None` is the exception of evicting from an empty history. */
  function PushHistory(lastHash: seq<Hash>, current: Hash, n: int): (r: Option<seq<Hash>>)
    ensures r.None? <==> |lastHash| == 0 && n <= 0
    ensures r.Some? ==> |r.value| > 0 && r.value[|r.value| - 1] == current
    ensures r.Some? && |lastHash| < n ==> r.value == lastHash + [current]
    ensures r.Some? && |lastHash| >= n ==> r.value == lastHash[1..] + [current]
  {
    if |lastHash| >= n then
      if |lastHash| == 0 then None else Some(lastHash[1..] + [current])
    else Some(lastHash + [current])
  }

  /** `updatePassword`. Checks, in order: the policy (before the account is
      looked up), the account's existence, reuse of the current password,
      reuse of a password in the history. On success the old hash joins the
      history, the new hash is stored and the account is re-activated now. */
  function UpdatePassword(cfg: Config, users: seq<Account>, login: string,
                          newPassword: Option<string>, now: int): (r: Result<seq<Account>, AccountError>)
    ensures PasswordRejected(cfg, newPassword) ==> r == Err(PasswordInvalid)
    ensures (!PasswordRejected(cfg, newPassword) && !ExistsByLogin(users, login))
              ==> r == Err(UserNotFound)
    ensures r.Ok? ==>
      && !PasswordRejected(cfg, newPassword)
      && FindByLogin(users, login).Some?
      && var i := FindByLogin(users, login).value;
         var a := users[i];
         && !Matches(newPassword.value, a.hash)
         && !IsPasswordFromLast(newPassword.value, a.lastHash)
         && PushHistory(a.lastHash, a.hash, cfg.nLastHash).Some?
         && |r.value| == |users|
         && (forall j :: 0 <= j < |users| && j != i ==> r.value[j] == users[j])
         && r.value[i] == a.(hash := Encode(newPassword.value), activationDate := now,
                             lastHash := PushHistory(a.lastHash, a.hash, cfg.nLastHash).value)
    ensures (&& !PasswordRejected(cfg, newPassword)
             && FindByLogin(users, login).Some?
             && var a := users[FindByLogin(users, login).value];
                Matches(newPassword.value, a.hash) || IsPasswordFromLast(newPassword.value, a.lastHash))
            ==> r == Err(PasswordInvalid)
    ensures (&& !PasswordRejected(cfg, newPassword)
             && FindByLogin(users, login).Some?
             && var a := users[FindByLogin(users, login).value];
                && !Matches(newPassword.value, a.hash) && !IsPasswordFromLast(newPassword.value, a.lastHash)
                && PushHistory(a.lastHash, a.hash, cfg.nLastHash).None?)
            ==> r == Err(NoSuchElement)
    ensures r.Ok? <==>
      && !PasswordRejected(cfg, newPassword)
      && FindByLogin(users, login).Some?
      && var a := users[FindByLogin(users, login).value];
         && !Matches(newPassword.value, a.hash) && !IsPasswordFromLast(newPassword.value, a.lastHash)
         && PushHistory(a.lastHash, a.hash, cfg.nLastHash).Some?
  {
    if PasswordRejected(cfg, newPassword) then Err(PasswordInvalid)
    else
      match FindByLogin(users, login)
      case None => Err(UserNotFound)
      case Some(i) =>
        var a := users[i];
        var p := newPassword.value;
        if Matches(p, a.hash) then Err(PasswordInvalid)
        else if IsPasswordFromLast(p, a.lastHash) then Err(PasswordInvalid)
        else
          match PushHistory(a.lastHash, a.hash, cfg.nLastHash)
          case None => Err(NoSuchElement)
          case Some(h) =>
            Ok(users[i := a.(hash := Encode(p), activationDate := now, lastHash := h)])
  }

  /** `revokeAccount`: fails on an account that is already revoked;
      otherwise sets the revoked flag and changes nothing else. */
  function RevokeAccount(users: seq<Account>, login: string): (r: Result<seq<Account>, AccountError>)
    ensures !ExistsByLogin(users, login) ==> r == Err(UserNotFound)
    ensures (ExistsByLogin(users, login) && users[FindByLogin(users, login).value].revoked)
              ==> r == Err(AccountRevoke)
    ensures r.Ok? <==> ExistsByLogin(users, login) && !users[FindByLogin(users, login).value].revoked
    ensures r.Ok? ==>
      && ExistsByLogin(users, login)
      && var i := FindByLogin(users, login).value;
         && !users[i].revoked
         && |r.value| == |users|
         && (forall j :: 0 <= j < |users| && j != i ==> r.value[j] == users[j])
         && r.value[i] == users[i].(revoked := true)
  {
    match FindByLogin(users, login)
    case None => Err(UserNotFound)
    case Some(i) =>
      if users[i].revoked then Err(AccountRevoke)
      else Ok(users[i := users[i].(revoked := true)])
  }

  /** `activateAccount`: fails on an account that is not revoked; otherwise
      clears the flag and re-activates the account now. */
  function ActivateAccount(users: seq<Account>, login: string, now: int): (r: Result<seq<Account>, AccountError>)
    ensures !ExistsByLogin(users, login) ==> r == Err(UserNotFound)
    ensures (ExistsByLogin(users, login) && !users[FindByLogin(users, login).value].revoked)
              ==> r == Err(AccountActivate)
    ensures r.Ok? <==> ExistsByLogin(users, login) && users[FindByLogin(users, login).value].revoked
    ensures r.Ok? ==>
      && ExistsByLogin(users, login)
      && var i := FindByLogin(users, login).value;
         && users[i].revoked
         && |r.value| == |users|
         && (forall j :: 0 <= j < |users| && j != i ==> r.value[j] == users[j])
         && r.value[i] == users[i].(revoked := false, activationDate := now)
  {
    match FindByLogin(users, login)
    case None => Err(UserNotFound)
    case Some(i) =>
      if !users[i].revoked then Err(AccountActivate)
      else Ok(users[i := users[i].(revoked := false, activationDate := now)])
  }

  /** `removeUser`: deletes the account with that login and returns it. */
  function RemoveUser(users: seq<Account>, login: string): (r: Result<(seq<Account>, Account), AccountError>)
    ensures r.Err? <==> !ExistsByLogin(users, login)
    ensures r.Err? ==> r.error == UserNotFound
    ensures r.Ok? ==>
      && var (rest, removed) := r.value;
         && removed.login == login
         && |rest| == |users| - 1
         && multiset(rest) + multiset{removed} == multiset(users)
  {
    match FindByLogin(users, login)
    case None => Err(UserNotFound)
    case Some(i) =>
      assert users == users[..i] + [users[i]] + users[i + 1..];
      Ok((users[..i] + users[i + 1..], users[i]))
  }

  /** The administrator that `run` creates at start-up. */
  function AdminAccount(users: seq<Account>, now: int): Account
  {
    NewAccount(FreshAccountId(users), "admin", Encode("admin"), Some("Admin"), Some("Admin"),
               ADMIN, Some("admin@farm.com"), None, now)
  }

  /** `run`: seeds the administrator account when no account has the login
      "admin", and otherwise leaves the accounts alone. */
  function SeedAdmin(users: seq<Account>, now: int): (r: seq<Account>)
    ensures ExistsByLogin(r, "admin")
    ensures ExistsByLogin(users, "admin") ==> r == users
    ensures !ExistsByLogin(users, "admin") ==>
      && |r| == |users| + 1 && r[..|users|] == users
      && r[|users|].userType == ADMIN && Matches("admin", r[|users|].hash)
      && !r[|users|].revoked
  {
    if ExistsByLogin(users, "admin") then users
    else
      var r := users + [AdminAccount(users, now)];
      assert r[|users|].login == "admin";
      r
  }
}
