/** The account entity shared by administrators, farmers and customers, and
    the view of it that the security layer reads (`UserDetails`). */
module UserAccounts {
  import opened Common

  /** The role tag of an account. */
  datatype UserType = ADMIN | FARMER | CUSTOMER

  /** The enum constant's name, as `Enum.name()` returns it. */
  function TypeName(t: UserType): string
  {
    match t
    case ADMIN => "ADMIN"
    case FARMER => "FARMER"
    case CUSTOMER => "CUSTOMER"
  }

  /** A stored password hash. BCrypt is abstracted as an injective encoding:
      distinct passwords never share a hash, and a password matches a hash
      exactly when the hash is its encoding. */
  datatype Hash = Encoded(secret: string)

  function Encode(password: string): Hash
  {
    Encoded(password)
  }

  predicate Matches(password: string, h: Hash)
  {
    h == Encode(password)
  }

  /** A user account. The subclasses `Farmer`, `Customer` and `Admin` share
      this shape. A farmer's list of listings is the inverse side of the
      listing's owner reference, so it is not stored here: it is read off the
      listings (`Products.FarmerListings`). The postal address is not
      modelled. */
  datatype Account = Account(
    id: AccountId,
    login: string,
    hash: Hash,
    firstName: Option<string>,
    lastName: Option<string>,
    email: Option<string>,
    phone: Option<string>,
    userType: UserType,
    activationDate: int,
    revoked: bool,
    lastHash: seq<Hash>)

  /** The account constructor: a new account is active, is activated at the
      moment of construction and has no password history. */
  function NewAccount(id: AccountId, login: string, hash: Hash,
                      firstName: Option<string>, lastName: Option<string>,
                      userType: UserType, email: Option<string>, phone: Option<string>,
                      now: int): (a: Account)
    ensures a.id == id && a.login == login && a.hash == hash && a.userType == userType
    ensures a.firstName == firstName && a.lastName == lastName
    ensures a.email == email && a.phone == phone
    ensures !a.revoked && a.activationDate == now
    ensures a.lastHash == []
  {
    Account(id, login, hash, firstName, lastName, email, phone, userType, now, false, [])
  }

  /** The granted authorities: a single authority naming the role. */
  function Authorities(a: Account): (r: seq<string>)
    ensures |r| == 1
    ensures |r[0]| > 5 && r[0][..5] == "TYPE_" && r[0][5..] == TypeName(a.userType)
  {
    ["TYPE_" + TypeName(a.userType)]
  }

  /** `UserDetails.getUsername`. */
  function Username(a: Account): string
  {
    a.login
  }

  /** `UserDetails.getPassword`. */
  function Password(a: Account): Hash
  {
    a.hash
  }

  predicate IsAccountNonExpired(a: Account)
  {
    true
  }

  predicate IsCredentialsNonExpired(a: Account)
  {
    true
  }

  predicate IsAccountNonLocked(a: Account)
  {
    !a.revoked
  }

  predicate IsEnabled(a: Account)
  {
    !a.revoked
  }

  /** The security layer lets an account sign in with a password exactly when
      the password matches its hash and every `UserDetails` status flag holds. */
  predicate CanAuthenticate(a: Account, password: string)
  {
    && Matches(password, Password(a))
    && IsAccountNonExpired(a) && IsAccountNonLocked(a)
    && IsCredentialsNonExpired(a) && IsEnabled(a)
  }

  /** Distinct roles grant distinct authorities, so the role claim in a
      token identifies the role. */
  lemma AuthorityIdentifiesRole(a: Account, b: Account)
    ensures Authorities(a) == Authorities(b) <==> a.userType == b.userType
  {
    if Authorities(a) == Authorities(b) {
      assert Authorities(a)[0][5..] == Authorities(b)[0][5..];
      assert TypeName(a.userType) == TypeName(b.userType);
      match a.userType
      case ADMIN =>
      case FARMER =>
        assert TypeName(b.userType)[0] == 'F';
      case CUSTOMER =>
        assert TypeName(b.userType)[0] == 'C';
    }
  }

  /** The status flags: expiry never locks an account out, the revoked flag
      alone does, and then it disables the account as well. */
  lemma StatusFlags(a: Account)
    ensures IsAccountNonExpired(a) && IsCredentialsNonExpired(a)
    ensures IsAccountNonLocked(a) <==> !a.revoked
    ensures IsEnabled(a) <==> !a.revoked
    ensures (forall p :: CanAuthenticate(a, p) <==> !a.revoked && Matches(p, a.hash))
  {
  }

  /** A newly constructed account signs in with exactly the password it was
      created with, and carries no password history. */
  lemma NewAccountAuthenticates(id: AccountId, login: string, password: string,
                                firstName: Option<string>, lastName: Option<string>,
                                userType: UserType, email: Option<string>, phone: Option<string>,
                                now: int, attempt: string)
    ensures var a := NewAccount(id, login, Encode(password), firstName, lastName, userType, email, phone, now);
      && Username(a) == login
      && (CanAuthenticate(a, attempt) <==> attempt == password)
  {
  }
}
