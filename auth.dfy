/** The signed-in user and the wallet balance they carry (the authentication context).
    Sign-in, sign-up, sign-out and password reset go through a hosted identity service
    and are not part of this model; what is modelled is the user record they install,
    the default wallet, the username derived from an e-mail address, the admin
    projection, and the wallet update every other part of the application goes through. */
module Auth {
  import opened Common

  /** The wallet every freshly created non-admin account starts with. */
  const DEFAULT_WALLET: int := 100

  datatype User = User(id: string, username: string, email: string, isAdmin: bool, wallet: int)

  /** `user?.isAdmin || false`: the admin flag of the signed-in user, false when nobody is. */
  function IsAdmin(user: Option<User>): (r: bool)
    ensures r <==> user.Some? && user.value.isAdmin
    ensures user.None? ==> !r
  {
    match user
    case None => false
    case Some(u) => u.isAdmin
  }

  /** `email.split('@')[0]`: the text before the first '@', or all of it when there is none. */
  function LocalPart(email: string): (r: string)
    ensures r <= email
    ensures '@' !in r
    ensures |r| < |email| ==> email[|r|] == '@'
  {
    if email == [] || email[0] == '@' then [] else [email[0]] + LocalPart(email[1..])
  }

  /** `email?.split('@')[0] || 'user'`: the username given to an account the identity
      service returns; the fallback covers a missing address and an empty local part. */
  function DerivedUsername(email: Option<string>): (r: string)
    ensures r != [] && '@' !in r
    ensures email.Some? && email.value != [] && email.value[0] != '@' ==> r <= email.value
    ensures email.None? || email.value == [] || email.value[0] == '@' ==> r == "user"
    ensures email.Some? && LocalPart(email.value) != [] ==> r == LocalPart(email.value)
    ensures email.None? || LocalPart(email.value) == [] ==> r == "user"
  {
    if email.None? || LocalPart(email.value) == [] then "user" else LocalPart(email.value)
  }

  /** The record installed when the identity service reports an unconfirmed e-mail
      (development fallback): username is the raw local part, no fallback. */
  function UnconfirmedUser(id: string, email: string): (u: User)
    ensures !u.isAdmin && u.wallet == DEFAULT_WALLET && u.email == email
    ensures u.username <= email && '@' !in u.username
    ensures u.id == id && u.username == LocalPart(email)
  {
    User(id, LocalPart(email), email, false, DEFAULT_WALLET)
  }

  /** The record installed after a successful password sign-in; `isAdminLogin` is whether
      the address typed in equals the administrator's address. */
  function SignedInUser(id: string, email: Option<string>, isAdminLogin: bool): (u: User)
    ensures u.wallet == DEFAULT_WALLET && u.isAdmin == isAdminLogin
    ensures u.username != [] && '@' !in u.username
    ensures u.email == (if email.Some? then email.value else "")
    ensures u.id == id && u.username == DerivedUsername(email)
  {
    User(id, DerivedUsername(email), if email.Some? then email.value else "", isAdminLogin, DEFAULT_WALLET)
  }

  /** The record installed after a successful sign-up: the chosen username, never admin. */
  function SignedUpUser(id: string, username: string, email: string): (u: User)
    ensures !u.isAdmin && u.wallet == DEFAULT_WALLET
    ensures u.id == id && u.username == username && u.email == email
  {
    User(id, username, email, false, DEFAULT_WALLET)
  }

  /** The user after `updateWallet(amount)`: nobody signed in stays nobody; otherwise only
      the wallet moves, by exactly `amount`, with no bound checked. */
  function Credited(user: Option<User>, amount: int): (r: Option<User>)
    ensures r.None? <==> user.None?
    ensures r.Some? ==> r.value.wallet == user.value.wallet + amount
    ensures r.Some? ==> (r.value.id == user.value.id && r.value.username == user.value.username &&
                         r.value.email == user.value.email && r.value.isAdmin == user.value.isAdmin)
  {
    match user
    case None => None
    case Some(u) => Some(u.(wallet := u.wallet + amount))
  }

  /** A credit followed by the matching debit restores the user exactly. */
  lemma CreditRoundTrip(user: Option<User>, amount: int)
    ensures Credited(Credited(user, amount), -amount) == user
  {
  }

  /** Two updates compose into one by the sum of their amounts. */
  lemma CreditsCompose(user: Option<User>, a: int, b: int)
    ensures Credited(Credited(user, a), b) == Credited(user, a + b)
  {
  }

  /** Accounts made by sign-up and by the unconfirmed-address fallback never see the
      admin pages. */
  lemma NewAccountsAreNotAdmin(id: string, username: string, email: string)
    ensures !IsAdmin(Some(SignedUpUser(id, username, email)))
    ensures !IsAdmin(Some(UnconfirmedUser(id, email)))
  {
  }

  /** A password sign-in grants admin access exactly when the admin address was typed. */
  lemma SignInAdminExactly(id: string, email: Option<string>, isAdminLogin: bool)
    ensures IsAdmin(Some(SignedInUser(id, email, isAdminLogin))) == isAdminLogin
  {
  }

  /** Wallet updates never change who is an administrator. */
  lemma CreditKeepsAdmin(user: Option<User>, amount: int)
    ensures IsAdmin(Credited(user, amount)) == IsAdmin(user)
  {
  }

  /** The authentication context's mutable state: the signed-in user, if any. */
  class Session {
    var user: Option<User>

    /** A session restored from storage (or `None` on a first visit). */
    constructor (restored: Option<User>)
      ensures user == restored
    {
      user := restored;
    }

    /** `setUser(u)` at the end of a successful sign-in or sign-up. */
    method SignIn(u: User)
      modifies this
      ensures user == Some(u)
    {
      user := Some(u);
    }

    /** `setUser(null)` after sign-out. */
    method SignOut()
      modifies this
      ensures user == None
    {
      user := None;
    }

    /** `updateWallet(amount)`: replaces the user by a copy whose wallet is `wallet + amount`. */
    method UpdateWallet(amount: int)
      modifies this
      ensures user == Credited(old(user), amount)
      ensures old(user).None? ==> user == old(user)
    {
      if user.Some? {
        user := Some(user.value.(wallet := user.value.wallet + amount));
      }
    }
  }
}
