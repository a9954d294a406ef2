/**
  * The session store of src/stores/auth.store.ts: the two tokens, the user
  * read from the access token's payload, and the authenticated flag.
  */
module AuthStore {
  import opened Wrappers

  datatype Role = Player | Dm | Admin

  /**
    * The claims `jwtDecode` reads from an access token. A claim that is
    * missing is `None`; the `rol` claim is `None` also when it is empty.
    */
  datatype Payload = Payload(
    discordId: Option<string>,
    nombre: Option<string>,
    rol: Option<Role>,
    email: Option<string>,
    sub: Option<string>)

  datatype SessionUser = SessionUser(discordId: string, nombre: string, rol: Role, email: Option<string>)

  datatype AuthState = AuthState(
    accessToken: Option<string>,
    refreshToken: Option<string>,
    user: Option<SessionUser>,
    isAuthenticated: bool)

  /** The initial state, and the state after `logout` or a failed decode. */
  const LOGGED_OUT := AuthState(None, None, None, false)

  /** A claim JavaScript treats as true in `a || b`: present and not the empty string. */
  predicate Truthy(claim: Option<string>) {
    claim.Some? && claim.value != ""
  }

  /**
    * The user built from a decoded payload: the id is the `discord_id` claim,
    * else the `sub` claim, else empty; the name defaults to empty and the role
    * to player; the e-mail is copied as it is.
    */
  function UserOf(p: Payload): (u: SessionUser)
    ensures Truthy(p.discordId) ==> u.discordId == p.discordId.value
    ensures !Truthy(p.discordId) && Truthy(p.sub) ==> u.discordId == p.sub.value
    ensures u.discordId == "" <==> !Truthy(p.discordId) && !Truthy(p.sub)
    ensures u.nombre == "" <==> !Truthy(p.nombre)
    ensures Truthy(p.nombre) ==> u.nombre == p.nombre.value
    ensures u.rol == Player <==> p.rol.None? || p.rol == Some(Player)
    ensures p.rol.Some? ==> u.rol == p.rol.value
    ensures u.email == p.email
  {
    var id := if Truthy(p.discordId) then p.discordId.value else if Truthy(p.sub) then p.sub.value else "";
    var name := if Truthy(p.nombre) then p.nombre.value else "";
    var rol := if p.rol.Some? then p.rol.value else Player;
    SessionUser(id, name, rol, p.email)
  }

  /** An empty `discord_id` claim is passed over in favour of `sub`. */
  lemma EmptyIdFallsBack(p: Payload)
    requires p.discordId == Some("") && Truthy(p.sub)
    ensures UserOf(p).discordId == p.sub.value
  {
  }

  class Session {
    var accessToken: Option<string>
    var refreshToken: Option<string>
    var user: Option<SessionUser>
    var isAuthenticated: bool

    function State(): AuthState
      reads this
    {
      AuthState(accessToken, refreshToken, user, isAuthenticated)
    }

    /** Authenticated exactly when both tokens and a user are held, and logged out otherwise. */
    predicate Valid()
      reads this
    {
      if isAuthenticated then accessToken.Some? && refreshToken.Some? && user.Some?
      else State() == LOGGED_OUT
    }

    constructor ()
      ensures Valid() && State() == LOGGED_OUT
    {
      accessToken, refreshToken, user, isAuthenticated := None, None, None, false;
    }

    /**
      * `setTokens(access, refresh)`, where `decoded` is what `jwtDecode`
      * gives for `access` (`None` when it throws): the session holds both
      * tokens and the payload's user, or is fully logged out.
      */
    method SetTokens(access: string, refresh: string, decoded: Option<Payload>)
      modifies this
      ensures Valid()
      ensures decoded.Some? ==> State() == AuthState(Some(access), Some(refresh), Some(UserOf(decoded.value)), true)
      ensures decoded.None? ==> State() == LOGGED_OUT
    {
      if decoded.None? {
        accessToken, refreshToken, user, isAuthenticated := None, None, None, false;
        return;
      }
      accessToken := Some(access);
      refreshToken := Some(refresh);
      user := Some(UserOf(decoded.value));
      isAuthenticated := true;
    }

    /** `logout`: logged out whatever the state was, so a second call changes nothing. */
    method Logout()
      modifies this
      ensures Valid() && State() == LOGGED_OUT
    {
      accessToken, refreshToken, user, isAuthenticated := None, None, None, false;
    }
  }
}
