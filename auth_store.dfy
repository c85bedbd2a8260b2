/**
 * `frontend/src/stores/authStore.js`: the client's session. The store holds
 * the token, the user, the last error and the loading flag, and mirrors the
 * token and the user into the browser's `localStorage`, modelled as a map
 * from key to text. The user is kept as its JSON text, so `JSON.stringify`
 * and `JSON.parse` are the identity here. The server's answer to a login or a
 * registration is a parameter.
 */
module AuthClient {
  import opened Wrappers
  import opened Text

  const TokenKey := "token"
  const UserKey := "user"
  const LoginFailed := "Erro ao fazer login."
  const RegisterFailed := "Erro ao registrar."

  /** The outcome of `axios.post`: a response carrying `data.token` (possibly missing), or an error carrying `response.data.message` (possibly missing). */
  datatype Reply = Accepted(token: Option<string>) | Rejected(message: Option<string>)

  datatype Session = Session(
    token: Option<string>, user: Option<string>, error: Option<string>, loading: bool,
    storage: map<string, string>)

  /** `localStorage.getItem(key) || null`: an empty stored text reads as nothing. */
  function Stored(storage: map<string, string>, key: string): (r: Option<string>)
    ensures r.Some? <==> key in storage && storage[key] != ""
    ensures r.Some? ==> r.value == storage[key]
  {
    if key in storage && storage[key] != "" then Some(storage[key]) else None
  }

  /** The store's initial state, read from what the browser kept. */
  function Loaded(storage: map<string, string>): (s: Session)
    ensures s.token == Stored(storage, TokenKey) && s.user == Stored(storage, UserKey)
    ensures s.error.None? && !s.loading && s.storage == storage
  {
    Session(Stored(storage, TokenKey), Stored(storage, UserKey), None, false, storage)
  }

  /** `isAuthenticated`: `!!state.token`. */
  predicate IsAuthenticated(s: Session) {
    Truthy(s.token)
  }

  /** A value as a later page load reads it back: a falsy value is nothing. */
  function Kept(v: Option<string>): Option<string> {
    if Truthy(v) then v else None
  }

  /**
   * The storage is in step with the store: loading the page again gives back
   * the same token and user (a falsy one as nothing).
   */
  predicate Mirrored(s: Session) {
    Stored(s.storage, TokenKey) == Kept(s.token) && Stored(s.storage, UserKey) == Kept(s.user)
  }

  /** A store just loaded is in step with the storage it was loaded from. */
  lemma LoadedIsMirrored(storage: map<string, string>)
    ensures Mirrored(Loaded(storage))
    ensures IsAuthenticated(Loaded(storage)) <==> TokenKey in storage && storage[TokenKey] != ""
  {
  }

  /** `localStorage.setItem(key, v)` for a truthy value, `removeItem(key)` otherwise. */
  function Put(storage: map<string, string>, key: string, v: Option<string>): (r: map<string, string>)
    ensures Stored(r, key) == Kept(v)
    ensures forall k | k != key :: (k in r <==> k in storage) && (k in r ==> r[k] == storage[k])
  {
    if Truthy(v) then storage[key := v.value] else storage - {key}
  }

  /** `setToken(token)`: the token kept, and stored or removed. */
  function WithToken(s: Session, token: Option<string>): (r: Session)
    ensures r.token == token && r.user == s.user && r.error == s.error && r.loading == s.loading
    ensures Stored(r.storage, TokenKey) == Kept(token) && Stored(r.storage, UserKey) == Stored(s.storage, UserKey)
    ensures Mirrored(s) ==> Mirrored(r)
  {
    s.(token := token, storage := Put(s.storage, TokenKey, token))
  }

  /** `setUser(user)`: the user kept, and stored or removed. */
  function WithUser(s: Session, user: Option<string>): (r: Session)
    ensures r.user == user && r.token == s.token && r.error == s.error && r.loading == s.loading
    ensures Stored(r.storage, UserKey) == Kept(user) && Stored(r.storage, TokenKey) == Stored(s.storage, TokenKey)
    ensures Mirrored(s) ==> Mirrored(r)
  {
    s.(user := user, storage := Put(s.storage, UserKey, user))
  }

  /** The start of `login` and `register`: `setLoading(true)`, `setError(null)`. */
  function Begun(s: Session): (r: Session)
    ensures r.loading && r.error.None?
    ensures r.token == s.token && r.user == s.user && r.storage == s.storage
  {
    s.(loading := true, error := None)
  }

  /** The message shown for a rejected request: the server's, when it sent a non-empty one. */
  function Message(m: Option<string>, fallback: string): (r: string)
    ensures Truthy(m) ==> r == m.value
    ensures !Truthy(m) ==> r == fallback
  {
    OrDefault(m, fallback)
  }

  /**
   * The rest of `login`: the returned token stored; or the error set and both
   * the token and the user cleared. `loading` is cleared either way.
   */
  function LoginFinished(s: Session, reply: Reply): (r: Session)
    ensures !r.loading
    ensures reply.Accepted? ==> r.token == reply.token && r.user == s.user && r.error == s.error
    ensures reply.Rejected? ==>
              r.token.None? && r.user.None? && r.error == Some(Message(reply.message, LoginFailed)) &&
              TokenKey !in r.storage && UserKey !in r.storage
    ensures Mirrored(s) ==> Mirrored(r)
  {
    match reply
    case Accepted(token) => WithToken(s, token).(loading := false)
    case Rejected(message) =>
      WithUser(WithToken(s.(error := Some(Message(message, LoginFailed))), None), None).(loading := false)
  }

  /**
   * The rest of `register`: the returned token stored; or the error set with
   * the session left as it was. `loading` is cleared either way.
   */
  function RegisterFinished(s: Session, reply: Reply): (r: Session)
    ensures !r.loading
    ensures reply.Accepted? ==> r.token == reply.token && r.user == s.user && r.error == s.error
    ensures reply.Rejected? ==>
              r.token == s.token && r.user == s.user && r.storage == s.storage &&
              r.error == Some(Message(reply.message, RegisterFailed))
    ensures Mirrored(s) ==> Mirrored(r)
  {
    match reply
    case Accepted(token) => WithToken(s, token).(loading := false)
    case Rejected(message) => s.(error := Some(Message(message, RegisterFailed)), loading := false)
  }

  /** `logout()`: no token and no user, in the store or in the storage. */
  function LoggedOut(s: Session): (r: Session)
    ensures !IsAuthenticated(r) && r.token.None? && r.user.None?
    ensures TokenKey !in r.storage && UserKey !in r.storage
    ensures r.error == s.error && r.loading == s.loading
  {
    WithUser(WithToken(s, None), None)
  }

  /** A login the server accepts with a token leaves the user signed in, also after a reload. */
  lemma AcceptedLoginSurvivesReload(s: Session, token: string)
    requires token != ""
    ensures var r := LoginFinished(Begun(s), Accepted(Some(token)));
      IsAuthenticated(r) && IsAuthenticated(Loaded(r.storage)) && Loaded(r.storage).token == Some(token)
  {
  }

  /** A failed login signs the user out, also for the next page load. */
  lemma RejectedLoginSignsOut(s: Session, message: Option<string>)
    ensures var r := LoginFinished(Begun(s), Rejected(message));
      !IsAuthenticated(r) && !IsAuthenticated(Loaded(r.storage)) && Loaded(r.storage).user.None?
  {
  }

  /** A failed registration does not end a session that was open. */
  lemma RejectedRegisterKeepsSession(s: Session, message: Option<string>)
    ensures IsAuthenticated(RegisterFinished(Begun(s), Rejected(message))) <==> IsAuthenticated(s)
  {
  }

  class AuthStore {
    var token: Option<string>
    var user: Option<string>
    var error: Option<string>
    var loading: bool
    var storage: map<string, string>

    function State(): Session
      reads this
    {
      Session(token, user, error, loading, storage)
    }

    /** The store's `state()`, read from `localStorage`. */
    constructor (stored: map<string, string>)
      ensures State() == Loaded(stored)
    {
      token := Stored(stored, TokenKey);
      user := Stored(stored, UserKey);
      error := None;
      loading := false;
      storage := stored;
    }

    function Authenticated(): (b: bool)
      reads this
      ensures b <==> token.Some? && token.value != ""
    {
      IsAuthenticated(State())
    }

    method SetToken(t: Option<string>)
      modifies this
      ensures State() == WithToken(old(State()), t)
    {
      token := t;
      if Truthy(t) {
        storage := storage[TokenKey := t.value];
      } else {
        storage := storage - {TokenKey};
      }
    }

    method SetUser(u: Option<string>)
      modifies this
      ensures State() == WithUser(old(State()), u)
    {
      user := u;
      if Truthy(u) {
        storage := storage[UserKey := u.value];
      } else {
        storage := storage - {UserKey};
      }
    }

    method Begin()
      modifies this
      ensures State() == Begun(old(State()))
    {
      loading := true;
      error := None;
    }

    /** `login(credentials)`, with the server's reply; answers whether it succeeded. */
    method Login(reply: Reply) returns (ok: bool)
      modifies this
      ensures State() == LoginFinished(Begun(old(State())), reply)
      ensures ok <==> reply.Accepted?
    {
      Begin();
      match reply {
      case Accepted(t) =>
        SetToken(t);
        ok := true;
      case Rejected(message) =>
        error := Some(Message(message, LoginFailed));
        SetToken(None);
        SetUser(None);
        ok := false;
      }
      loading := false;
    }

    /** `register(userData)`, with the server's reply; answers whether it succeeded. */
    method Register(reply: Reply) returns (ok: bool)
      modifies this
      ensures State() == RegisterFinished(Begun(old(State())), reply)
      ensures ok <==> reply.Accepted?
    {
      Begin();
      match reply {
      case Accepted(t) =>
        SetToken(t);
        ok := true;
      case Rejected(message) =>
        error := Some(Message(message, RegisterFailed));
        ok := false;
      }
      loading := false;
    }

    method Logout()
      modifies this
      ensures State() == LoggedOut(old(State()))
    {
      SetToken(None);
      SetUser(None);
    }
  }
}
