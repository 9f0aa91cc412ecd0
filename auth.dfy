/**
 * The request decisions of auth.go: the `auth` cookie gate of
 * `authHandler.ServeHTTP`, and `loginHandler`'s split of the
 * `/auth/{action}/{provider}` path, its dispatch on the action and the
 * cookie it sets after a successful callback.
 *
 * The OAuth provider (lookup, begin URL, completing the authentication,
 * fetching the user) is reduced to the outcomes of those calls, given as
 * input; so are the `avatars` directory listing and the digest that turns
 * the lower-cased e-mail address into the user id. Responses are values;
 * writing headers, cookies and bodies is not modelled.
 */
module Auth {
  import opened Wrappers
  import opened Text
  import Avatars

  const StatusTemporaryRedirect: nat := 307
  const StatusBadRequest: nat := 400
  const StatusNotFound: nat := 404
  const StatusInternalServerError: nat := 500

  /**
   * The outcome of `r.Cookie("auth")`: the only error that lookup returns is
   * the absence of the cookie.
   */
  datatype CookieLookup = NoCookie | CookieValue(value: string)

  /** The fields of the `auth` cookie value set after login (before its base64 encoding). */
  datatype AuthCookie = AuthCookie(userId: string, name: string, avatarUrl: string)

  /** A `Set-Cookie` of the response. */
  datatype SetCookie = SetCookie(name: string, path: string, value: AuthCookie)

  /** What a handler does with a request. */
  datatype Response =
      /** The wrapped handler serves the request. */
    | ServeNext
      /** A redirect with the given status to `location`, possibly setting the `auth` cookie. */
    | Redirect(status: nat, location: string, setCookie: Option<SetCookie>)
      /** An error status with a message body. */
    | Failure(status: nat)
      /** `log.Fatalln`: the process exits. */
    | Fatal
      /** The handler panics: the server abandons the request without a response. */
    | Panic

  /**
   * `authHandler.ServeHTTP`: a missing or empty `auth` cookie redirects to
   * `/login` without calling the wrapped handler; a non-empty cookie passes
   * the request on.
   */
  function AuthGate(cookie: CookieLookup): (r: Response)
    ensures r == Redirect(StatusTemporaryRedirect, "/login", None) <==>
              cookie.NoCookie? || cookie.value == ""
    ensures r == ServeNext <==> cookie.CookieValue? && cookie.value != ""
  {
    match cookie
    case NoCookie => Redirect(StatusTemporaryRedirect, "/login", None)
    case CookieValue(v) =>
      if v == "" then Redirect(StatusTemporaryRedirect, "/login", None) else ServeNext
  }

  /** The two path segments `loginHandler` reads. */
  datatype AuthRoute = AuthRoute(action: string, provider: string)

  /**
   * The path split of `loginHandler`: fewer than four `/`-separated
   * segments, that is fewer than three `/`, is no route; otherwise the
   * action is segment 2 and the provider segment 3.
   */
  function ParseAuthPath(path: string): (r: Option<AuthRoute>)
    ensures r.None? <==> Count(path, '/') < 3
    ensures r.Some? ==> '/' !in r.value.action && '/' !in r.value.provider
  {
    var segments := Split(path, '/');
    SplitLength(path, '/');
    if |segments| < 4 then None
    else
      assert segments[2] in segments && segments[3] in segments;
      Some(AuthRoute(segments[2], segments[3]))
  }

  /**
   * The path of any `/`-free segments, four or more, parses to segments 2
   * and 3; the segments after them are ignored.
   */
  lemma ParseAuthPathSegments(segments: seq<string>)
    requires |segments| >= 4
    requires forall k :: 0 <= k < |segments| ==> '/' !in segments[k]
    ensures ParseAuthPath(Join(segments, '/')) == Some(AuthRoute(segments[2], segments[3]))
  {
    SplitJoin(segments, '/');
  }

  /** The callback URL path the Google provider is registered with parses to `callback` and `google`. */
  lemma ParseCallbackPath()
    ensures ParseAuthPath("/auth/callback/google") == Some(AuthRoute("callback", "google"))
  {
    var segments := ["", "auth", "callback", "google"];
    assert Join(segments, '/') == "/auth/callback/google";
    ParseAuthPathSegments(segments);
  }

  /** A user as the provider's `GetUser` returns it. */
  datatype User = User(name: string, email: string, avatarUrl: string)

  /**
   * The outcome of the callback's steps, in order: parsing the raw query
   * with `objx.MustFromURLQuery` (which panics on a malformed query), then
   * `CompleteAuth`, then `GetUser`.
   */
  datatype CallbackOutcome = MalformedQuery | CompleteAuthFailed | GetUserFailed | Authenticated(user: User)

  /** A registered provider, as the outcomes of the calls the handler makes on it. */
  datatype Provider = Provider(beginAuthUrl: Option<string>, callback: CallbackOutcome)

  /** The user id: the digest of the lower-cased e-mail address (an MD5 hex digest in the source). */
  function UserId(digest: string -> string, email: string): (id: string)
    ensures exists lower :: (forall i :: 0 <= i < |lower| ==> !IsUpper(lower[i])) &&
                            EqualIgnoringCase(lower, email) && id == digest(lower)
  {
    var lower := ToLower(email);
    assert EqualIgnoringCase(lower, email);
    digest(lower)
  }

  /** E-mail addresses that differ only in the case of their letters give the same user id. */
  lemma UserIdIgnoresCase(digest: string -> string, a: string, b: string)
    requires EqualIgnoringCase(a, b)
    ensures UserId(digest, a) == UserId(digest, b)
  {
    ToLowerIdentifiesCase(a, b);
  }

  /**
   * The `ChatUser` given to the avatar chain at login: it carries the
   * provider's avatar URL, and its unique id is never set, so it is empty.
   */
  function LoginChatUser(user: User): (u: Avatars.ChatUser)
    ensures u.uniqueId == "" && u.avatarUrl == user.avatarUrl
  {
    Avatars.ChatUser("", user.avatarUrl)
  }

  /**
   * `loginHandler`. `providers` are the registered providers by name,
   * `digest` hashes the lower-cased e-mail address and `avatarsDir` is the
   * listing of the `avatars` directory.
   */
  function LoginHandler(path: string, providers: map<string, Provider>, digest: string -> string,
                        avatarsDir: Avatars.Listing): (r: Response)
    ensures ParseAuthPath(path).None? ==> r == Failure(StatusNotFound)
    ensures ParseAuthPath(path).Some? && ParseAuthPath(path).value.action !in {"login", "callback"} ==>
              r == Failure(StatusNotFound)
    ensures forall p :: ParseAuthPath(path) == Some(AuthRoute("login", p)) ==>
              r == if p !in providers then Failure(StatusBadRequest)
                   else if providers[p].beginAuthUrl.None? then Failure(StatusInternalServerError)
                   else Redirect(StatusTemporaryRedirect, providers[p].beginAuthUrl.value, None)
    ensures forall p :: ParseAuthPath(path) == Some(AuthRoute("callback", p)) ==>
              (p !in providers ==> r == Failure(StatusBadRequest)) &&
              (p in providers && providers[p].callback.MalformedQuery? ==> r == Panic) &&
              (p in providers && (providers[p].callback.CompleteAuthFailed? || providers[p].callback.GetUserFailed?) ==>
                 r == Failure(StatusInternalServerError))
    ensures r.Panic? ==> ParseAuthPath(path).Some? && ParseAuthPath(path).value.action == "callback"
    ensures r.Redirect? ==> r.status == StatusTemporaryRedirect
    ensures r.Redirect? && r.setCookie.Some? ==>
              r.location == "/chat" && ParseAuthPath(path).Some? && ParseAuthPath(path).value.action == "callback"
    ensures !r.Fatal?
  {
    match ParseAuthPath(path)
    case None => Failure(StatusNotFound)
    case Some(route) =>
      if route.action == "login" then
        if route.provider !in providers then Failure(StatusBadRequest)
        else
          match providers[route.provider].beginAuthUrl
          case None => Failure(StatusInternalServerError)
          case Some(url) => Redirect(StatusTemporaryRedirect, url, None)
      else if route.action == "callback" then
        if route.provider !in providers then Failure(StatusBadRequest)
        else
          match providers[route.provider].callback
          case MalformedQuery => Panic
          case CompleteAuthFailed => Failure(StatusInternalServerError)
          case GetUserFailed => Failure(StatusInternalServerError)
          case Authenticated(user) =>
            var userId := UserId(digest, user.email);
            var chatUser := LoginChatUser(user);
            Avatars.ConfiguredAvatarsResolve(chatUser, avatarsDir);
            match Avatars.TryAvatars(Avatars.ConfiguredAvatars, chatUser, avatarsDir)
            case ErrNoAvatarUrl => Fatal
            case Url(avatarUrl) =>
              Redirect(StatusTemporaryRedirect, "/chat",
                       Some(SetCookie("auth", "/", AuthCookie(userId, user.name, avatarUrl))))
      else Failure(StatusNotFound)
  }

  /**
   * A successful callback sets the `auth` cookie holding the user id, the
   * user's name and the avatar URL of the configured chain, and redirects to
   * `/chat`.
   */
  lemma CallbackSetsCookie(path: string, provider: string, providers: map<string, Provider>,
                           digest: string -> string, avatarsDir: Avatars.Listing, user: User)
    requires ParseAuthPath(path) == Some(AuthRoute("callback", provider))
    requires provider in providers && providers[provider].callback == Authenticated(user)
    ensures var avatar := Avatars.TryAvatars(Avatars.ConfiguredAvatars, LoginChatUser(user), avatarsDir);
            && avatar.Url?
            && LoginHandler(path, providers, digest, avatarsDir) ==
                 Redirect(StatusTemporaryRedirect, "/chat",
                          Some(SetCookie("auth", "/", AuthCookie(UserId(digest, user.email), user.name, avatar.url))))
  {
    Avatars.ConfiguredAvatarsResolve(LoginChatUser(user), avatarsDir);
  }

  /**
   * Because the login user's id is empty, the avatar URL in the cookie does
   * not depend on who logs in, beyond the provider's avatar URL: the first
   * file of the `avatars` directory whose name has no `/`, else the provider's
   * URL, else the bare Gravatar prefix.
   */
  lemma LoginAvatarIgnoresIdentity(user: User, avatarsDir: Avatars.Listing)
    ensures Avatars.TryAvatars(Avatars.ConfiguredAvatars, LoginChatUser(user), avatarsDir) ==
      if avatarsDir.Entries? && exists k :: 0 <= k < |avatarsDir.entries| && !avatarsDir.entries[k].isDir &&
                                            '/' !in avatarsDir.entries[k].name
      then Avatars.FileSystemAvatarUrl(LoginChatUser(user), avatarsDir)
      else if user.avatarUrl != "" then Avatars.Url(user.avatarUrl)
      else Avatars.Url(Avatars.GravatarPrefix)
  {
    var u := LoginChatUser(user);
    Avatars.ConfiguredAvatarsResolve(u, avatarsDir);
    if avatarsDir.Entries? {
      forall k | 0 <= k < |avatarsDir.entries|
        ensures Avatars.Eligible(avatarsDir.entries[k], "") <==>
                  !avatarsDir.entries[k].isDir && '/' !in avatarsDir.entries[k].name
      {
        var name := avatarsDir.entries[k].name;
        assert name[0..] == name;
      }
    }
    assert Avatars.GravatarPrefix + u.uniqueId == Avatars.GravatarPrefix;
  }
}
