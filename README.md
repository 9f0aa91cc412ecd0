# Chat room server: hub, avatar resolution and login decisions

A Dafny model of the three pieces of the chat server that carry logic:

- **The room hub** (`ChatRoom`, room.go). A `Room` class holds the room's name,
  the set of current clients and, for every client created so far, its
  buffered `send` channel (the messages waiting in it and whether it was
  closed). One method per event of the hub's `run` loop: `Join`, `Leave` and
  `Forward`. The outcome of the database insert is an input to `Forward`.
  `NewClient` and `Connect` model the client creation and join of
  `ServeHTTP`; `Receive` is the receiving end of a client's channel. The
  room keeps a ghost trace of the events it processed. The functions
  `Members`, `Broadcast` and `Delivered` give the client set, the messages
  fanned out and each client's deliveries after a trace. `Room.Valid` ties
  the state to them:
  - every member's channel is open;
  - every channel holds the unreceived part of what was delivered to it;
  - no channel holds more than 256 messages.
  The lemmas state the hub's guarantees over all traces.
- **Avatar resolution** (`Avatars`, avatar.go). The three strategies (the
  provider's URL, Gravatar, the `avatars` directory) and the first-success
  chain `TryAvatars` are functions. The directory listing is an input.
- **Login decisions** (`Auth`, auth.go). The `auth` cookie gate, the path
  split and action dispatch of the login handler, and the cookie set after a
  successful callback are functions from request data to a response value.
  `Text` models Go's `strings.Split` with a one-character separator and
  `strings.ToLower`.

Behaviour of the code that the model keeps as written:

- When persistence fails, the code skips the fan-out (room.go:61-64), so
  nobody receives the message (`FailedPersistenceDeliversNothing`).
- A leave closes the client's channel unconditionally (room.go:57), and a
  second close panics in Go. So `Leave` requires the channel to be open. On
  the membership set alone a second leave changes nothing
  (`LeaveIdempotent`).
- The login user passed to the avatar chain never gets its unique id set
  (auth.go:101). The id computed at auth.go:102-104 goes only into the
  cookie. The model keeps the empty id (`LoginChatUser`), and
  `LoginAvatarIgnoresIdentity` states what follows from it.
- The cookie gate's branch for lookup errors other than a missing cookie
  (auth.go:46-49) cannot be reached, because `r.Cookie` returns no other
  error. `CookieLookup` therefore has only two cases.

`Room.Join` requires the joining client's channel to be open. `ServeHTTP`
always meets this: it joins a client right after creating its fresh
channel, and only the deferred leave closes it.

## Model

| member | source | states |
|---|---|---|
| `ChatRoom.Room.constructor` | room.go:37-46 | a new room has the given name, no clients, no channels and an empty trace, and satisfies the room invariant |
| `ChatRoom.Room.NewClient` | room.go:89-94 | a client created for a connection gets a fresh identity and an empty open channel; membership is unchanged |
| `ChatRoom.Room.Join` | room.go:52-53 | join adds exactly that client to the set; no channel changes; the invariant is kept |
| `ChatRoom.Room.Leave` | room.go:55-57 | leave removes the client (no-op on the set if absent) and marks only its channel closed; it requires the channel not to be closed already, since a double close panics |
| `ChatRoom.Room.Forward` | room.go:59-68 | persistence failed: no channel and no member changes; persisted: the message is appended once to the end of every member's channel, non-members untouched; every send needs room in the channel; the invariant is kept (members open, at most 256 buffered) |
| `ChatRoom.FanOut` | room.go:65-68 | the fan-out loop sends the message on each member's channel exactly once and leaves every other channel as it was; every member's channel must be open, since a send on a closed channel panics |
| `ChatRoom.Room.Receive` | room.go:91 | receiving from a buffered channel yields its oldest message and removes it; a closed, drained channel yields nothing; the invariant is kept |
| `ChatRoom.Room.Connect` | room.go:89-95 | a connection creates a fresh client with an empty open channel and makes it a member |
| `ChatRoom.TraceStep` | room.go:52-68 | a join adds its client, a leave removes it, a forward keeps the membership; only a persisted forward extends the broadcast sequence |
| `ChatRoom.DeliveredStep` | room.go:59-68 | one event delivers to a client exactly when it is a persisted forward and the client is a member, and then delivers just that message |
| `ChatRoom.MembershipClosure` | room.go:52-57 | a client is a member exactly when some join of it is followed by no leave of it |
| `ChatRoom.MembershipUnaffected` | room.go:52-57 | events that neither join nor leave a client leave its membership unchanged |
| `ChatRoom.DeliveryCompleteness` | room.go:59-68 | a client that is a member at each event receives exactly the persisted messages of those events, once each, in hub processing order |
| `ChatRoom.NonMembersReceiveNothing` | room.go:65-68 | a client that is not a member during a run of events receives nothing during it |
| `ChatRoom.ConnectionLifetime` | room.go:95-96 | between a connection's join and its deferred leave the client stays a member and receives exactly the persisted messages; after the leave it is not a member |
| `ChatRoom.FailedPersistenceDeliversNothing` | room.go:61-64 | a forward whose insert failed changes no membership, broadcasts nothing and delivers nothing |
| `ChatRoom.LeaveIdempotent` | room.go:55-56 | a repeated leave changes the membership no further |
| `Avatars.AuthAvatarUrl` | avatar.go:41-47 | fails with ErrNoAvatarURL exactly when the provider URL is empty; otherwise returns that URL unchanged |
| `Avatars.GravatarAvatarUrl` | avatar.go:53-55 | never fails; the URL is the Gravatar prefix followed by the unique id |
| `Avatars.GetAvatarUrl` | avatar.go:29 | one strategy of the chain fails exactly when it is the provider strategy with an empty provider URL, or the directory strategy finding no file; Gravatar never fails |
| `Avatars.MatchesIdGlob` | avatar.go:70 | a name matches the glob `id*` exactly when it is the id followed by a rest without `/` |
| `Avatars.FirstEligible` | avatar.go:66-73 | finds the first listing entry that is not a directory and matches the id glob; none is found exactly when no entry qualifies |
| `Avatars.FileSystemAvatarUrl` | avatar.go:61-75 | fails exactly on a read error or when no file entry matches; otherwise `/avatars/` plus the name of the first matching file, directories skipped |
| `Avatars.TryAvatars` | avatar.go:27-34 | fails exactly when every strategy fails (an empty list included); otherwise returns the result of a strategy all of whose predecessors failed |
| `Avatars.TryAvatarsAppend` | avatar.go:27-32 | strategies after the first success are not consulted: trying `a + b` gives `a`'s result if `a` succeeds, else `b`'s |
| `Avatars.ConfiguredAvatarsResolve` | main.go:22-26 | the configured chain (directory, provider, Gravatar) always succeeds: the first matching file, else the provider URL if non-empty, else the Gravatar URL |
| `Auth.AuthGate` | auth.go:40-53 | a missing or empty `auth` cookie gives a 307 redirect to `/login` and the wrapped handler is not called; exactly a non-empty cookie passes the request on |
| `Auth.ParseAuthPath` | auth.go:58-65 | a path gives no route (404) exactly when it holds fewer than three `/`; a route's action and provider contain no `/` (which segments they are: `ParseAuthPathSegments`) |
| `Auth.ParseAuthPathSegments` | auth.go:58-65 | a path made of four or more `/`-free segments yields segments 2 and 3; further segments are ignored |
| `Auth.ParseCallbackPath` | main.go:67 | the registered callback path `/auth/callback/google` yields action `callback` and provider `google` |
| `Auth.LoginHandler` | auth.go:57-124 | too few segments or an action other than `login`/`callback` gives 404; login: an unknown provider gives 400, a failed begin URL 500, otherwise a 307 to the begin URL with no cookie; callback: an unknown provider gives 400, a malformed raw query panics in `objx.MustFromURLQuery` before `CompleteAuth` (no response), a failed `CompleteAuth` or `GetUser` 500; only a callback can panic; every redirect is a 307; a cookie is set only by a callback redirecting to `/chat`; the handler never reaches the fatal exit |
| `Auth.CallbackSetsCookie` | auth.go:101-120 | a successful callback sets the `auth` cookie at path `/` with the user id, name and avatar URL of the configured chain, and redirects 307 to `/chat` |
| `Auth.UserId` | auth.go:102-104 | the user id is the digest of a capital-free string that equals the e-mail address up to letter case |
| `Auth.UserIdIgnoresCase` | auth.go:102-104 | e-mail addresses that differ only in letter case (equal at each position, or a capital against its small letter) give the same user id |
| `Auth.LoginChatUser` | auth.go:101 | the user passed to the avatar chain at login has an empty unique id and the provider's avatar URL |
| `Auth.LoginAvatarIgnoresIdentity` | auth.go:101-105 | at login the avatar URL is the first non-directory file of the `avatars` directory, else the provider URL, else the bare Gravatar prefix, whatever the user's e-mail address |
| `Text.Split` | auth.go:58 | splitting gives at least one piece and no piece contains the separator |
| `Text.SplitLength` | auth.go:58-59 | splitting gives one more piece than there are separators |
| `Text.JoinSplit` | auth.go:58 | joining the pieces with the separator gives back the original path |
| `Text.SplitJoin` | auth.go:58 | splitting the join of separator-free pieces gives back those pieces |
| `Text.LowerChar` | auth.go:103 | a lower-cased character is never a capital; a capital becomes the small letter at the same place in the alphabet; anything else is unchanged |
| `Text.ToLower` | auth.go:103 | lower-casing keeps the length, leaves no capital, keeps every non-capital character and turns each capital into its small letter |
| `Text.ToLowerIdentifiesCase` | auth.go:103 | two strings lower-case to the same string exactly when they differ only in letter case |

## Left out

- Goroutines, channel blocking and `select` fairness (room.go:50-51, 97-98; main.go:93). Each hub event is one method call chosen by the caller.
- `ChatRoom.Room.Forward`: a send on a full channel blocks in Go. The model states room in every member's channel as a precondition instead.
- `ChatRoom.Room.Receive`: a receive on an empty open channel blocks in Go. The model excludes that case by its precondition.
- The websocket upgrade, the `auth` cookie read and their `log.Fatal` exits in `ServeHTTP` (room.go:79-88). These are I/O and process exits.
- The decoding of the cookie into `userData` (room.go:93). The hub never reads it.
- The client pumps `read` and `write`: client.go is not part of this model. Only the channel receive that `write` performs is modelled.
- Tracer output (room.go:54, 58, 60, 62, 67) is logging only.
- The database: the outcome of `coll.Insert` is an input. Messages are opaque values, because their type lives in a file that is not part of this model.
- `Avatars.MatchesIdGlob`: `path.Match(id + "*", name)` is reduced to "the name starts with the id and the rest holds no `/`". Glob metacharacters inside an id are treated literally.
- Nested `TryAvatars` lists (a chain inside a chain) are not modelled. A chain holds the three concrete strategies.
- `ioutil.ReadDir` is replaced by an input listing, read error included. `ReadDir` returns the entries sorted by name, so in the source "the first matching file" is the first by name; the model accepts a listing in any order, which includes the sorted one.
- The gomniauth provider lookup, begin URL, `CompleteAuth` and `GetUser` (auth.go:68-100) are foreign calls, and so is the query parse of `objx.MustFromURLQuery` (auth.go:89). Their outcomes are inputs.
- `Auth.UserId`: the MD5 hex digest is a function parameter. Only "the id is a function of the lower-cased e-mail address" is modelled.
- `Text.ToLower` lower-cases ASCII letters only. Go's `strings.ToLower` also maps non-ASCII letters.
- `Text.LowerChar` leaves a non-ASCII capital such as `É` unchanged, where Go lowers it.
- `Auth.UserIdIgnoresCase`: "differ only in letter case" means ASCII letter case, for the same reason.
- Response bodies, error message texts, header writes and the base64 encoding of the cookie value (auth.go:109-113) are not modelled.
- The `log.Fatalln` after a failed avatar lookup (auth.go:106-108) is modelled as a `Fatal` response, and it is proved unreachable.
- main.go as a whole: route registration, flags, environment variables, template loading, static files and the logout cookie. It is wiring.
