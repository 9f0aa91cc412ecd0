/**
 * Avatar URL resolution of avatar.go: the three `Avatar` implementations
 * (the OAuth provider's URL, Gravatar, the `avatars` directory) and
 * `TryAvatars`, which asks a list of them in order and takes the first
 * success. The directory listing that `ioutil.ReadDir` would return is an
 * input.
 */
module Avatars {
  import opened Wrappers

  /** What the strategies ask of a user: `UniqueID()` and `AvatarURL()`. */
  datatype ChatUser = ChatUser(uniqueId: string, avatarUrl: string)

  /** The `(string, error)` result: a URL, or `ErrNoAvatarURL` (with the empty string). */
  datatype AvatarResult = Url(url: string) | ErrNoAvatarUrl

  /** One entry of a directory listing. */
  datatype DirEntry = DirEntry(name: string, isDir: bool)

  /** The outcome of reading the `avatars` directory. */
  datatype Listing = ReadError | Entries(entries: seq<DirEntry>)

  /** The `Avatar` implementations. */
  datatype Strategy = UseAuthAvatar | UseGravatarAvatar | UseFileSystemAvatar

  const GravatarPrefix: string := "https://www.gravatar.com/avatar/"
  const AvatarsPrefix: string := "/avatars/"

  /** The `avatars` chain configured in main.go: the directory, then the provider's URL, then Gravatar. */
  const ConfiguredAvatars: seq<Strategy> := [UseFileSystemAvatar, UseAuthAvatar, UseGravatarAvatar]

  /** `AuthAvatar.GetAvatarURL`: the provider's URL, failing exactly when it is empty. */
  function AuthAvatarUrl(u: ChatUser): (r: AvatarResult)
    ensures r.ErrNoAvatarUrl? <==> u.avatarUrl == ""
    ensures r.Url? ==> r.url == u.avatarUrl
  {
    if |u.avatarUrl| == 0 then ErrNoAvatarUrl else Url(u.avatarUrl)
  }

  /** `GravatarAvatar.GetAvatarURL`: never fails; the URL is the Gravatar prefix followed by the id. */
  function GravatarAvatarUrl(u: ChatUser): (r: AvatarResult)
    ensures r.Url?
    ensures |r.url| == |GravatarPrefix| + |u.uniqueId|
    ensures r.url[..|GravatarPrefix|] == GravatarPrefix && r.url[|GravatarPrefix|..] == u.uniqueId
  {
    Url(GravatarPrefix + u.uniqueId)
  }

  /**
   * `path.Match(id + "*", name)` for an id without glob metacharacters: the
   * name starts with the id, and the `*` matches the rest, which holds no `/`.
   */
  predicate MatchesIdGlob(id: string, name: string): (b: bool)
    ensures b <==> exists rest :: name == id + rest && '/' !in rest
  {
    assert forall rest :: name == id + rest ==> name[..|id|] == id && name[|id|..] == rest;
    |id| <= |name| && name[..|id|] == id && '/' !in name[|id|..]
  }

  /** An entry the directory strategy accepts: a file whose name matches the id's glob. */
  predicate Eligible(e: DirEntry, id: string)
  {
    !e.isDir && MatchesIdGlob(id, e.name)
  }

  /** Position of the first eligible entry, if any: the scan loop over the listing. */
  function FirstEligible(entries: seq<DirEntry>, id: string): (r: Option<nat>)
    ensures r.Some? ==> r.value < |entries| && Eligible(entries[r.value], id)
    ensures r.Some? ==> forall j :: 0 <= j < r.value ==> !Eligible(entries[j], id)
    ensures r.None? ==> forall j :: 0 <= j < |entries| ==> !Eligible(entries[j], id)
  {
    if entries == [] then None
    else if Eligible(entries[0], id) then Some(0)
    else
      match FirstEligible(entries[1..], id)
      case None => None
      case Some(k) => Some(k + 1)
  }

  /**
   * `FileSystemAvatar.GetAvatarURL`: fails on a read error or when no file
   * matches; otherwise `/avatars/` followed by the first matching file's name,
   * directories skipped.
   */
  function FileSystemAvatarUrl(u: ChatUser, dir: Listing): (r: AvatarResult)
    ensures r.ErrNoAvatarUrl? <==>
              dir.ReadError? || forall j :: 0 <= j < |dir.entries| ==> !Eligible(dir.entries[j], u.uniqueId)
    ensures r.Url? ==>
              exists k :: 0 <= k < |dir.entries| && Eligible(dir.entries[k], u.uniqueId) &&
                (forall j :: 0 <= j < k ==> !Eligible(dir.entries[j], u.uniqueId)) &&
                r.url == AvatarsPrefix + dir.entries[k].name
  {
    match dir
    case ReadError => ErrNoAvatarUrl
    case Entries(entries) =>
      match FirstEligible(entries, u.uniqueId)
      case None => ErrNoAvatarUrl
      case Some(k) => Url(AvatarsPrefix + entries[k].name)
  }

  /** `GetAvatarURL` of one strategy. */
  function GetAvatarUrl(s: Strategy, u: ChatUser, dir: Listing): (r: AvatarResult)
    ensures r.ErrNoAvatarUrl? <==>
              (s.UseAuthAvatar? && u.avatarUrl == "") ||
              (s.UseFileSystemAvatar? && FileSystemAvatarUrl(u, dir).ErrNoAvatarUrl?)
  {
    match s
    case UseAuthAvatar => AuthAvatarUrl(u)
    case UseGravatarAvatar => GravatarAvatarUrl(u)
    case UseFileSystemAvatar => FileSystemAvatarUrl(u, dir)
  }

  /**
   * `TryAvatars.GetAvatarURL`: the result of the first strategy in the list
   * that succeeds; `ErrNoAvatarURL` when the list is empty or every strategy fails.
   */
  function TryAvatars(chain: seq<Strategy>, u: ChatUser, dir: Listing): (r: AvatarResult)
    ensures r.ErrNoAvatarUrl? <==> forall i :: 0 <= i < |chain| ==> GetAvatarUrl(chain[i], u, dir).ErrNoAvatarUrl?
    ensures r.Url? ==>
              exists i :: 0 <= i < |chain| && r == GetAvatarUrl(chain[i], u, dir) &&
                forall j :: 0 <= j < i ==> GetAvatarUrl(chain[j], u, dir).ErrNoAvatarUrl?
  {
    if chain == [] then ErrNoAvatarUrl
    else
      var first := GetAvatarUrl(chain[0], u, dir);
      if first.Url? then first
      else
        var rest := TryAvatars(chain[1..], u, dir);
        assert forall i :: 1 <= i < |chain| ==> chain[i] == chain[1..][i - 1];
        rest
  }

  /**
   * Later strategies are not consulted: trying `a + b` gives the result of
   * `a` when some strategy of `a` succeeds, and the result of `b` otherwise.
   */
  lemma {:induction false} TryAvatarsAppend(a: seq<Strategy>, b: seq<Strategy>, u: ChatUser, dir: Listing)
    ensures TryAvatars(a + b, u, dir) ==
              if TryAvatars(a, u, dir).Url? then TryAvatars(a, u, dir) else TryAvatars(b, u, dir)
  {
    if a == [] {
      assert a + b == b;
    } else {
      assert (a + b)[0] == a[0];
      assert (a + b)[1..] == a[1..] + b;
      TryAvatarsAppend(a[1..], b, u, dir);
    }
  }

  /**
   * The configured chain never fails. It gives the first matching file in the
   * directory if there is one, else the provider's URL if it is not empty,
   * else the Gravatar URL.
   */
  lemma ConfiguredAvatarsResolve(u: ChatUser, dir: Listing)
    ensures TryAvatars(ConfiguredAvatars, u, dir).Url?
    ensures TryAvatars(ConfiguredAvatars, u, dir) ==
              if FileSystemAvatarUrl(u, dir).Url? then FileSystemAvatarUrl(u, dir)
              else if u.avatarUrl != "" then Url(u.avatarUrl)
              else Url(GravatarPrefix + u.uniqueId)
  {
    var chain := ConfiguredAvatars;
    assert chain[1..] == [UseAuthAvatar, UseGravatarAvatar];
    assert chain[1..][1..] == [UseGravatarAvatar];
    assert TryAvatars(chain[1..][1..], u, dir) == GravatarAvatarUrl(u);
  }
}
