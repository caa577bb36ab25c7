/** API authentication by header: `Authorization: Bearer <token>` is
    accepted only with that exact, case-sensitive prefix and one space
    (stricter than the Bearer scheme of section 2.1 of RFC 6750, which
    allows any case and more whitespace); the token is the rest of the
    header with surrounding whitespace stripped, and it must belong to a
    stored user profile. */
module UserUtils {
  import opened PyValues
  import MangaUtils

  const BEARER_PREFIX: string := "Bearer "

  /** One stored `UserProfile`: its token and the user it belongs to. */
  datatype Profile = Profile(token: string, user: nat)

  /** The shared header check and token extraction: None for a missing or
      empty header and for one without the exact prefix. */
  function ExtractToken(header: Option<string>): (t: Option<string>)
    ensures header.None? || header == Some([]) ==> t.None?
    ensures t.Some? <==> header.Some? && BEARER_PREFIX <= header.value
    ensures t.Some? ==> t.value == MangaUtils.Strip(header.value[|BEARER_PREFIX|..], MangaUtils.IsSpace)
    ensures t.Some? ==> t.value == [] || (!MangaUtils.IsSpace(t.value[0]) && !MangaUtils.IsSpace(t.value[|t.value| - 1]))
  {
    if header.None? || header.value == [] || !(BEARER_PREFIX <= header.value) then None
    else Some(MangaUtils.Strip(header.value[|BEARER_PREFIX|..], MangaUtils.IsSpace))
  }

  /** The first stored profile holding `token`, as `.filter(...).first()`. */
  function FirstProfile(profiles: seq<Profile>, token: string): (r: Option<nat>)
    ensures r.Some? ==> r.value < |profiles| && profiles[r.value].token == token
    ensures r.Some? ==> forall j :: 0 <= j < r.value ==> profiles[j].token != token
    ensures r.None? <==> forall j :: 0 <= j < |profiles| ==> profiles[j].token != token
  {
    if profiles == [] then None
    else if profiles[0].token == token then Some(0)
    else match FirstProfile(profiles[1..], token)
      case None => None
      case Some(k) => Some(k + 1)
  }

  /** `validate_token`. */
  function ValidateToken(header: Option<string>, profiles: seq<Profile>): (ok: bool)
    ensures ok <==> ExtractToken(header).Some? && exists j :: 0 <= j < |profiles| && profiles[j].token == ExtractToken(header).value
  {
    match ExtractToken(header)
    case None => false
    case Some(token) => FirstProfile(profiles, token).Some?
  }

  /** `get_user_by_token`: None for a malformed header; the first matching
      profile's user otherwise. A well-formed header with an unknown token
      reads `.user` on None and raises AttributeError. */
  function GetUserByToken(header: Option<string>, profiles: seq<Profile>): (r: Result<Option<nat>>)
    ensures ExtractToken(header).None? ==> r == Ok(None)
    ensures ExtractToken(header).Some? && FirstProfile(profiles, ExtractToken(header).value).None? ==> r == Err(AttributeError)
    ensures r.Ok? && r.value.Some? ==>
              exists j :: 0 <= j < |profiles| && profiles[j].token == ExtractToken(header).value && profiles[j].user == r.value.value
  {
    match ExtractToken(header)
    case None => Ok(None)
    case Some(token) =>
      (match FirstProfile(profiles, token)
       case None => Err(AttributeError)
       case Some(k) => Ok(Some(profiles[k].user)))
  }

  /** The two entry points agree: a header validates exactly when the user
      lookup finds someone, and a header that does not validate either is
      malformed (None) or makes the lookup raise. */
  lemma ValidateMatchesLookup(header: Option<string>, profiles: seq<Profile>)
    ensures ValidateToken(header, profiles) <==> GetUserByToken(header, profiles).Ok? && GetUserByToken(header, profiles).value.Some?
    ensures !ValidateToken(header, profiles) ==> GetUserByToken(header, profiles) in {Ok(None), Err(AttributeError)}
  {
  }
}
