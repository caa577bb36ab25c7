/** The language-prefix middleware: a request path that starts with
    `/<lang>/` for a configured language other than the default is
    redirected to the same path under `/<default>/`; every other path is
    handed on unchanged. */
module LanguageRedirect {
  import opened PyValues

  /** `LANGUAGES_KEYS` and `LANGUAGE_CODE` of the shipped settings. */
  const LANGUAGE_KEYS: seq<string> := ["en", "cs"]
  const DEFAULT_LANGUAGE: string := "en"

  datatype Response = PassThrough | Redirect(location: string)

  /** The anchored pattern `^/(k1|k2|...)/`: the first key, in alternation
      order, for which the path starts with `/key/`. */
  function MatchPrefix(keys: seq<string>, path: string): (r: Option<string>)
    ensures r.Some? ==> r.value in keys && ['/'] + r.value + ['/'] <= path
    ensures r.None? <==> forall k :: k in keys ==> !(['/'] + k + ['/'] <= path)
  {
    if keys == [] then None
    else if ['/'] + keys[0] + ['/'] <= path then Some(keys[0])
    else MatchPrefix(keys[1..], path)
  }

  /** `EnforceLanguageMiddleware.__call__`, for given keys and default. */
  function Handle(keys: seq<string>, default: string, path: string): (resp: Response)
    ensures MatchPrefix(keys, path).None? ==> resp == PassThrough
    ensures MatchPrefix(keys, path) == Some(default) ==> resp == PassThrough
    ensures resp.Redirect? <==> MatchPrefix(keys, path).Some? && MatchPrefix(keys, path).value != default
    ensures resp.Redirect? ==>
              var lang := MatchPrefix(keys, path).value;
              && path == ['/'] + lang + ['/'] + path[|lang| + 2..]
              && resp.location == ['/'] + default + ['/'] + path[|lang| + 2..]
  {
    match MatchPrefix(keys, path)
    case None => PassThrough
    case Some(lang) =>
      if lang == default then PassThrough
      else Redirect(['/'] + default + ['/'] + path[|lang| + 2..])
  }

  /** The middleware as configured. */
  function Enforce(path: string): Response {
    Handle(LANGUAGE_KEYS, DEFAULT_LANGUAGE, path)
  }

  /** A redirect lands on a path the middleware then lets through, so a
      client is redirected at most once. */
  lemma RedirectTargetPassesThrough(path: string)
    requires Enforce(path).Redirect?
    ensures Enforce(Enforce(path).location) == PassThrough
  {
    var loc := Enforce(path).location;
    assert ['/'] + "en" + ['/'] <= loc;
  }

  /** A bare `/cs` with no trailing slash is not a language prefix. */
  lemma BarePrefixNotMatched()
    ensures Enforce("/cs") == PassThrough
    ensures Enforce("/cs/manga") == Redirect("/en/manga")
  {
    assert (['/'] + "en" + ['/'])[1] != "/cs/manga"[1];
    assert ['/'] + "cs" + ['/'] == "/cs/manga"[..4];
  }
}
