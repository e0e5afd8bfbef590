/**
 * The entry point's routing: the base URL the application is served under,
 * normalised to end in a slash, and the choice between the domestic and the
 * international view from the location's hash and path. The location is
 * read from the browser; here `hash` and `pathname` are parameters.
 */
module Routing {
  import opened Wrappers
  import opened Text

  datatype Route = Domestic | International

  /** `(BASE_URL ?? '/').replace(/\/?$/, '/')`: one slash appended unless
      the text already ends in one. */
  function NormalizeBase(base: Option<string>): (r: string)
    ensures EndsWith(r, "/")
    ensures var b := base.GetOr("/"); if EndsWith(b, "/") then r == b else r == b + "/"
  {
    var b := base.GetOr("/");
    if |b| > 0 && b[|b| - 1] == '/' then b else b + "/"
  }

  /** A normalised base is normalised already. */
  lemma NormalizeBaseIdempotent(base: Option<string>)
    ensures NormalizeBase(Some(NormalizeBase(base))) == NormalizeBase(base)
  {
  }

  /** `hash.replace(/^#/, '')`: one leading `#` removed. */
  function StripHash(hash: string): (r: string)
    ensures StartsWith(hash, "#") ==> "#" + r == hash
    ensures !StartsWith(hash, "#") ==> r == hash
  {
    if |hash| > 0 && hash[0] == '#' then hash[1..] else hash
  }

  /** The hash, lower-cased, names the international view. */
  predicate HashSelects(hash: string) {
    var hashPath := Lower(StripHash(hash));
    StartsWith(hashPath, "/international") || hashPath == "international"
  }

  /** The path below the base: after `baseUrl` when the path starts with it,
      else after the path's first character. */
  function RelativePath(pathname: string, baseUrl: string): (r: string)
    ensures StartsWith(pathname, baseUrl) ==> baseUrl + r == pathname
    ensures !StartsWith(pathname, baseUrl) && pathname != "" ==> [pathname[0]] + r == pathname
    ensures pathname == "" ==> r == ""
  {
    if StartsWith(pathname, baseUrl) then pathname[|baseUrl|..]
    else if pathname == "" then ""
    else pathname[1..]
  }

  /** The path below the base, lower-cased, starts with `international`. */
  predicate PathSelects(pathname: string, baseUrl: string) {
    StartsWith(Lower(RelativePath(pathname, baseUrl)), "international")
  }

  /** `resolveRoute`. */
  function ResolveRoute(hash: string, pathname: string, baseUrl: string): Route {
    if HashSelects(hash) then International
    else if PathSelects(pathname, baseUrl) then International
    else Domestic
  }

  /** The international view is chosen by the hash or else by the path,
      and the domestic view in every other case. */
  lemma ResolveRouteSpec(hash: string, pathname: string, baseUrl: string)
    ensures ResolveRoute(hash, pathname, baseUrl) == International <==>
              HashSelects(hash) || PathSelects(pathname, baseUrl)
    ensures HashSelects(hash) ==>
              forall other :: ResolveRoute(hash, other, baseUrl) == International
  {
  }

  lemma LowerOfStripped(hash: string)
    ensures Lower(StripHash(Upper(hash))) == Lower(StripHash(hash))
  {
    CaseFolding(hash);
    if |hash| > 0 && hash[0] == '#' {
      assert Upper(hash)[0] == '#';
      assert Upper(hash)[1..] == Upper(hash[1..]);
      CaseFolding(hash[1..]);
    } else if |hash| > 0 {
      assert Upper(hash)[0] != '#';
    }
  }

  /** The hash is read without regard to letter case. */
  lemma HashIgnoresCase(hash: string, pathname: string, baseUrl: string)
    ensures ResolveRoute(Upper(hash), pathname, baseUrl) == ResolveRoute(hash, pathname, baseUrl)
  {
    LowerOfStripped(hash);
  }

  /** A path below the base that starts with `international` in any letter
      case selects the international view, whatever the hash. */
  lemma PathBelowBase(hash: string, baseUrl: string, section: string, rest: string)
    requires Lower(section) == "international"
    ensures ResolveRoute(hash, baseUrl + section + rest, baseUrl) == International
  {
    var pathname := baseUrl + section + rest;
    assert pathname[..|baseUrl|] == baseUrl;
    assert RelativePath(pathname, baseUrl) == section + rest;
    assert Lower(section + rest)[..|section|] == Lower(section);
  }

  /** A hash `#/international...` in any letter case selects the
      international view, whatever the path. */
  lemma HashRoute(section: string, rest: string, pathname: string, baseUrl: string)
    requires Lower(section) == "/international"
    ensures ResolveRoute("#" + section + rest, pathname, baseUrl) == International
  {
    var hash := "#" + section + rest;
    assert StripHash(hash) == section + rest;
    assert Lower(section + rest)[..|section|] == Lower(section);
  }

  /** The application's root, with no hash, is the domestic view. */
  lemma RootIsDomestic(baseUrl: string)
    ensures ResolveRoute("", baseUrl, baseUrl) == Domestic
  {
    assert baseUrl[..|baseUrl|] == baseUrl;
    assert RelativePath(baseUrl, baseUrl) == "";
    assert Lower("") == "";
  }
}
