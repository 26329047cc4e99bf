/**
 * The request guard, as a function of the path and the session cookie (the
 * route matcher that decides which requests reach it is not part of this
 * model): static assets, the session API, public pages and problem pages
 * pass; the profile and settings pages need a session cookie, and without one
 * the visitor is sent to the home page with the sign-in dialog open. Only the
 * presence of the cookie is checked, not its validity.
 */
module Middleware {
  import opened Text
  import opened Types

  /** The answer of the guard: let the request through, or redirect to `path` with the query parameters `query`, in order. */
  datatype Decision = Next | Redirect(path: string, query: seq<(string, string)>)

  const AssetExtensions: seq<string> :=
    ["ico", "png", "jpg", "jpeg", "svg", "css", "js", "json", "webmanifest", "txt", "map", "woff2", "woff"]
  const PublicRoutes: seq<string> := ["/", "/problems", "/api/auth/session", "/not-found"]
  const PublicApiPrefix := "/api/auth/session"

  /** The asset pattern: a dot, one of the extensions in any letter case, at the very end. */
  predicate HasAssetExtension(pathname: string)
  {
    exists i :: 0 <= i < |AssetExtensions| && EndsWith(Lower(pathname), "." + AssetExtensions[i])
  }

  /** Step 1: Next.js internals, static files and asset files. */
  predicate IsAsset(pathname: string)
  {
    StartsWith(pathname, "/_next/") || StartsWith(pathname, "/static/") || HasAssetExtension(pathname)
  }

  /** Step 3: the listed public pages and every problem page. */
  predicate IsPublicRoute(pathname: string)
  {
    pathname in PublicRoutes || StartsWith(pathname, "/problems/")
  }

  /** Step 4: the pages behind sign-in. */
  predicate IsProtected(pathname: string)
  {
    StartsWith(pathname, "/profile") || StartsWith(pathname, "/settings")
  }

  /** `middleware`: the decision for a request to `pathname` carrying the `session` cookie value `sessionCookie`. */
  function Decide(pathname: string, sessionCookie: Option<string>): (d: Decision)
    ensures d.Redirect? ==> IsProtected(pathname) && !Truthy(sessionCookie)
    ensures d.Redirect? ==> d == Redirect("/", [("auth", "true"), ("redirectedFrom", pathname)])
  {
    if IsAsset(pathname) then Next
    else if StartsWith(pathname, PublicApiPrefix) then Next
    else if IsPublicRoute(pathname) then Next
    else if IsProtected(pathname) then
      if !Truthy(sessionCookie) then Redirect("/", [("auth", "true"), ("redirectedFrom", pathname)])
      else Next
    else Next
  }

  /** Assets, the session API and public pages pass whatever the cookie. */
  lemma OpenPathsPass(pathname: string, sessionCookie: Option<string>)
    requires IsAsset(pathname) || StartsWith(pathname, PublicApiPrefix) || IsPublicRoute(pathname)
    ensures Decide(pathname, sessionCookie) == Next
  {
  }

  /** Any request with a non-empty session cookie passes. */
  lemma CookiePasses(pathname: string, sessionCookie: Option<string>)
    requires Truthy(sessionCookie)
    ensures Decide(pathname, sessionCookie) == Next
  {
  }

  /** A protected page that is not an asset file is redirected exactly when there is no session cookie. */
  lemma ProtectedNeedsCookie(pathname: string, sessionCookie: Option<string>)
    requires IsProtected(pathname) && !IsAsset(pathname)
    ensures Decide(pathname, sessionCookie).Redirect? <==> !Truthy(sessionCookie)
  {
    var lead := if StartsWith(pathname, "/profile") then "/profile" else "/settings";
    PrefixClash(pathname, lead, PublicApiPrefix, 1);
    PrefixClash(pathname, lead, "/problems/", if lead == "/profile" then 4 else 1);
    PrefixClash(pathname, lead, "/problems", if lead == "/profile" then 4 else 1);
    PrefixClash(pathname, lead, "/not-found", 1);
    assert pathname != "/";
  }

  /** A string that starts with `a` cannot start with `b` when they differ at a position within both. */
  lemma PrefixClash(s: string, a: string, b: string, i: nat)
    requires StartsWith(s, a) && i < |a| && i < |b| && a[i] != b[i]
    ensures !StartsWith(s, b) && s != b
  {
    assert s[i] == a[i];
  }

  /** The asset test comes first, so a protected path ending in an asset extension passes without a cookie. */
  lemma ProtectedAssetPasses()
    ensures IsProtected("/profile/avatar.PNG")
    ensures Decide("/profile/avatar.PNG", None) == Next
  {
    var p := "/profile/avatar.PNG";
    assert StartsWith(p, "/profile");
    assert Lower(p)[|p| - 4..] == ".png" == "." + AssetExtensions[1];
    assert HasAssetExtension(p);
  }
}
