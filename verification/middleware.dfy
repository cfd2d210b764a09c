/**
 * The route guard run on every matched request: public paths and requests
 * that carry a `user_id` cookie pass through; everything else is redirected
 * to `/home`.
 */
module Middleware {
  import JsText

  /** The paths listed as not requiring authentication. */
  const PublicPaths: seq<string> := ["/", "/home", "/api/user"]

  const HomePath: string := "/home"

  /** `publicPaths.some(path => pathname === path || pathname.startsWith('/api/'))`. */
  function AnyPublicMatch(paths: seq<string>, pathname: string): bool {
    if |paths| == 0 then false
    else pathname == paths[0] || JsText.StartsWith(pathname, "/api/") || AnyPublicMatch(paths[1..], pathname)
  }

  /** A path needs no authentication exactly when it is `/`, `/home`, `/api/user` or under `/api/`. */
  function IsPublicPath(pathname: string): (r: bool)
    ensures r <==> pathname == "/" || pathname == "/home" || pathname == "/api/user"
                   || JsText.StartsWith(pathname, "/api/")
  {
    var api := JsText.StartsWith(pathname, "/api/");
    assert PublicPaths[1..] == ["/home", "/api/user"] && PublicPaths[1..][1..] == ["/api/user"];
    assert AnyPublicMatch(["/api/user"], pathname) == (pathname == "/api/user" || api) by {
      assert ["/api/user"][1..] == [];
    }
    assert AnyPublicMatch(["/home", "/api/user"], pathname)
        == (pathname == "/home" || api || AnyPublicMatch(["/api/user"], pathname));
    assert AnyPublicMatch(PublicPaths, pathname)
        == (pathname == "/" || api || AnyPublicMatch(["/home", "/api/user"], pathname));
    AnyPublicMatch(PublicPaths, pathname)
  }

  datatype Decision = Redirect(location: string) | Next

  /** `middleware(request)`: `hasUserCookie` tells whether the request carries a `user_id` cookie. */
  function Guard(pathname: string, hasUserCookie: bool): (d: Decision)
    ensures d.Redirect? <==> !IsPublicPath(pathname) && !hasUserCookie
    ensures d.Redirect? ==> d.location == HomePath
  {
    if !IsPublicPath(pathname) && !hasUserCookie then Redirect(HomePath) else Next
  }

  /** A request with a `user_id` cookie is never redirected. */
  lemma CookiePassesThrough(pathname: string)
    ensures Guard(pathname, true) == Next
  {
  }

  /** The redirect target is itself public, so following the redirect is never redirected again. */
  lemma RedirectTargetPasses(pathname: string, hasUserCookie: bool)
    ensures var d := Guard(pathname, hasUserCookie);
      d.Redirect? ==> Guard(d.location, hasUserCookie) == Next
  {
  }

  /** Listing `/api/user` adds nothing: for every path, the `/api/` prefix rule already decides the same. */
  lemma ApiUserCoveredByPrefix(pathname: string)
    ensures AnyPublicMatch(PublicPaths, pathname) == AnyPublicMatch(["/", "/home"], pathname)
  {
    var api := JsText.StartsWith(pathname, "/api/");
    assert AnyPublicMatch(["/home"], pathname) == (pathname == "/home" || api) by {
      assert ["/home"][1..] == [];
    }
    assert AnyPublicMatch(["/", "/home"], pathname)
        == (pathname == "/" || api || AnyPublicMatch(["/home"], pathname)) by {
      assert ["/", "/home"][1..] == ["/home"];
    }
    assert pathname == "/api/user" ==> api by {
      assert "/api/user"[..5] == "/api/";
    }
    assert IsPublicPath(pathname) == AnyPublicMatch(PublicPaths, pathname);
  }

  /** Every chat page requested without the cookie is redirected home. */
  lemma ChatPageRedirectsWithoutCookie(id: string)
    ensures Guard("/chats/" + id, false) == Redirect("/home")
  {
    var p := "/chats/" + id;
    assert p[1] == 'c';
    assert p != "/" && p != "/home" && p != "/api/user" by {
      assert "/home"[1] == 'h' && "/api/user"[1] == 'a';
    }
    assert !JsText.StartsWith(p, "/api/") by {
      assert |p| >= 5 ==> p[..5][1] == 'c';
    }
  }
}
