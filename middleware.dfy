/** The route guard of middleware.ts: requests that reach it without a
    session and ask for a protected page are sent to the sign-in page; the
    `matcher` decides which requests reach it at all. */
module Middleware {

  import Text

  /** The anchored patterns `/^\/shipping-address/` ... `/^\/admin/`, as the
      literal prefixes they match. */
  const PROTECTED_PREFIXES: seq<string> :=
    ["/shipping-address", "/payment-method", "/place-order", "/profile", "/user/", "/order/", "/admin"]

  /** `patterns.some((p) => p.test(path))` for anchored literal patterns. */
  function SomePrefix(prefixes: seq<string>, path: string): (r: bool)
    ensures r <==> exists i :: 0 <= i < |prefixes| && prefixes[i] <= path
  {
    if prefixes == [] then false
    else if prefixes[0] <= path then true
    else
      assert forall i :: 1 <= i < |prefixes| ==> prefixes[i] == prefixes[1..][i - 1];
      SomePrefix(prefixes[1..], path)
  }

  predicate IsProtected(path: string) {
    SomePrefix(PROTECTED_PREFIXES, path)
  }

  /** The parts of a request URL the guard reads or keeps. */
  datatype Url = Url(origin: string, pathname: string, search: string, hash: string)

  datatype Decision = RedirectTo(url: Url) | Next

  /** The middleware: no session and a protected path give a redirect to
      the same URL with its path replaced by "/sign-in"; everything else
      passes through. */
  function Guard(url: Url, signedIn: bool): (d: Decision)
    ensures d.RedirectTo? <==> !signedIn && IsProtected(url.pathname)
    ensures d.RedirectTo? ==> d.url == url.(pathname := "/sign-in")
  {
    if !signedIn && IsProtected(url.pathname) then RedirectTo(url.(pathname := "/sign-in")) else Next
  }

  /** `config.matcher`, `/((?!_next/static|_next/image|favicon.ico|api).*)`:
      every path except those whose text after the leading slash starts
      with one of the four alternatives. The `.` of `favicon.ico` is a
      regular-expression wildcard. */
  predicate Matched(path: string) {
    |path| >= 1 && path[0] == '/' && !ExcludedHead(path[1..])
  }

  predicate ExcludedHead(rest: string) {
    || "_next/static" <= rest
    || "_next/image" <= rest
    || (|rest| >= 11 && rest[..7] == "favicon" && rest[8..11] == "ico")
    || "api" <= rest
  }

  /** What a request meets: the guard if the matcher sends it there,
      otherwise nothing. */
  function Route(url: Url, signedIn: bool): (d: Decision)
    ensures !Matched(url.pathname) ==> d == Next
    ensures Matched(url.pathname) ==> d == Guard(url, signedIn)
  {
    if Matched(url.pathname) then Guard(url, signedIn) else Next
  }

  /** The anchored prefixes at work: "/orders" is open, "/order/x" is not,
      and "/administrator" is caught by "/admin". */
  lemma PrefixConsequences()
    ensures !IsProtected("/orders")
    ensures IsProtected("/order/x")
    ensures IsProtected("/administrator")
    ensures !IsProtected("/sign-in")
  {
    assert "/order/" <= "/order/x";
    assert "/admin" <= "/administrator";
    forall i | 0 <= i < |PROTECTED_PREFIXES| ensures !(PROTECTED_PREFIXES[i] <= "/orders") {
      if i == 5 {
        DiffersAt(PROTECTED_PREFIXES[i], "/orders", 6);
      } else {
        DiffersAt(PROTECTED_PREFIXES[i], "/orders", 1);
      }
    }
    forall i | 0 <= i < |PROTECTED_PREFIXES| ensures !(PROTECTED_PREFIXES[i] <= "/sign-in") {
      if i == 0 {
        DiffersAt(PROTECTED_PREFIXES[i], "/sign-in", 2);
      } else {
        DiffersAt(PROTECTED_PREFIXES[i], "/sign-in", 1);
      }
    }
  }

  /** Two texts that differ at position `k` are not prefix and text. */
  lemma DiffersAt(p: string, s: string, k: nat)
    requires k < |p| && k < |s| && p[k] != s[k]
    ensures !(p <= s)
  {
  }

  /** The redirect lands on a page the guard lets through, so it cannot
      loop. */
  lemma RedirectTargetIsOpen(url: Url, signedIn: bool)
    requires Guard(url, signedIn).RedirectTo?
    ensures Guard(Guard(url, signedIn).url, signedIn) == Next
  {
    PrefixConsequences();
  }

  /** API routes, framework assets and the icon never meet the guard, not
      even protected-looking ones; "api" excludes "/apiary" too. */
  lemma MatcherExclusions(url: Url, signedIn: bool)
    requires url.pathname in {"/api/auth/session", "/apiary", "/favicon.ico", "/_next/static/chunk.js"}
    ensures Route(url, signedIn) == Next
  {
    var rest := url.pathname[1..];
    if url.pathname == "/api/auth/session" {
      assert rest[..3] == "api";
    } else if url.pathname == "/apiary" {
      assert rest[..3] == "api";
    } else if url.pathname == "/favicon.ico" {
      assert rest[..7] == "favicon" && rest[8..11] == "ico";
    } else {
      assert rest[..12] == "_next/static";
    }
  }

  /** A protected page behind the matcher is guarded. */
  lemma AdminIsGuarded(url: Url)
    requires url.pathname == "/admin/orders"
    ensures Route(url, false) == RedirectTo(url.(pathname := "/sign-in"))
  {
    var rest := url.pathname[1..];
    assert PROTECTED_PREFIXES[6] <= url.pathname;
    assert url.pathname[0] == '/' && rest == "admin/orders";
    DiffersAt("_next/static", rest, 0);
    DiffersAt("_next/image", rest, 0);
    DiffersAt("api", rest, 1);
    DiffersAt("favicon", rest[..7], 0);
  }
}
