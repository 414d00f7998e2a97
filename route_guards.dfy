/** The part of a request URL the guards read and rewrite: the path and
    the query parameters, with `searchParams.set` and `get`. */
module Urls {
  import opened Wrappers

  /** A path and its query parameters in order (a key may repeat). */
  datatype Url = Url(pathname: string, params: seq<(string, string)>)

  /** The parameters whose key is not `k`, in order. */
  function DropKey(ps: seq<(string, string)>, k: string): (r: seq<(string, string)>)
    ensures forall i :: 0 <= i < |r| ==> r[i].0 != k
    ensures forall p :: p in r <==> p in ps && p.0 != k
  {
    if ps == [] then []
    else if ps[0].0 == k then DropKey(ps[1..], k)
    else [ps[0]] + DropKey(ps[1..], k)
  }

  /** `searchParams.get(k)`: the value of the first parameter with that key. */
  function GetParam(ps: seq<(string, string)>, k: string): (r: Option<string>)
    ensures r.None? <==> forall i :: 0 <= i < |ps| ==> ps[i].0 != k
  {
    if ps == [] then None
    else if ps[0].0 == k then Some(ps[0].1)
    else GetParam(ps[1..], k)
  }

  /** `searchParams.set(k, v)`: the first parameter with that key takes the
      value and the later ones are removed; without one the pair is appended. */
  function SetParam(ps: seq<(string, string)>, k: string, v: string): (r: seq<(string, string)>)
    ensures GetParam(r, k) == Some(v)
    ensures forall i, j :: 0 <= i < j < |r| && r[i].0 == k ==> r[j].0 != k
    ensures DropKey(r, k) == DropKey(ps, k)
    ensures (forall i :: 0 <= i < |ps| ==> ps[i].0 != k) ==> r == ps + [(k, v)]
  {
    if ps == [] then [(k, v)]
    else if ps[0].0 == k then
      SetAtHead(ps, k, v);
      [(k, v)] + DropKey(ps[1..], k)
    else
      var tail := SetParam(ps[1..], k, v);
      SetBehindHead(ps, k, v, tail);
      AppendBehindHead(ps, k, v, tail);
      [ps[0]] + tail
  }

  /** Where another key comes first, it stays in front of the updated rest. */
  lemma SetBehindHead(ps: seq<(string, string)>, k: string, v: string, tail: seq<(string, string)>)
    requires ps != [] && ps[0].0 != k
    requires GetParam(tail, k) == Some(v)
    requires forall i, j :: 0 <= i < j < |tail| && tail[i].0 == k ==> tail[j].0 != k
    requires DropKey(tail, k) == DropKey(ps[1..], k)
    ensures var r := [ps[0]] + tail;
      && GetParam(r, k) == Some(v)
      && (forall i, j :: 0 <= i < j < |r| && r[i].0 == k ==> r[j].0 != k)
      && DropKey(r, k) == DropKey(ps, k)
  {
    var r := [ps[0]] + tail;
    assert r[1..] == tail;
    forall i, j | 0 <= i < j < |r| && r[i].0 == k
      ensures r[j].0 != k
    {
      assert r[i] == tail[i - 1] && r[j] == tail[j - 1];
    }
  }

  /** With the key absent, the updated rest behind the first pair is the list with the pair appended. */
  lemma AppendBehindHead(ps: seq<(string, string)>, k: string, v: string, tail: seq<(string, string)>)
    requires ps != []
    requires (forall i :: 1 <= i < |ps| ==> ps[i].0 != k) ==> tail == ps[1..] + [(k, v)]
    ensures (forall i :: 0 <= i < |ps| ==> ps[i].0 != k) ==> [ps[0]] + tail == ps + [(k, v)]
  {
    if forall i :: 0 <= i < |ps| ==> ps[i].0 != k {
      assert forall i :: 1 <= i < |ps| ==> ps[i].0 != k;
      calc {
        [ps[0]] + tail;
        [ps[0]] + (ps[1..] + [(k, v)]);
        ([ps[0]] + ps[1..]) + [(k, v)];
        { assert [ps[0]] + ps[1..] == ps; }
        ps + [(k, v)];
      }
    }
  }

  /** Where the key comes first, the pair takes the value and the later pairs with that key go. */
  lemma SetAtHead(ps: seq<(string, string)>, k: string, v: string)
    requires ps != [] && ps[0].0 == k
    ensures var r := [(k, v)] + DropKey(ps[1..], k);
      && GetParam(r, k) == Some(v)
      && (forall i, j :: 0 <= i < j < |r| && r[i].0 == k ==> r[j].0 != k)
      && DropKey(r, k) == DropKey(ps, k)
  {
    var rest := DropKey(ps[1..], k);
    var r := [(k, v)] + rest;
    assert r[1..] == rest;
    DropKeyTwice(ps[1..], k);
  }

  /** Dropping a key a second time changes nothing. */
  lemma {:induction false} DropKeyTwice(ps: seq<(string, string)>, k: string)
    ensures DropKey(DropKey(ps, k), k) == DropKey(ps, k)
  {
    if ps != [] {
      DropKeyTwice(ps[1..], k);
      var rest := DropKey(ps[1..], k);
      if ps[0].0 != k {
        assert ([ps[0]] + rest)[1..] == rest;
      }
    }
  }
}

/** The root middleware: only `/dashboard...` paths are guarded, and a
    guarded request without one of the session cookies is sent to the login
    page with the path it asked for. */
module DashboardGuard {
  import opened Wrappers
  import opened Text
  import opened Urls

  datatype Decision = Next | Redirect(url: Url)

  const SessionCookies: set<string> := {"sb-access-token", "supabase-auth-token", "supabase-auth-token.expires"}

  /** `req.cookies.has(...)` for any of the session cookies. */
  predicate HasSession(cookies: set<string>) {
    "sb-access-token" in cookies || "supabase-auth-token" in cookies || "supabase-auth-token.expires" in cookies
  }

  /** The login URL: the request URL with the path `/login` and `redirectedFrom` set to the old path. */
  function LoginUrl(url: Url): (r: Url)
    ensures r.pathname == "/login"
    ensures GetParam(r.params, "redirectedFrom") == Some(url.pathname)
    ensures DropKey(r.params, "redirectedFrom") == DropKey(url.params, "redirectedFrom")
  {
    Url("/login", SetParam(url.params, "redirectedFrom", url.pathname))
  }

  function Middleware(url: Url, cookies: set<string>): (d: Decision)
    ensures !StartsWith(url.pathname, "/dashboard") ==> d == Next
    ensures StartsWith(url.pathname, "/dashboard") ==> (d == Next <==> HasSession(cookies))
    ensures d.Redirect? ==> d.url == LoginUrl(url)
  {
    if !StartsWith(url.pathname, "/dashboard") then Next
    else if !HasSession(cookies) then Redirect(LoginUrl(url))
    else Next
  }

  /** The session test is membership of any of the three cookie names. */
  lemma HasSessionIsAnyCookie(cookies: set<string>)
    ensures HasSession(cookies) <==> cookies * SessionCookies != {}
  {
    if HasSession(cookies) {
      if "sb-access-token" in cookies {
        assert "sb-access-token" in cookies * SessionCookies;
      } else if "supabase-auth-token" in cookies {
        assert "supabase-auth-token" in cookies * SessionCookies;
      } else {
        assert "supabase-auth-token.expires" in cookies * SessionCookies;
      }
    } else {
      forall c | c in cookies * SessionCookies ensures false {
      }
    }
  }

  /** `config.matcher`: `/dashboard` and the paths below it. */
  predicate Matched(path: string) {
    path == "/dashboard" || StartsWith(path, "/dashboard/")
  }

  /** Every path the matcher routes to the middleware is guarded by its prefix test. */
  lemma MatchedPathsGuarded(url: Url, cookies: set<string>)
    requires Matched(url.pathname) && !HasSession(cookies)
    ensures Middleware(url, cookies) == Redirect(LoginUrl(url))
  {
    var p := url.pathname;
    if p != "/dashboard" {
      assert p[..|"/dashboard"|] == p[..|"/dashboard/"|][..|"/dashboard"|];
    }
  }

  /** The prefix test is on characters, not path segments: the function
      would redirect `/dashboardX` as well, although the matcher never
      routes such a path here. */
  lemma PrefixNotSegment(rest: string, cookies: set<string>)
    requires !HasSession(cookies)
    ensures Middleware(Url("/dashboard" + rest, []), cookies).Redirect?
  {
    var p := "/dashboard" + rest;
    assert p[..|"/dashboard"|] == "/dashboard";
  }
}

/** The middleware kept under `pages/`: `/dashboard...` and `/admin...`
    paths need the access or the refresh cookie. */
module PagesGuard {
  import opened Wrappers
  import opened Text
  import opened Urls
  import DashboardGuard

  datatype Decision = Next | Redirect(url: Url)

  predicate HasAuthCookie(cookies: set<string>) {
    "sb-access-token" in cookies || "sb-refresh-token" in cookies
  }

  predicate IsProtected(path: string) {
    StartsWith(path, "/dashboard") || StartsWith(path, "/admin")
  }

  function Middleware(url: Url, cookies: set<string>): (d: Decision)
    ensures d.Redirect? <==> IsProtected(url.pathname) && !HasAuthCookie(cookies)
    ensures d.Redirect? ==>
      && d.url.pathname == "/login"
      && GetParam(d.url.params, "redirectedFrom") == Some(url.pathname)
      && DropKey(d.url.params, "redirectedFrom") == DropKey(url.params, "redirectedFrom")
  {
    if IsProtected(url.pathname) && !HasAuthCookie(cookies) then
      Redirect(Url("/login", SetParam(url.params, "redirectedFrom", url.pathname)))
    else Next
  }

  /** The two guards differ: a refresh cookie alone passes here but not at
      the root, and `/admin` is guarded only here. */
  lemma GuardsDiffer(url: Url)
    requires StartsWith(url.pathname, "/dashboard")
    ensures Middleware(url, {"sb-refresh-token"}) == Next
    ensures DashboardGuard.Middleware(url, {"sb-refresh-token"}).Redirect?
  {
    assert !DashboardGuard.HasSession({"sb-refresh-token"});
  }

  /** `/admin` paths are guarded here and passed by the root middleware. */
  lemma AdminOnlyHere(rest: string)
    ensures Middleware(Url("/admin" + rest, []), {}).Redirect?
    ensures DashboardGuard.Middleware(Url("/admin" + rest, []), {}) == DashboardGuard.Next
  {
    var p := "/admin" + rest;
    assert p[..|"/admin"|] == "/admin";
    assert p[1] == 'a';
  }
}
