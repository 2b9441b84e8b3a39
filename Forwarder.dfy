/**
  The request handler closure installed by main: it tags /_version requests,
  lets a `_url` query parameter replace the captured `url` variable and forward
  the request to a freshly built proxy for it, and otherwise sends the request
  to the proxy built at startup with the current `url`'s host as Host header.
  Requests are taken one at a time.
*/
module Forwarder {
  import opened Wrappers
  import opened Http

  const Version: string := "0.21.0"
  const VersionPath: string := "/_version"
  /** The key Header.Add stores for "X-Tiny-SSL-Version": its canonical form. */
  const VersionHeader: string := "X-Tiny-Ssl-Version"
  const OverrideKey: string := "_url"

  /** The parts of a *url.URL the handler reads. */
  datatype URL = URL(scheme: string, host: string, path: string)

  /** An inbound request: its URL path, its query as the ordered list of
      decoded key/value pairs, and its Host. */
  datatype Request = Request(path: string, query: seq<(string, string)>, host: string)

  /** What the handler cannot see: url.Parse, and (*URL).ResolveReference with
      its receiver (None for a nil *URL), plus the target the startup proxy was
      built for. */
  datatype Config = Config(
    startup: URL,
    parse: string -> Option<URL>,
    resolve: (Option<URL>, URL) -> URL)

  /** The outcome of (*URL).Parse(site) on receiver base: the resolved URL, an
      error, or the nil dereference of ResolveReference when the receiver is nil
      and the reference has no scheme of its own. */
  datatype Resolution = Resolved(url: URL) | ParseError | NilReceiver

  /** Where a request goes: to dest with the given Host header and query, through
      a proxy that rewrites responses or not; nowhere; or a nil-pointer panic. */
  datatype Dispatch =
    | Forward(dest: URL, host: string, query: seq<(string, string)>, rewrite: bool)
    | NoForward
    | NilDeref

  /** The headers the handler itself put on the response, and the dispatch. */
  datatype Reply = Reply(header: Header, dispatch: Dispatch)

  /** `r.URL.Query()[key]` with its first element: the value of the first pair
      whose key is key. */
  function FirstValue(query: seq<(string, string)>, key: string): (r: Option<string>)
    ensures r.None? <==> forall i | 0 <= i < |query| :: query[i].0 != key
    ensures r.Some? ==> exists i | 0 <= i < |query| ::
      query[i] == (key, r.value) && forall j | 0 <= j < i :: query[j].0 != key
  {
    if query == [] then None
    else if query[0].0 == key then Some(query[0].1)
    else
      var r := FirstValue(query[1..], key);
      assert r.Some? ==> exists i | 0 <= i < |query| ::
        query[i] == (key, r.value) && forall j | 0 <= j < i :: query[j].0 != key by {
        if r.Some? {
          var i :| 0 <= i < |query| - 1 && query[1..][i] == (key, r.value)
            && forall j | 0 <= j < i :: query[1..][j].0 != key;
          assert query[i + 1] == (key, r.value);
          assert forall j | 0 <= j < i + 1 :: query[j].0 != key by {
            forall j | 0 <= j < i + 1 ensures query[j].0 != key {
              if j > 0 { assert query[j] == query[1..][j - 1]; }
            }
          }
        }
      }
      r
  }

  /** The `_url` value that triggers an override: present and non-empty. */
  function OverrideSite(r: Request): (site: Option<string>)
    ensures site.Some? ==> |site.value| > 0 && FirstValue(r.query, OverrideKey) == site
    ensures site.None? ==> FirstValue(r.query, OverrideKey) in {None, Some("")}
  {
    var first := FirstValue(r.query, OverrideKey);
    if first.Some? && |first.value| > 0 then first else None
  }

  /** (*URL).Parse(site) called on base. */
  function ParseOn(c: Config, base: Option<URL>, site: string): (r: Resolution)
    ensures r == ParseError <==> c.parse(site).None?
    ensures r == NilReceiver <==> c.parse(site).Some? && base.None? && c.parse(site).value.scheme == ""
    ensures r.Resolved? ==> r.url == c.resolve(base, c.parse(site).value)
  {
    match c.parse(site)
    case None => ParseError
    case Some(ref) =>
      if base.None? && ref.scheme == "" then NilReceiver else Resolved(c.resolve(base, ref))
  }

  /** The headers the handler adds to the response for a request to path. */
  function HandlerHeader(path: string): Header
  {
    if path == VersionPath then Add(map[], VersionHeader, Version) else map[]
  }

  /** One request handled with the captured variable holding url: the reply and
      the variable's new value. */
  function Step(c: Config, url: Option<URL>, r: Request): (res: (Reply, Option<URL>))
    // the version header is added exactly for /_version, whatever happens next
    ensures VersionHeader in res.0.header <==> r.path == VersionPath
    ensures VersionHeader in res.0.header ==> res.0.header[VersionHeader] == [Version]
    // deleting `_url` from a copy of the query has no effect on what is forwarded
    ensures res.0.dispatch.Forward? ==> res.0.dispatch.query == r.query
    // rewritten responses only ever come from the startup target
    ensures res.0.dispatch.Forward? && res.0.dispatch.rewrite ==>
      && OverrideSite(r).None?
      && res.0.dispatch.dest == c.startup
      && url.Some? && res.0.dispatch.host == url.value.host
      && res.1 == url
    // a request sent to any other proxy went to the URL the override resolved to
    ensures res.0.dispatch.Forward? && !res.0.dispatch.rewrite ==>
      && OverrideSite(r).Some?
      && res.1 == Some(res.0.dispatch.dest)
      && res.0.dispatch.host == res.0.dispatch.dest.host
    // only an override request writes the variable
    ensures res.1 != url ==> OverrideSite(r).Some?
  {
    var header := HandlerHeader(r.path);
    match OverrideSite(r)
    case Some(site) =>
      (match ParseOn(c, url, site)
       case NilReceiver => (Reply(header, NilDeref), url)
       case ParseError => (Reply(header, NoForward), None)
       case Resolved(u) => (Reply(header, Forward(u, u.host, r.query, false)), Some(u)))
    case None =>
      if url.None? then (Reply(header, NilDeref), url)
      else (Reply(header, Forward(c.startup, url.value.host, r.query, true)), url)
  }

  /** An override that resolves becomes the new value of the variable, and the
      request goes to it, with its host as Host header, without the response
      rewrite. */
  lemma OverrideResolved(c: Config, url: Option<URL>, r: Request, u: URL)
    requires OverrideSite(r).Some? && ParseOn(c, url, OverrideSite(r).value) == Resolved(u)
    ensures Step(c, url, r) == (Reply(HandlerHeader(r.path), Forward(u, u.host, r.query, false)), Some(u))
  {
  }

  /** An override that does not parse clears the variable and nothing is forwarded. */
  lemma OverrideUnparsable(c: Config, url: Option<URL>, r: Request)
    requires OverrideSite(r).Some? && c.parse(OverrideSite(r).value).None?
    ensures Step(c, url, r) == (Reply(HandlerHeader(r.path), NoForward), None)
  {
  }

  /** Without an override the variable is unchanged and the request goes to the
      startup target with the variable's host as Host header, responses
      rewritten; if the variable is nil, reading its Host panics. */
  lemma DefaultBranch(c: Config, url: Option<URL>, r: Request)
    requires OverrideSite(r).None?
    ensures Step(c, url, r).1 == url
    ensures url.Some? ==> Step(c, url, r).0.dispatch == Forward(c.startup, url.value.host, r.query, true)
    ensures url.None? ==> Step(c, url, r).0.dispatch == NilDeref
  {
  }

  /** A sequence of requests handled one after another: the replies in order and
      the final value of the variable. */
  function Run(c: Config, url: Option<URL>, rs: seq<Request>): (res: (seq<Reply>, Option<URL>))
    ensures |res.0| == |rs|
    decreases |rs|
  {
    if rs == [] then ([], url)
    else
      var (reply, next) := Step(c, url, rs[0]);
      var (replies, last) := Run(c, next, rs[1..]);
      ([reply] + replies, last)
  }

  /** Over any history, every request whose response is rewritten went to the
      startup target, and every other forwarded request carried an override. */
  lemma {:induction false} RewrittenOnlyFromStartup(c: Config, url: Option<URL>, rs: seq<Request>)
    ensures forall i | 0 <= i < |rs| ::
      var d := Run(c, url, rs).0[i].dispatch;
      d.Forward? ==> (d.rewrite ==> d.dest == c.startup) && (!d.rewrite ==> OverrideSite(rs[i]).Some?)
    decreases |rs|
  {
    if rs != [] {
      var next := Step(c, url, rs[0]).1;
      RewrittenOnlyFromStartup(c, next, rs[1..]);
      assert forall i | 1 <= i < |rs| :: Run(c, url, rs).0[i] == Run(c, next, rs[1..]).0[i - 1];
    }
  }

  /** Absent an override the variable is read and never written: every request
      gets the same dispatch (up to its own query), and the variable ends as it
      began. */
  lemma {:induction false} StableWithoutOverride(c: Config, url: Option<URL>, rs: seq<Request>)
    requires forall i | 0 <= i < |rs| :: OverrideSite(rs[i]).None?
    ensures Run(c, url, rs).1 == url
    ensures forall i | 0 <= i < |rs| ::
      Run(c, url, rs).0[i].dispatch == (if url.Some? then Forward(c.startup, url.value.host, rs[i].query, true) else NilDeref)
    decreases |rs|
  {
    if rs != [] {
      DefaultBranch(c, url, rs[0]);
      StableWithoutOverride(c, url, rs[1..]);
      assert forall i | 1 <= i < |rs| :: Run(c, url, rs).0[i] == Run(c, url, rs[1..]).0[i - 1];
    }
  }

  /** An override is remembered only as a Host header: the next plain request
      still goes to the startup target, with the override's host. */
  lemma OverrideThenPlain(c: Config, url: Option<URL>, r1: Request, r2: Request, u: URL)
    requires OverrideSite(r1).Some? && ParseOn(c, url, OverrideSite(r1).value) == Resolved(u)
    requires OverrideSite(r2).None?
    ensures Run(c, url, [r1, r2]).0[0].dispatch == Forward(u, u.host, r1.query, false)
    ensures Run(c, url, [r1, r2]).0[1].dispatch == Forward(c.startup, u.host, r2.query, true)
    ensures Run(c, url, [r1, r2]).1 == Some(u)
  {
    var s1 := Step(c, url, r1).1;
    assert [r1, r2][1..] == [r2];
    assert Run(c, s1, [r2]).1 == Step(c, s1, r2).1 by {
      assert [r2][1..] == [];
    }
    DefaultBranch(c, s1, r2);
  }

  /** As written, an override that does not parse leaves the variable nil, so
      the next plain request panics on `url.Host` instead of being forwarded. */
  lemma UnparsableOverrideBreaksDefault(c: Config, url: Option<URL>, r1: Request, r2: Request)
    requires OverrideSite(r1).Some? && c.parse(OverrideSite(r1).value).None?
    requires OverrideSite(r2).None?
    ensures Run(c, url, [r1, r2]).0[0].dispatch == NoForward
    ensures Run(c, url, [r1, r2]).0[1].dispatch == NilDeref
    ensures Run(c, url, [r1, r2]).1.None?
  {
    var s1 := Step(c, url, r1).1;
    assert [r1, r2][1..] == [r2];
    assert Run(c, s1, [r2]).1 == Step(c, s1, r2).1 by {
      assert [r2][1..] == [];
    }
    DefaultBranch(c, s1, r2);
  }

  /** On a nil variable, an override whose reference has no scheme panics inside
      ResolveReference, and the variable stays nil. */
  lemma RelativeOverrideOnNil(c: Config, r: Request, ref: URL)
    requires OverrideSite(r).Some? && c.parse(OverrideSite(r).value) == Some(ref) && ref.scheme == ""
    ensures Step(c, None, r) == (Reply(HandlerHeader(r.path), NilDeref), None)
  {
  }

  /** After a failed parse, an override whose reference has a scheme resolves even
      on the nil variable, and plain requests are forwarded again. */
  lemma AbsoluteOverrideRecovers(
    c: Config, url: Option<URL>, r1: Request, r2: Request, r3: Request, ref: URL)
    requires OverrideSite(r1).Some? && c.parse(OverrideSite(r1).value).None?
    requires OverrideSite(r2).Some? && c.parse(OverrideSite(r2).value) == Some(ref) && ref.scheme != ""
    requires OverrideSite(r3).None?
    ensures var u := c.resolve(None, ref);
      && Run(c, url, [r1, r2, r3]).0[1].dispatch == Forward(u, u.host, r2.query, false)
      && Run(c, url, [r1, r2, r3]).0[2].dispatch == Forward(c.startup, u.host, r3.query, true)
      && Run(c, url, [r1, r2, r3]).1 == Some(u)
  {
    var u := c.resolve(None, ref);
    assert Step(c, url, r1).1 == None;
    assert Step(c, None, r2).1 == Some(u);
    assert [r1, r2, r3][1..] == [r2, r3];
    assert [r2, r3][1..] == [r3];
    assert Run(c, Some(u), [r3]).1 == Step(c, Some(u), r3).1 by {
      assert [r3][1..] == [];
    }
    DefaultBranch(c, Some(u), r3);
  }

  /** The handler with the failed parse kept out of the variable, as in
      `u, err := url.Parse(site); if err == nil { url = u; ... }`. */
  function StepKeepingTarget(c: Config, url: Option<URL>, r: Request): (res: (Reply, Option<URL>))
    ensures res.0 == Step(c, url, r).0
    // a successful override still replaces the variable; a failed parse keeps it
    ensures Step(c, url, r).1.Some? ==> res.1 == Step(c, url, r).1
    ensures Step(c, url, r).1.None? ==> res.1 == url
    ensures url.Some? ==> res.1.Some?
  {
    var (reply, next) := Step(c, url, r);
    (reply, if next.None? then url else next)
  }

  /** A sequence of requests under StepKeepingTarget. */
  function RunKeepingTarget(c: Config, url: Option<URL>, rs: seq<Request>): (res: (seq<Reply>, Option<URL>))
    ensures |res.0| == |rs|
    decreases |rs|
  {
    if rs == [] then ([], url)
    else
      var (reply, next) := StepKeepingTarget(c, url, rs[0]);
      var (replies, last) := RunKeepingTarget(c, next, rs[1..]);
      ([reply] + replies, last)
  }

  /** With the fix, starting from a parsed target no request ever panics and the
      variable always holds a target. */
  lemma {:induction false} KeepingTargetNeverPanics(c: Config, url: Option<URL>, rs: seq<Request>)
    requires url.Some?
    ensures RunKeepingTarget(c, url, rs).1.Some?
    ensures forall i | 0 <= i < |rs| :: !RunKeepingTarget(c, url, rs).0[i].dispatch.NilDeref?
    decreases |rs|
  {
    if rs != [] {
      var next := StepKeepingTarget(c, url, rs[0]).1;
      KeepingTargetNeverPanics(c, next, rs[1..]);
      assert forall i | 1 <= i < |rs| ::
        RunKeepingTarget(c, url, rs).0[i] == RunKeepingTarget(c, next, rs[1..]).0[i - 1];
    }
  }

  /** The handler closure and the `url` variable it captures. */
  class Handler {
    const config: Config
    var url: Option<URL>

    /** At start-up the variable holds the target parsed from -where, the one the
        startup proxy was built for. */
    constructor (config: Config)
      ensures this.config == config && url == Some(config.startup)
    {
      this.config := config;
      url := Some(config.startup);
    }

    /** Serve one request: the reply and the new value of the variable are those
        of Step. */
    method Handle(r: Request) returns (reply: Reply)
      modifies this
      ensures (reply, url) == Step(config, old(url), r)
    {
      var header: Header := map[];
      if r.path == VersionPath {
        header := Add(header, VersionHeader, Version);
      }
      var first := FirstValue(r.query, OverrideKey);
      if first.Some? && |first.value| > 0 {
        var parsed := ParseOn(config, url, first.value);
        match parsed {
          case NilReceiver =>
            reply := Reply(header, NilDeref);
          case ParseError =>
            url := None;
            reply := Reply(header, NoForward);
          case Resolved(u) =>
            url := Some(u);
            reply := Reply(header, Forward(u, u.host, r.query, false));
        }
      } else if url.None? {
        reply := Reply(header, NilDeref);
      } else {
        reply := Reply(header, Forward(config.startup, url.value.host, r.query, true));
      }
    }
  }
}
