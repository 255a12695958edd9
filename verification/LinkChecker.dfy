/** Link extraction, checking one link with its redirects, and the two roll-ups over checks that finish
    in any order. */
module LinkChecker {
  import opened Prelude
  import opened PyText

  datatype Category = Healthy | Broken | Redirect | Timeout | Failing

  // ------------------------------------------------------------------------------ one link

  /** The server's answer to one request. `Throws` is an exception the checker does not catch. */
  datatype Reply = Response(status: int, location: Option<string>) | TimesOut | TransportError | Throws

  /** Any server: its answers may depend on the round as well as on the address. `resolve` is the
      resolution of a location against the current address; `None` means it raises. */
  datatype Server = Server(
    head: (nat, string) -> Reply,
    get: (nat, string) -> Reply,
    resolve: (string, string) -> Option<string>)

  datatype Outcome = Checked(status: Option<int>, category: Category, redirectUrl: string) | Uncaught

  const MAX_REDIRECTS := 10

  function Classify(status: Option<int>, redirected: bool): Category
  {
    if status.None? then Failing
    else if 400 <= status.value < 600 then Broken
    else if redirected then Redirect
    else if 200 <= status.value < 300 then Healthy
    else Failing
  }

  /** The answer that counts in round `k`: GET replaces HEAD when HEAD is not allowed. */
  function Ask(srv: Server, k: nat, url: string): Reply
  {
    var r := srv.head(k, url);
    if r.Response? && r.status == 405 then srv.get(k, url) else r
  }

  predicate Redirects(r: Reply)
  {
    r.Response? && 300 <= r.status < 400 && r.location.Some? && r.location.value != ""
  }

  /** How a walk ends. `trail` is the addresses visited, the start first. */
  datatype End = Landed(status: Option<int>, trail: seq<string>) | TimedOut | Disconnected | Threw

  /** The reference follower, with `fuel` requests left. */
  function Follow(srv: Server, fuel: nat, k: nat, url: string): End
  {
    if fuel == 0 then Landed(None, [url])
    else
      match Ask(srv, k, url)
      case TimesOut => TimedOut
      case TransportError => Disconnected
      case Throws => Threw
      case Response(status, location) =>
        if !Redirects(Ask(srv, k, url)) then Landed(Some(status), [url])
        else
          match srv.resolve(url, location.value)
          case None => Threw
          case Some(next) => Prepend([url], Some(status), Follow(srv, fuel - 1, k + 1, next))
  }

  /** A walk that continues after `trail`, whose last status was `status`. */
  function Prepend(trail: seq<string>, status: Option<int>, rest: End): End
  {
    match rest
    case Landed(s, t) => Landed(if s.None? then status else s, trail + t)
    case _ => rest
  }

  function Report(e: End): Outcome
  {
    match e
    case Landed(status, trail) =>
      var redirected := |trail| > 1;
      Checked(status, Classify(status, redirected), if redirected then trail[|trail| - 1] else "")
    case TimedOut => Checked(None, Timeout, "")
    case Disconnected => Checked(None, Failing, "")
    case Threw => Uncaught
  }

  /** `check_single_link`: the bounded redirect loop. */
  method CheckSingleLink(srv: Server, url: string) returns (r: Outcome, heads: nat, gets: nat)
    ensures r == Report(Follow(srv, MAX_REDIRECTS + 1, 0, url))
    ensures r == Uncaught <==> SomeChainBreaks(srv, MAX_REDIRECTS + 1, url)
    ensures exists trail, answer :: Final(srv, 11, url, trail, answer) && IsOutcome(srv, trail, answer, r)
    ensures gets <= heads <= MAX_REDIRECTS + 1
  {
    var current := url;
    var status: Option<int> := None;
    var redirected := false;
    UncaughtIff(srv, url);
    ghost var asked, answer := FinalExists(srv, MAX_REDIRECTS + 1, url, [url]);
    OutcomeIs(srv, url, asked, answer);
    ghost var trail: seq<string> := [];
    ghost var walk := Follow(srv, MAX_REDIRECTS + 1, 0, url);
    assert Prepend([], None, walk) == walk by {
      if walk.Landed? {
        assert [] + walk.trail == walk.trail;
      }
    }
    heads, gets := 0, 0;
    for i := 0 to MAX_REDIRECTS + 1
      invariant heads == i && gets <= i
      invariant redirected <==> trail != []
      invariant status.None? <==> trail == []
      invariant walk == Prepend(trail, status, Follow(srv, MAX_REDIRECTS + 1 - i, i, current))
    {
      var response := srv.head(i, current);
      heads := heads + 1;
      if response.Response? && response.status == 405 {
        response := srv.get(i, current);
        gets := gets + 1;
      }
      match response {
        case TimesOut => return Checked(None, Timeout, ""), heads, gets;
        case TransportError => return Checked(None, Failing, ""), heads, gets;
        case Throws => return Uncaught, heads, gets;
        case Response(code, location) =>
          ghost var before := status;
          status := Some(code);
          if !(300 <= code < 400) || location.None? || location.value == "" {
            assert walk == Landed(status, trail + [current]);
            return Checked(status, Classify(status, redirected), if redirected then current else ""), heads, gets;
          }
          var next := srv.resolve(current, location.value);
          if next.None? {
            return Uncaught, heads, gets;
          }
          FollowHop(srv, MAX_REDIRECTS + 1 - i, i, current, next.value);
          PrependTwice(trail, before, current, code, Follow(srv, MAX_REDIRECTS - i, i + 1, next.value));
          trail := trail + [current];
          current := next.value;
          redirected := true;
      }
    }
    assert walk == Landed(status, trail + [current]);
    r := Checked(status, Classify(status, redirected), if redirected then current else "");
  }

  /** One hop of the walk, with the fuel spelled out. */
  lemma FollowHop(srv: Server, fuel: nat, k: nat, url: string, next: string)
    requires fuel > 0 && Redirects(Ask(srv, k, url)) && srv.resolve(url, Ask(srv, k, url).location.value) == Some(next)
    ensures Follow(srv, fuel, k, url)
            == Prepend([url], Some(Ask(srv, k, url).status), Follow(srv, fuel - 1, k + 1, next))
  {
  }

  lemma PrependTwice(trail: seq<string>, status: Option<int>, url: string, code: int, rest: End)
    ensures Prepend(trail, status, Prepend([url], Some(code), rest)) == Prepend(trail + [url], Some(code), rest)
  {
    if rest.Landed? {
      assert trail + ([url] + rest.trail) == (trail + [url]) + rest.trail;
    }
  }

  /** `r` is the answer of round `k`: that of HEAD, or that of GET when HEAD is refused with 405. */
  predicate Answered(srv: Server, k: nat, url: string, r: Reply)
  {
    var h := srv.head(k, url);
    if h.Response? && h.status == 405 then r == srv.get(k, url) else r == h
  }

  /** A status 300-399 with a location. */
  predicate PointsOn(r: Reply)
  {
    r.Response? && 300 <= r.status <= 399 && r.location.Some? && r.location.value != ""
  }

  lemma AnsweredIsAsk(srv: Server, k: nat, url: string, r: Reply)
    ensures Answered(srv, k, url, r) <==> r == Ask(srv, k, url)
    ensures PointsOn(r) <==> Redirects(r)
  {
  }

  /** Round `k` of a walk sent it from `url` to `next`. */
  ghost predicate Hop(srv: Server, k: nat, url: string, next: string)
  {
    exists r :: Answered(srv, k, url, r) && PointsOn(r) && srv.resolve(url, r.location.value) == Some(next)
  }

  /** A landed walk is a chain of redirects from the start; its status is that of the last answer, and it
      stops at the first answer that is not a redirect, or when the fuel is used up. */
  lemma {:induction false} FollowIsChain(srv: Server, fuel: nat, k: nat, url: string)
    requires Follow(srv, fuel, k, url).Landed?
    ensures var e := Follow(srv, fuel, k, url);
            var hops := |e.trail| - 1;
            && 0 <= hops <= fuel && e.trail[0] == url
            && (forall j :: 0 <= j < hops ==> Hop(srv, k + j, e.trail[j], e.trail[j + 1]))
            && (hops < fuel ==>
                  Ask(srv, k + hops, e.trail[hops]).Response? && !Redirects(Ask(srv, k + hops, e.trail[hops]))
                  && e.status == Some(Ask(srv, k + hops, e.trail[hops]).status))
            && (hops == fuel > 0 ==> Ask(srv, k + hops - 1, e.trail[hops - 1]).Response? && e.status == Some(Ask(srv, k + hops - 1, e.trail[hops - 1]).status))
            && (fuel == 0 ==> e.status.None?)
  {
    if fuel > 0 && Redirects(Ask(srv, k, url)) {
      var next := srv.resolve(url, Ask(srv, k, url).location.value).value;
      FollowIsChain(srv, fuel - 1, k + 1, next);
      var e, rest := Follow(srv, fuel, k, url), Follow(srv, fuel - 1, k + 1, next);
      forall j | 0 <= j < |e.trail| - 1 ensures Hop(srv, k + j, e.trail[j], e.trail[j + 1]) {
        if j > 0 {
          assert Hop(srv, k + 1 + (j - 1), rest.trail[j - 1], rest.trail[j]);
        }
      }
    }
  }

  /** The answer to round `k` raises an exception that is not caught, or redirects to a location that
      cannot be resolved. */
  ghost predicate Breaks(srv: Server, k: nat, url: string)
  {
    exists r :: Answered(srv, k, url, r) && (r.Throws? || (PointsOn(r) && srv.resolve(url, r.location.value).None?))
  }

  /** A chain of redirects from `url`, of at most `fuel` addresses, whose last address breaks. */
  ghost predicate BreakingChain(srv: Server, fuel: nat, k: nat, url: string, trail: seq<string>)
  {
    && 1 <= |trail| <= fuel && trail[0] == url
    && (forall j :: 0 <= j < |trail| - 1 ==> Hop(srv, k + j, trail[j], trail[j + 1]))
    && Breaks(srv, k + |trail| - 1, trail[|trail| - 1])
  }

  ghost predicate SomeChainBreaks(srv: Server, fuel: nat, url: string)
  {
    exists trail :: BreakingChain(srv, fuel, 0, url, trail)
  }

  lemma {:induction false} ThrewHasChain(srv: Server, fuel: nat, k: nat, url: string) returns (trail: seq<string>)
    requires Follow(srv, fuel, k, url).Threw?
    ensures BreakingChain(srv, fuel, k, url, trail)
  {
    trail := [url];
    if !Breaks(srv, k, url) {
      var next := srv.resolve(url, Ask(srv, k, url).location.value).value;
      var rest := ThrewHasChain(srv, fuel - 1, k + 1, next);
      trail := [url] + rest;
      forall j | 0 <= j < |trail| - 1 ensures Hop(srv, k + j, trail[j], trail[j + 1]) {
        if j > 0 {
          assert Hop(srv, k + 1 + (j - 1), rest[j - 1], rest[j]);
        }
      }
    }
  }

  lemma {:induction false} ChainThrows(srv: Server, fuel: nat, k: nat, url: string, trail: seq<string>)
    requires BreakingChain(srv, fuel, k, url, trail)
    ensures Follow(srv, fuel, k, url).Threw?
  {
    if |trail| > 1 {
      assert Hop(srv, k, trail[0], trail[1]);
      var rest := trail[1..];
      forall j | 0 <= j < |rest| - 1 ensures Hop(srv, k + 1 + j, rest[j], rest[j + 1]) {
        assert Hop(srv, k + (j + 1), trail[j + 1], trail[j + 2]);
      }
      ChainThrows(srv, fuel - 1, k + 1, trail[1], rest);
    }
  }

  /** The documented "never raises" fails exactly when a chain of at most 11 addresses ends in an answer
      that breaks. */
  lemma UncaughtIff(srv: Server, url: string)
    ensures Report(Follow(srv, MAX_REDIRECTS + 1, 0, url)) == Uncaught
            <==> SomeChainBreaks(srv, MAX_REDIRECTS + 1, url)
  {
    if Follow(srv, MAX_REDIRECTS + 1, 0, url).Threw? {
      var trail := ThrewHasChain(srv, MAX_REDIRECTS + 1, 0, url);
    }
    if SomeChainBreaks(srv, MAX_REDIRECTS + 1, url) {
      var fuel := MAX_REDIRECTS + 1;
      var trail :| BreakingChain(srv, fuel, 0, url, trail);
      ChainThrows(srv, MAX_REDIRECTS + 1, 0, url, trail);
    }
  }

  /** One server under which it raises: every answer redirects to a location that does not resolve. */
  lemma UnresolvableRedirect(url: string)
    ensures var srv := Server((_, _) => Response(302, Some("http://[")), (_, _) => TimesOut, (_, _) => None);
            Report(Follow(srv, MAX_REDIRECTS + 1, 0, url)) == Uncaught
  {
    var srv := Server((_, _) => Response(302, Some("http://[")), (_, _) => TimesOut, (_, _) => None);
    assert BreakingChain(srv, MAX_REDIRECTS + 1, 0, url, [url]);
    UncaughtIff(srv, url);
  }

  /** For every server: at most 10 redirects end in a fetched page (an eleventh is reported unfetched), and
      REDIRECT is reported iff a hop was followed and the last status is not 400-599, with the last
      resolved location. */
  lemma RedirectReported(srv: Server, url: string)
    ensures var e, r := Follow(srv, MAX_REDIRECTS + 1, 0, url), Report(Follow(srv, MAX_REDIRECTS + 1, 0, url));
            (r.Checked? && r.category == Redirect
             <==> e.Landed? && |e.trail| > 1 && e.status.Some? && !(400 <= e.status.value < 600))
    ensures var e, r := Follow(srv, MAX_REDIRECTS + 1, 0, url), Report(Follow(srv, MAX_REDIRECTS + 1, 0, url));
            e.Landed? ==>
              && r.Checked? && r.status.Some? && 1 <= |e.trail| <= MAX_REDIRECTS + 2
              && r.redirectUrl == if |e.trail| > 1 then e.trail[|e.trail| - 1] else ""
  {
    if Follow(srv, MAX_REDIRECTS + 1, 0, url).Landed? {
      FollowIsChain(srv, MAX_REDIRECTS + 1, 0, url);
    }
  }

  // ------------------------------------------------------------------- the outcome, answer by answer

  /** The addresses asked, one redirect after the other, and the last answer `r`: it points nowhere, or to a
      location that does not resolve, or the fuel is used up. */
  ghost predicate Final(srv: Server, fuel: nat, url: string, trail: seq<string>, r: Reply)
  {
    && 1 <= |trail| <= fuel && trail[0] == url
    && (forall j :: 0 <= j < |trail| - 1 ==> Hop(srv, j, trail[j], trail[j + 1]))
    && Answered(srv, |trail| - 1, trail[|trail| - 1], r)
    && (PointsOn(r) && |trail| < fuel ==> srv.resolve(trail[|trail| - 1], r.location.value).None?)
  }

  /** What the check reports then. */
  ghost predicate IsOutcome(srv: Server, trail: seq<string>, r: Reply, o: Outcome)
    requires trail != []
  {
    var last, hops := trail[|trail| - 1], |trail| - 1;
    match r
    case TimesOut => o == Checked(None, Timeout, "")
    case TransportError => o == Checked(None, Failing, "")
    case Throws => o == Uncaught
    case Response(status, location) =>
      if PointsOn(r) then
        match srv.resolve(last, location.value)
        case None => o == Uncaught
        case Some(next) => o == Checked(Some(status), Redirect, next)
      else
        && o.Checked? && o.status == Some(status)
        && (o.category == Broken <==> 400 <= status <= 599)
        && (o.category == Redirect <==> hops > 0 && !(400 <= status <= 599))
        && (o.category == Healthy <==> hops == 0 && 200 <= status <= 299)
        && (o.category == Failing <==> hops == 0 && !(200 <= status <= 299) && !(400 <= status <= 599))
        && o.redirectUrl == if hops > 0 then last else ""
  }

  /** How a walk from round `k` ends, given its final trail. */
  ghost predicate EndIs(srv: Server, trail: seq<string>, r: Reply, e: End)
    requires trail != []
  {
    match r
    case TimesOut => e == TimedOut
    case TransportError => e == Disconnected
    case Throws => e == Threw
    case Response(status, location) =>
      if PointsOn(r) then
        match srv.resolve(trail[|trail| - 1], location.value)
        case None => e == Threw
        case Some(next) => e == Landed(Some(status), trail + [next])
      else e == Landed(Some(status), trail)
  }

  lemma {:induction false} FollowFinal(srv: Server, fuel: nat, k: nat, url: string, trail: seq<string>, r: Reply)
    requires 1 <= |trail| <= fuel && trail[0] == url
    requires forall j :: 0 <= j < |trail| - 1 ==> Hop(srv, k + j, trail[j], trail[j + 1])
    requires Answered(srv, k + |trail| - 1, trail[|trail| - 1], r)
    requires PointsOn(r) && |trail| < fuel ==> srv.resolve(trail[|trail| - 1], r.location.value).None?
    ensures EndIs(srv, trail, r, Follow(srv, fuel, k, url))
    decreases |trail|
  {
    if |trail| == 1 {
      AnsweredIsAsk(srv, k, url, r);
      LastRound(srv, fuel, k, url, trail, r);
    } else {
      var rest := trail[1..];
      assert Hop(srv, k + 0, trail[0], trail[1]);
      HopIsAsk(srv, k, url, trail[1]);
      forall j | 0 <= j < |rest| - 1 ensures Hop(srv, k + 1 + j, rest[j], rest[j + 1]) {
        assert Hop(srv, k + (j + 1), trail[j + 1], trail[j + 2]);
      }
      FollowFinal(srv, fuel - 1, k + 1, trail[1], rest, r);
      FollowHop(srv, fuel, k, url, trail[1]);
      EndPrepended(srv, url, Ask(srv, k, url).status, rest, r, Follow(srv, fuel - 1, k + 1, trail[1]));
      assert [url] + rest == trail;
    }
  }

  lemma EndPrepended(srv: Server, url: string, status: int, rest: seq<string>, r: Reply, e: End)
    requires rest != [] && EndIs(srv, rest, r, e)
    ensures EndIs(srv, [url] + rest, r, Prepend([url], Some(status), e))
  {
    if e.Landed? {
      assert forall next: string :: [url] + (rest + [next]) == ([url] + rest) + [next];
    }
  }

  lemma HopIsAsk(srv: Server, k: nat, url: string, next: string)
    ensures Hop(srv, k, url, next) <==>
            Redirects(Ask(srv, k, url)) && srv.resolve(url, Ask(srv, k, url).location.value) == Some(next)
  {
    AnsweredIsAsk(srv, k, url, Ask(srv, k, url));
  }

  lemma LastRound(srv: Server, fuel: nat, k: nat, url: string, trail: seq<string>, r: Reply)
    requires trail == [url] && fuel > 0 && r == Ask(srv, k, url)
    requires Redirects(r) && 1 < fuel ==> srv.resolve(url, r.location.value).None?
    ensures EndIs(srv, trail, r, Follow(srv, fuel, k, url))
  {
    if Redirects(r) && srv.resolve(url, r.location.value).Some? {
      var next := srv.resolve(url, r.location.value).value;
      assert Follow(srv, 0, k + 1, next) == Landed(None, [next]);
      FollowHop(srv, fuel, k, url, next);
    }
  }

  /** Every walk has a final trail. */
  lemma {:induction false} FinalExists(srv: Server, fuel: nat, url: string, trail: seq<string>) returns (full: seq<string>, r: Reply)
    requires 1 <= |trail| <= fuel && trail[0] == url
    requires forall j :: 0 <= j < |trail| - 1 ==> Hop(srv, j, trail[j], trail[j + 1])
    ensures Final(srv, fuel, url, full, r)
    decreases fuel - |trail|
  {
    var last := trail[|trail| - 1];
    r := Ask(srv, |trail| - 1, last);
    full := trail;
    AnsweredIsAsk(srv, |trail| - 1, last, r);
    if PointsOn(r) && |trail| < fuel && srv.resolve(last, r.location.value).Some? {
      var next := srv.resolve(last, r.location.value).value;
      assert Hop(srv, |trail| - 1, last, next);
      full, r := FinalExists(srv, fuel, url, trail + [next]);
    }
  }

  /** The report, from the answers alone. */
  lemma OutcomeIs(srv: Server, url: string, trail: seq<string>, r: Reply)
    requires Final(srv, 11, url, trail, r)
    ensures IsOutcome(srv, trail, r, Report(Follow(srv, MAX_REDIRECTS + 1, 0, url)))
  {
    FollowFinal(srv, MAX_REDIRECTS + 1, 0, url, trail, r);
  }

  // ----------------------------------------------------------------------------- extracting links

  /** A candidate element: its URL attribute and, for anchors, its text. */
  datatype Candidate = Candidate(isAnchor: bool, raw: Option<string>, text: string)

  datatype Link = Link(source: string, target: string, anchor: string, internal: bool)

  /** A resolved address before its fragment is dropped. */
  datatype Resolved = Resolved(target: string, scheme: string, host: string)

  /** URL functions that are not part of this model, for one base address; `None` means they raise. */
  datatype Urls = Urls(base: string, baseHost: string, lower: string -> string, resolve: string -> Option<Resolved>)

  function Raw(c: Candidate): string { if c.raw.Some? then Strip(c.raw.value) else "" }

  predicate Skipped(u: Urls, raw: string)
  {
    var s := u.lower(raw);
    raw == "" || "mailto:" <= s || "tel:" <= s || "javascript:" <= s || "data:" <= s || "#" <= s
  }

  predicate EndsWith(s: string, suffix: string)
  {
    |suffix| <= |s| && s[|s| - |suffix|..] == suffix
  }

  function LinkOf(u: Urls, c: Candidate, r: Resolved): Link
  {
    Link(u.base, BeforeFirst(r.target, '#'),
         if c.isAnchor then Take(Strip(c.text), 500) else "",
         r.host == u.baseHost || EndsWith(r.host, "." + u.baseHost))
  }

  predicate Raising(u: Urls, c: Candidate) { !Skipped(u, Raw(c)) && u.resolve(Raw(c)).None? }

  /** The link a candidate stands for, if it is an http(s) link at all. */
  function Candidacy(u: Urls, c: Candidate): Option<Link>
  {
    if Skipped(u, Raw(c)) || u.resolve(Raw(c)).None? then None
    else
      var r := u.resolve(Raw(c)).value;
      if r.scheme == "http" || r.scheme == "https" then Some(LinkOf(u, c, r)) else None
  }

  function Candidacies(u: Urls, cands: seq<Candidate>): seq<Option<Link>>
  {
    seq(|cands|, k requires 0 <= k < |cands| => Candidacy(u, cands[k]))
  }

  /** `extract_links`; an unparsable address makes the whole extraction raise. */
  method ExtractLinks(u: Urls, cands: seq<Candidate>) returns (r: Option<seq<Link>>)
    ensures r.None? <==> exists k :: 0 <= k < |cands| && Raising(u, cands[k])
    ensures r.Some? ==> FirstLinks(u, cands, r.value)
  {
    var seen: set<string> := {};
    var results: seq<Link> := [];
    ghost var from: seq<nat> := [];
    ghost var cs := Candidacies(u, cands);
    for k := 0 to |cands|
      invariant forall j :: 0 <= j < k ==> !Raising(u, cands[j])
      invariant SeenTargets(seen, results)
      invariant Sources(cs, k, results, from)
    {
      var raw := Raw(cands[k]);
      if Skipped(u, raw) {
        SourcesSkip(cs, k, results, from);
        continue;
      }
      var resolved := u.resolve(raw);
      if resolved.None? {
        assert Raising(u, cands[k]);
        return None;
      }
      var parsed := resolved.value;
      if parsed.scheme != "http" && parsed.scheme != "https" {
        SourcesSkip(cs, k, results, from);
        continue;
      }
      var link := LinkOf(u, cands[k], parsed);
      if link.target in seen {
        SourcesSeen(cs, k, results, from);
        continue;
      }
      SeenAppend(seen, results, link);
      SourcesNew(cs, k, results, from, link);
      seen := seen + {link.target};
      results := results + [link];
      from := from + [k];
    }
    r := Some(results);
  }

  /** `results[i]` comes from candidate `from[i]`, the first with its target; no target is left out. */
  ghost predicate Sources(cs: seq<Option<Link>>, n: nat, results: seq<Link>, from: seq<nat>)
  {
    && |from| == |results| && n <= |cs|
    && (forall i, j :: 0 <= i < j < |from| ==> from[i] < from[j])
    && (forall i :: 0 <= i < |from| ==> from[i] < n && cs[from[i]] == Some(results[i]))
    && DistinctTargets(results)
    && NoneMissing(cs, n, results, from)
  }

  ghost predicate HasTarget(results: seq<Link>, t: string)
  {
    exists i :: 0 <= i < |results| && results[i].target == t
  }

  ghost predicate SeenTargets(seen: set<string>, results: seq<Link>)
  {
    forall t :: t in seen <==> HasTarget(results, t)
  }

  lemma SeenAppend(seen: set<string>, results: seq<Link>, link: Link)
    requires SeenTargets(seen, results)
    ensures SeenTargets(seen + {link.target}, results + [link])
  {
    forall t ensures HasTarget(results + [link], t) <==> HasTarget(results, t) || t == link.target {
      HasTargetAppend(results, link, t);
    }
  }

  lemma HasTargetAppend(results: seq<Link>, link: Link, t: string)
    ensures HasTarget(results + [link], t) <==> HasTarget(results, t) || t == link.target
  {
    assert (results + [link])[|results|] == link;
    if HasTarget(results, t) {
      var i :| 0 <= i < |results| && results[i].target == t;
      assert (results + [link])[i].target == t;
    }
  }

  ghost predicate DistinctTargets(links: seq<Link>)
  {
    forall i, j :: 0 <= i < j < |links| ==> links[i].target != links[j].target
  }

  ghost predicate NoneMissing(cs: seq<Option<Link>>, n: nat, results: seq<Link>, from: seq<nat>)
    requires n <= |cs|
  {
    forall k :: 0 <= k < n && cs[k].Some? ==> Listed(results, from, k, cs[k].value.target)
  }

  ghost predicate Listed(results: seq<Link>, from: seq<nat>, k: nat, target: string)
  {
    exists i :: 0 <= i < |results| && i < |from| && results[i].target == target && from[i] <= k
  }

  /** The text starts like something that is not followed. */
  predicate Ignored(s: string)
  {
    "#" <= s || "mailto:" <= s || "tel:" <= s || "javascript:" <= s || "data:" <= s
  }

  /** The host of the page, or one below it. */
  ghost predicate SameSite(host: string, base: string)
  {
    host == base || exists sub :: host == sub + ("." + base)
  }

  /** The address up to its fragment, with the anchor's text cut to 500 characters. */
  ghost predicate IsLinkTo(u: Urls, c: Candidate, r: Resolved, l: Link)
  {
    && l.source == u.base
    && '#' !in l.target && l.target <= r.target && (l.target == r.target || r.target[|l.target|] == '#')
    && (var text := Strip(c.text); l.anchor == if !c.isAnchor then "" else if |text| <= 500 then text else text[..500])
    && (l.internal <==> SameSite(r.host, u.baseHost))
  }

  lemma LinkOfIs(u: Urls, c: Candidate, r: Resolved)
    ensures IsLinkTo(u, c, r, LinkOf(u, c, r))
  {
    var rest := BeforeFirstSplits(r.target, '#');
    EndsWithIs(r.host, "." + u.baseHost);
  }

  /** The link of a candidate: none when its address is blank, ignored, unresolvable or not http(s). */
  lemma CandidacyIs(u: Urls, c: Candidate)
    ensures var raw := if c.raw.Some? then Strip(c.raw.value) else "";
            var l := Candidacy(u, c);
            if raw == "" || Ignored(u.lower(raw)) || u.resolve(raw).None? then l == None
            else
              var r := u.resolve(raw).value;
              if r.scheme == "http" || r.scheme == "https" then l.Some? && IsLinkTo(u, c, r, l.value) else l == None
  {
    var raw := if c.raw.Some? then Strip(c.raw.value) else "";
    if u.resolve(raw).Some? {
      LinkOfIs(u, c, u.resolve(raw).value);
    }
  }

  lemma EndsWithIs(s: string, suffix: string)
    ensures EndsWith(s, suffix) <==> exists front :: s == front + suffix
  {
    if EndsWith(s, suffix) {
      assert s == s[..|s| - |suffix|] + suffix;
    }
  }

  /** Each destination once, at its first occurrence, in document order, and none missing. */
  ghost predicate FirstLinks(u: Urls, cands: seq<Candidate>, results: seq<Link>)
  {
    exists from :: Sources(Candidacies(u, cands), |cands|, results, from)
  }

  lemma SourcesSkip(cs: seq<Option<Link>>, k: nat, results: seq<Link>, from: seq<nat>)
    requires k < |cs| && Sources(cs, k, results, from) && cs[k].None?
    ensures Sources(cs, k + 1, results, from)
  {
  }

  lemma SourcesSeen(cs: seq<Option<Link>>, k: nat, results: seq<Link>, from: seq<nat>)
    requires k < |cs| && Sources(cs, k, results, from) && cs[k].Some?
    requires HasTarget(results, cs[k].value.target)
    ensures Sources(cs, k + 1, results, from)
  {
    var t := cs[k].value.target;
    var i :| 0 <= i < |results| && results[i].target == t;
    assert from[i] < k;
    assert Listed(results, from, k, t);
    assert NoneMissing(cs, k + 1, results, from);
  }

  lemma SourcesNew(cs: seq<Option<Link>>, k: nat, results: seq<Link>, from: seq<nat>, link: Link)
    requires k < |cs| && Sources(cs, k, results, from) && cs[k] == Some(link)
    requires !HasTarget(results, link.target)
    ensures Sources(cs, k + 1, results + [link], from + [k])
  {
    var rs, fs := results + [link], from + [k];
    forall j | 0 <= j < k + 1 && cs[j].Some?
      ensures Listed(rs, fs, j, cs[j].value.target)
    {
      if j < k {
        var t := cs[j].value.target;
        assert Listed(results, from, j, t);
        var i :| 0 <= i < |results| && results[i].target == t && from[i] <= j;
        assert rs[i].target == t && fs[i] <= j;
      } else {
        assert rs[|results|] == link && fs[|results|] == k;
      }
    }
  }
}
