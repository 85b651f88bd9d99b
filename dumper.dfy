/**
 * The table builder (RoutesDumper).
 *
 * Routes without variables go to a per-URL static map unless an earlier
 * dynamic route already matches their URL; all others form an ordered
 * dynamic list. The dynamic list is cut into chunks, and every chunk
 * becomes one regex whose alternatives end in "(*:mark)"; the mark of an
 * alternative, minus the chunk's key, is the index of its ':' in that
 * regex, and the routes to try for a mark are stored under it.
 *
 * PCRE is not modelled: a regex match is an uninterpreted parameter, and so
 * is the check that rejects a regex that is too large.
 */
module RoutesDumper {
  import opened Common
  import opened RoutesCompiler
  import opened RouteTable

  /**
   * A route as the dumper reads it once compile() has run: its methods, its
   * path (type tags already removed), its action and its compiled record.
   * compile() is memoised, so every call the dumper makes returns this record.
   */
  datatype RouteInfo = RouteInfo(methods: seq<string>, path: string, action: seq<string>, compiled: CompiledRoute)

  /** compileRoute: a static entry has no variable list, a dynamic one has its names. */
  function EntryOf(r: RouteInfo, vars: Option<seq<string>>): (e: Entry)
    ensures e.action == r.action && e.methods == r.methods && e.vars == vars
  {
    Entry(r.action, r.methods, vars)
  }

  // ---------------------------------------------------------------------------
  // groupStaticRoutes

  /** rtrim(s, '/'). */
  function TrimSlashes(s: string): (r: string)
    ensures r <= s && (r == [] || r[|r| - 1] != '/')
    ensures forall k :: |r| <= k < |s| ==> s[k] == '/'
  {
    if s != [] && s[|s| - 1] == '/' then TrimSlashes(s[..|s| - 1]) else s
  }

  /** What is remembered of a dynamic route: its regex and its static prefix without trailing slashes. */
  datatype Probe = Probe(regex: string, prefix: string)

  function ProbeOf(r: RouteInfo): Probe
  {
    Probe(r.compiled.regex, TrimSlashes(r.compiled.staticPrefix))
  }

  function Probes(d: seq<RouteInfo>): (ps: seq<Probe>)
    ensures |ps| == |d| && forall k :: 0 <= k < |d| ==> ps[k] == ProbeOf(d[k])
  {
    seq(|d|, k requires 0 <= k < |d| => ProbeOf(d[k]))
  }

  /** A dynamic route captures a URL when its prefix fits and its regex matches the URL with or without a final '/'. */
  predicate Demotes(p: Probe, url: string, rxMatch: (string, string) -> bool)
  {
    (p.prefix == "" || p.prefix <= url) && (rxMatch(p.regex, url) || rxMatch(p.regex, url + "/"))
  }

  /** A route is dynamic when it has variables or an earlier dynamic route captures its URL. */
  predicate IsDynamic(probes: seq<Probe>, r: RouteInfo, rxMatch: (string, string) -> bool)
  {
    r.compiled.pathVariables != [] || exists k :: 0 <= k < |probes| && Demotes(probes[k], r.path, rxMatch)
  }

  /** The dynamic list groupStaticRoutes builds, in input order. */
  function DynamicOf(routes: seq<RouteInfo>, rxMatch: (string, string) -> bool): seq<RouteInfo>
    decreases |routes|
  {
    if routes == [] then []
    else
      var d := DynamicOf(routes[..|routes| - 1], rxMatch);
      if IsDynamic(Probes(d), routes[|routes| - 1], rxMatch) then d + [routes[|routes| - 1]] else d
  }

  /** The routes that stay static, in input order. */
  function StaticOf(routes: seq<RouteInfo>, rxMatch: (string, string) -> bool): seq<RouteInfo>
    decreases |routes|
  {
    if routes == [] then []
    else
      var s := StaticOf(routes[..|routes| - 1], rxMatch);
      var d := DynamicOf(routes[..|routes| - 1], rxMatch);
      if IsDynamic(Probes(d), routes[|routes| - 1], rxMatch) then s else s + [routes[|routes| - 1]]
  }

  /** $staticRoutes[$url][] = $route over a list: one bucket per URL. */
  function Buckets(rs: seq<RouteInfo>): map<string, seq<RouteInfo>>
    decreases |rs|
  {
    if rs == [] then map[]
    else
      var b := Buckets(rs[..|rs| - 1]);
      var r := rs[|rs| - 1];
      b[r.path := (if r.path in b then b[r.path] else []) + [r]]
  }

  lemma GroupStep(routes: seq<RouteInfo>, i: nat, rxMatch: (string, string) -> bool)
    requires i < |routes|
    ensures var d := DynamicOf(routes[..i], rxMatch);
            var s := StaticOf(routes[..i], rxMatch);
            if IsDynamic(Probes(d), routes[i], rxMatch)
            then DynamicOf(routes[..i + 1], rxMatch) == d + [routes[i]] && StaticOf(routes[..i + 1], rxMatch) == s
            else DynamicOf(routes[..i + 1], rxMatch) == d && StaticOf(routes[..i + 1], rxMatch) == s + [routes[i]]
  {
    assert routes[..i + 1][..i] == routes[..i];
  }

  lemma BucketsSnoc(rs: seq<RouteInfo>, r: RouteInfo)
    ensures var b := Buckets(rs);
            Buckets(rs + [r]) == b[r.path := (if r.path in b then b[r.path] else []) + [r]]
  {
    assert (rs + [r])[..|rs|] == rs;
  }

  lemma ProbesSnoc(d: seq<RouteInfo>, r: RouteInfo)
    ensures Probes(d + [r]) == Probes(d) + [ProbeOf(r)]
  {
  }

  /** Every route lands in exactly one of the two groups. */
  lemma {:induction false} GroupsPartition(routes: seq<RouteInfo>, rxMatch: (string, string) -> bool)
    ensures multiset(DynamicOf(routes, rxMatch)) + multiset(StaticOf(routes, rxMatch)) == multiset(routes)
    decreases |routes|
  {
    if routes != [] {
      var init := routes[..|routes| - 1];
      GroupsPartition(init, rxMatch);
      assert routes == init + [routes[|routes| - 1]];
    }
  }

  /** The routes of a list with a given URL, in order. */
  function WithPath(rs: seq<RouteInfo>, url: string): seq<RouteInfo>
    decreases |rs|
  {
    if rs == [] then []
    else WithPath(rs[..|rs| - 1], url) + (if rs[|rs| - 1].path == url then [rs[|rs| - 1]] else [])
  }

  /** A bucket holds exactly the routes with its URL, in list order; there is a bucket for every URL present. */
  lemma {:induction false} BucketsKeepOrder(rs: seq<RouteInfo>, url: string)
    ensures url in Buckets(rs) <==> WithPath(rs, url) != []
    ensures url in Buckets(rs) ==> Buckets(rs)[url] == WithPath(rs, url)
    decreases |rs|
  {
    if rs != [] {
      BucketsKeepOrder(rs[..|rs| - 1], url);
    }
  }

  /** The inner foreach over $dynamicRegex: does an earlier dynamic route capture the URL? */
  method FindCapturing(dynamicRegex: seq<Probe>, url: string, rxMatch: (string, string) -> bool) returns (found: bool)
    ensures found <==> exists k :: 0 <= k < |dynamicRegex| && Demotes(dynamicRegex[k], url, rxMatch)
  {
    var j := 0;
    while j < |dynamicRegex| && !Demotes(dynamicRegex[j], url, rxMatch)
      invariant j <= |dynamicRegex|
      invariant forall k :: 0 <= k < j ==> !Demotes(dynamicRegex[k], url, rxMatch)
    {
      j := j + 1;
    }
    return j < |dynamicRegex|;
  }

  /** groupStaticRoutes: the static buckets and the dynamic list. */
  method GroupStaticRoutes(routes: seq<RouteInfo>, rxMatch: (string, string) -> bool)
    returns (staticRoutes: map<string, seq<RouteInfo>>, dynamicRoutes: seq<RouteInfo>)
    ensures dynamicRoutes == DynamicOf(routes, rxMatch)
    ensures staticRoutes == Buckets(StaticOf(routes, rxMatch))
  {
    staticRoutes := map[];
    dynamicRoutes := [];
    var dynamicRegex: seq<Probe> := [];
    for i := 0 to |routes|
      invariant dynamicRoutes == DynamicOf(routes[..i], rxMatch)
      invariant dynamicRegex == Probes(dynamicRoutes)
      invariant staticRoutes == Buckets(StaticOf(routes[..i], rxMatch))
    {
      var route := routes[i];
      GroupStep(routes, i, rxMatch);
      ProbesSnoc(dynamicRoutes, route);
      BucketsSnoc(StaticOf(routes[..i], rxMatch), route);
      if route.compiled.pathVariables == [] {
        var url := route.path;
        var captured := FindCapturing(dynamicRegex, url, rxMatch);
        if captured {
          dynamicRegex := dynamicRegex + [ProbeOf(route)];
          dynamicRoutes := dynamicRoutes + [route];
        } else {
          staticRoutes := staticRoutes[url := (if url in staticRoutes then staticRoutes[url] else []) + [route]];
        }
      } else {
        dynamicRegex := dynamicRegex + [ProbeOf(route)];
        dynamicRoutes := dynamicRoutes + [route];
      }
    }
    assert routes[..|routes|] == routes;
  }

  /** compileStaticRoutes: every bucket becomes its list of static entries, in order. */
  function CompileStaticRoutes(staticRoutes: map<string, seq<RouteInfo>>): (r: map<string, seq<Entry>>)
    ensures r.Keys == staticRoutes.Keys
    ensures forall url :: url in r ==> |r[url]| == |staticRoutes[url]|
    ensures forall url, k :: url in r && 0 <= k < |r[url]| ==> r[url][k] == EntryOf(staticRoutes[url][k], None)
  {
    map url | url in staticRoutes :: seq(|staticRoutes[url]|, k requires 0 <= k < |staticRoutes[url]| => EntryOf(staticRoutes[url][k], None))
  }

  // ---------------------------------------------------------------------------
  // Cutting the dynamic list into chunks

  predicate IsLetter(c: char)
  {
    IsUpper(c) || IsLower(c)
  }

  /** The trailing letters of a regex (`[a-zA-Z]*$`): its modifiers. */
  function Modifiers(regex: string): (m: string)
    ensures |m| <= |regex| && m == regex[|regex| - |m|..]
    ensures forall k :: 0 <= k < |m| ==> IsLetter(m[k])
    ensures |m| < |regex| ==> !IsLetter(regex[|regex| - |m| - 1])
    decreases |regex|
  {
    if regex != [] && IsLetter(regex[|regex| - 1]) then Modifiers(regex[..|regex| - 1]) + [regex[|regex| - 1]] else []
  }

  /** One chunk of routes sharing the modifiers of the route that opened it. */
  datatype Batch = Batch(modifiers: string, routes: seq<RouteInfo>)

  /** A route opens a new chunk when the current one is full, or when it has variables and other modifiers. */
  predicate Opens(batches: seq<Batch>, r: RouteInfo, chunkLimit: int)
  {
    || batches == []
    || chunkLimit < |batches[|batches| - 1].routes| + 1
    || (batches[|batches| - 1].modifiers != Modifiers(r.compiled.regex) && r.compiled.pathVariables != [])
  }

  /** One route added to the chunks: a new chunk, or the end of the current one. */
  function AddRoute(bs: seq<Batch>, r: RouteInfo, chunkLimit: int): (n: seq<Batch>)
    ensures n != [] && |n| == (if Opens(bs, r, chunkLimit) then |bs| + 1 else |bs|)
    ensures n[|n| - 1] == if Opens(bs, r, chunkLimit) then Batch(Modifiers(r.compiled.regex), [r])
                          else bs[|bs| - 1].(routes := bs[|bs| - 1].routes + [r])
    ensures n[..|n| - 1] == if Opens(bs, r, chunkLimit) then bs else bs[..|bs| - 1]
  {
    if Opens(bs, r, chunkLimit) then bs + [Batch(Modifiers(r.compiled.regex), [r])]
    else bs[..|bs| - 1] + [bs[|bs| - 1].(routes := bs[|bs| - 1].routes + [r])]
  }

  function Batches(routes: seq<RouteInfo>, chunkLimit: int): seq<Batch>
    decreases |routes|
  {
    if routes == [] then [] else AddRoute(Batches(routes[..|routes| - 1], chunkLimit), routes[|routes| - 1], chunkLimit)
  }

  lemma BatchesStep(routes: seq<RouteInfo>, i: nat, chunkLimit: int)
    requires i < |routes|
    ensures Batches(routes[..i + 1], chunkLimit) == AddRoute(Batches(routes[..i], chunkLimit), routes[i], chunkLimit)
  {
    assert routes[..i + 1][..i] == routes[..i];
  }

  /** The test of the foreach, read against the chunks built so far. */
  lemma OpensWhen(bs: seq<Batch>, r: RouteInfo, chunkLimit: int, chunkSize: int, prev: Option<string>)
    requires bs != [] ==> chunkSize == |bs[|bs| - 1].routes| && prev == Some(bs[|bs| - 1].modifiers)
    requires bs == [] ==> chunkSize == 0 && prev == None && (chunkLimit < 1 || r.compiled.pathVariables != [])
    ensures Opens(bs, r, chunkLimit)
            <==> chunkLimit < chunkSize + 1 || (prev != Some(Modifiers(r.compiled.regex)) && r.compiled.pathVariables != [])
  {
  }

  /** The loop's counters agree with the chunks built so far: the size and modifiers of the last one. */
  predicate Cursor(bs: seq<Batch>, chunkSize: int, prev: Option<string>)
  {
    if bs == [] then chunkSize == 0 && prev == None
    else chunkSize == |bs[|bs| - 1].routes| && prev == Some(bs[|bs| - 1].modifiers)
  }

  /** The loop body in two steps (perhaps open an empty chunk, then append to the last one) is AddRoute. */
  lemma AddRouteInTwo(bs: seq<Batch>, r: RouteInfo, chunkLimit: int, grown: seq<Batch>, n: seq<Batch>)
    requires grown == (if Opens(bs, r, chunkLimit) then bs + [Batch(Modifiers(r.compiled.regex), [])] else bs)
    requires grown != []
    requires n == grown[..|grown| - 1] + [grown[|grown| - 1].(routes := grown[|grown| - 1].routes + [r])]
    ensures n == AddRoute(bs, r, chunkLimit)
  {
    if Opens(bs, r, chunkLimit) {
      assert grown[..|grown| - 1] == bs;
      assert [] + [r] == [r];
    }
  }

  /** One iteration of the foreach that fills $perModifiers: the route goes into a new chunk or the current one. */
  method PlaceRoute(perModifiers: seq<Batch>, chunkSize: int, prev: Option<string>, route: RouteInfo, chunkLimit: int)
    returns (perModifiers': seq<Batch>, chunkSize': int, prev': Option<string>)
    requires Cursor(perModifiers, chunkSize, prev)
    requires perModifiers == [] ==> chunkLimit < 1 || route.compiled.pathVariables != []
    ensures perModifiers' == AddRoute(perModifiers, route, chunkLimit) && Cursor(perModifiers', chunkSize', prev')
  {
    var rx := Modifiers(route.compiled.regex);
    OpensWhen(perModifiers, route, chunkLimit, chunkSize, prev);
    chunkSize', prev', perModifiers' := chunkSize + 1, prev, perModifiers;
    if chunkLimit < chunkSize' || (prev' != Some(rx) && route.compiled.pathVariables != []) {
      chunkSize' := 1;
      perModifiers' := perModifiers' + [Batch(rx, [])];
      prev' := Some(rx);
    }
    ghost var grown := perModifiers';
    var last := perModifiers'[|perModifiers'| - 1];
    perModifiers' := perModifiers'[..|perModifiers'| - 1] + [last.(routes := last.routes + [route])];
    AddRouteInTwo(perModifiers, route, chunkLimit, grown, perModifiers');
  }

  /**
   * The foreach of compileDynamicRoutes that fills $perModifiers. The first
   * route must open the first chunk, which the grouping guarantees (its
   * first dynamic route has variables).
   */
  method CutChunks(collection: seq<RouteInfo>, chunkLimit: int) returns (perModifiers: seq<Batch>)
    requires collection == [] || chunkLimit < 1 || collection[0].compiled.pathVariables != []
    ensures perModifiers == Batches(collection, chunkLimit)
  {
    var chunkSize := 0;
    var prev: Option<string> := None;
    perModifiers := [];
    for i := 0 to |collection|
      invariant perModifiers == Batches(collection[..i], chunkLimit)
      invariant perModifiers == [] <==> i == 0
      invariant Cursor(perModifiers, chunkSize, prev)
    {
      BatchesStep(collection, i, chunkLimit);
      perModifiers, chunkSize, prev := PlaceRoute(perModifiers, chunkSize, prev, collection[i], chunkLimit);
    }
    assert collection[..|collection|] == collection;
  }

  /** The routes of a list of chunks, in order. */
  function Flatten(bs: seq<Batch>): seq<RouteInfo>
    decreases |bs|
  {
    if bs == [] then [] else Flatten(bs[..|bs| - 1]) + bs[|bs| - 1].routes
  }

  lemma FlattenSnoc(bs: seq<Batch>, b: Batch)
    ensures Flatten(bs + [b]) == Flatten(bs) + b.routes
  {
    assert (bs + [b])[..|bs|] == bs;
  }

  /** Adding a route to the chunks adds it at the end of their concatenation. */
  lemma FlattenAddRoute(bs: seq<Batch>, r: RouteInfo, chunkLimit: int)
    ensures Flatten(AddRoute(bs, r, chunkLimit)) == Flatten(bs) + [r]
  {
    var n := AddRoute(bs, r, chunkLimit);
    assert n == n[..|n| - 1] + [n[|n| - 1]];
    FlattenSnoc(n[..|n| - 1], n[|n| - 1]);
    if !Opens(bs, r, chunkLimit) {
      var last := bs[|bs| - 1];
      assert bs == bs[..|bs| - 1] + [last];
      FlattenSnoc(bs[..|bs| - 1], last);
      AppendAssoc(Flatten(bs[..|bs| - 1]), last.routes, [r]);
    }
  }

  /** Every chunk is non-empty and holds at most chunkLimit routes (one, when the limit is below one). */
  predicate Bounded(bs: seq<Batch>, chunkLimit: int)
  {
    forall k :: 0 <= k < |bs| ==> bs[k].routes != [] && (|bs[k].routes| <= chunkLimit || |bs[k].routes| == 1)
  }

  lemma AddRouteBounded(bs: seq<Batch>, r: RouteInfo, chunkLimit: int)
    requires Bounded(bs, chunkLimit)
    ensures Bounded(AddRoute(bs, r, chunkLimit), chunkLimit)
  {
    var n := AddRoute(bs, r, chunkLimit);
    forall k | 0 <= k < |n| - 1
      ensures n[k] == bs[k]
    {
      assert n[k] == n[..|n| - 1][k];
    }
  }

  /**
   * The chunks are consecutive pieces of the dynamic list: non-empty, within
   * the limit, and concatenating back to the list.
   */
  lemma {:induction false} ChunksPartition(routes: seq<RouteInfo>, chunkLimit: int)
    ensures Flatten(Batches(routes, chunkLimit)) == routes
    ensures Bounded(Batches(routes, chunkLimit), chunkLimit)
    decreases |routes|
  {
    if routes != [] {
      var init := routes[..|routes| - 1];
      ChunksPartition(init, chunkLimit);
      FlattenAddRoute(Batches(init, chunkLimit), routes[|routes| - 1], chunkLimit);
      AddRouteBounded(Batches(init, chunkLimit), routes[|routes| - 1], chunkLimit);
      InitLast(routes);
    }
  }

  /**
   * The first dynamic route has variables: a route without variables is only
   * demoted when an earlier dynamic route captures its URL.
   */
  lemma {:induction false} FirstDynamicHasVars(routes: seq<RouteInfo>, rxMatch: (string, string) -> bool)
    ensures DynamicOf(routes, rxMatch) != [] ==> DynamicOf(routes, rxMatch)[0].compiled.pathVariables != []
    decreases |routes|
  {
    if routes != [] {
      var init := routes[..|routes| - 1];
      FirstDynamicHasVars(init, rxMatch);
      if DynamicOf(init, rxMatch) != [] {
        assert DynamicOf(routes, rxMatch)[0] == DynamicOf(init, rxMatch)[0];
      }
    }
  }

  // ---------------------------------------------------------------------------
  // The regex of a route, as the chunk builder reads it

  /** `^.\^(.*)\$.[a-zA-Z]*$` on a compiled regex "{^" + body + "$}sD": the body. */
  function BodyOf(regex: string): string
  {
    if |regex| >= 6 then regex[2..|regex| - 4] else ""
  }

  /** The closing '>' of a group name starting at j: `[^>]++>` needs at least one byte before it. */
  function NameEnd(s: string, j: nat): (r: Option<nat>)
    ensures r.Some? ==> j < r.value < |s| && s[r.value] == '>' && forall l :: j <= l < r.value ==> s[l] != '>'
    decreases |s| - j
  {
    if j >= |s| || s[j] == '>' then None
    else if j + 1 < |s| && s[j + 1] == '>' then Some(j + 1)
    else
      match NameEnd(s, j + 1)
      case None => None
      case Some(k) => Some(k)
  }

  /** A "?P<name>" starting at i: the index of its '>'. */
  function NameAt(s: string, i: nat): (r: Option<nat>)
    ensures r.Some? ==> i + 3 < r.value < |s|
  {
    if i + 3 <= |s| && s[i] == '?' && s[i + 1] == 'P' && s[i + 2] == '<' then NameEnd(s, i + 3) else None
  }

  /** The body with every "?P<name>" removed, and the removed names in order. */
  datatype Stripped = Stripped(text: string, names: seq<string>)

  /** preg_replace_callback('#\?P<([^>]++)>#', …) from index i: leftmost matches, left to right. */
  function StripFrom(s: string, i: nat): (r: Stripped)
    requires i <= |s|
    ensures |r.text| <= |s| - i
    decreases |s| - i
  {
    if i == |s| then Stripped("", [])
    else match NameAt(s, i)
      case Some(j) =>
        var rest := StripFrom(s, j + 1);
        Stripped(rest.text, [s[i + 3..j]] + rest.names)
      case None =>
        var rest := StripFrom(s, i + 1);
        Stripped([s[i]] + rest.text, rest.names)
  }

  function StripNames(s: string): Stripped
  {
    StripFrom(s, 0)
  }
}
