/**
 * The Router object: the compiled table it holds, registering routes into
 * it, and match/doMatch over it as they run, proved equal to the functions
 * of the Routing module.
 */
module RouterRun {
  import opened Common
  import opened RouteTable
  import opened RoutesDumper
  import opened DumperTree
  import opened DumperChunks
  import opened DumperCompiled
  import opened DumperRun
  import opened Routing
  import opened RoutingProperties

  /** The table before any routes are registered: the empty PHP array. */
  function EmptyTable(): Table
  {
    Table(map[], [], map[])
  }

  /** An addressed chunk's regex is its rendered alternatives followed by the text after the last verb. */
  lemma AddressedTail(c: Chunk) returns (tail: string)
    requires Addressed(c)
    ensures c.regex == Render(c.alts) + tail
  {
    tail := c.regex[|Render(c.alts)|..];
  }

  /**
   * The foreach over the chunk regexes of doMatch: each chunk is scanned
   * (and rewritten in place) until a route is found.
   */
  method ScanTable(chunks: seq<Chunk>, routes: map<nat, seq<Option<Entry>>>, pathinfo: string,
                   requestMethod: string, leafMatch: LeafMatch, allow0: seq<string>) returns (s: Scan)
    requires AllAddressed(chunks)
    ensures s == ScanChunks(chunks, routes, pathinfo, requestMethod, leafMatch, allow0)
  {
    var allow := allow0;
    for k := 0 to |chunks|
      invariant ScanChunks(chunks, routes, pathinfo, requestMethod, leafMatch, allow0)
                == ScanChunks(chunks[k..], routes, pathinfo, requestMethod, leafMatch, allow)
    {
      var c := chunks[k];
      assert chunks[k..][0] == c && chunks[k..][1..] == chunks[k + 1..];
      AllAddressedAt(chunks, k);
      ghost var tail := AddressedTail(c);
      var r := ScanChunk(c, routes, pathinfo, requestMethod, leafMatch, allow, tail);
      if r.Found? {
        return r;
      }
      allow := r.allow;
    }
    return Refused(allow);
  }

  class Router {
    /** $this->compiledRoutes: [statics, chunk regexes by key, route lists by mark]. */
    var compiledRoutes: Table

    /** Every chunk in the table is addressed, so the in-place rewrites find their verbs. */
    ghost predicate Valid()
      reads this
    {
      AllAddressed(compiledRoutes.chunks)
    }

    constructor()
      ensures Valid() && compiledRoutes == EmptyTable()
    {
      compiledRoutes := EmptyTable();
    }

    /**
     * registerRoutesFromControllers without the cache file and the class
     * scan: the routes found are compiled and installed; when the dumper
     * throws, the table is left as it was.
     */
    method RegisterRoutes(routes: seq<RouteInfo>, rxMatch: (string, string) -> bool,
                          build: seq<Item> -> seq<Item>, tooLarge: string -> bool) returns (r: Result<(), Signal>)
      requires BuildsTree(build) && Valid()
      modifies this
      ensures Valid()
      ensures r.Ok? <==> CompiledRoutes(routes, rxMatch, build, tooLarge).Ok?
      ensures r.Ok? ==> compiledRoutes == CompiledRoutes(routes, rxMatch, build, tooLarge).value
      ensures r.Err? ==> r.error == CompiledRoutes(routes, rxMatch, build, tooLarge).error
                         && compiledRoutes == old(compiledRoutes)
    {
      var compiled := GetCompiledRoutes(routes, rxMatch, build, tooLarge);
      if compiled.Ok? {
        CompiledAddressed(routes, rxMatch, build, tooLarge);
        compiledRoutes := compiled.value;
        r := Result.Ok(());
      } else {
        r := Err(compiled.error);
      }
    }

    /**
     * doMatch: the static entries of the exact path, then each chunk regex in
     * key order, with allow starting empty.
     */
    method DoMatch(pathinfo: string, requestMethod: string, leafMatch: LeafMatch) returns (s: Scan)
      requires Valid()
      ensures s == Routing.DoMatch(compiledRoutes, pathinfo, requestMethod, leafMatch)
    {
      var entries := if pathinfo in compiledRoutes.statics then compiledRoutes.statics[pathinfo] else [];
      s := TryStatic(entries, requestMethod);
      if s.Found? {
        return;
      }
      s := ScanTable(compiledRoutes.chunks, compiledRoutes.routes, pathinfo, requestMethod, leafMatch, s.allow);
    }

    /** match: the action when doMatch found one, else 405 with the allowed methods, else 404. */
    method Match(pathinfo: string, requestMethod: string, leafMatch: LeafMatch) returns (o: Outcome)
      requires Valid()
      ensures o == Routing.Match(compiledRoutes, pathinfo, requestMethod, leafMatch)
    {
      var s := DoMatch(pathinfo, requestMethod, leafMatch);
      if s.Found? && (s.ret.action != [] || s.ret.params != []) {
        return Outcome.Ok(s.ret);
      }
      if s.allow != [] {
        return MethodNotAllowed(s.allow);
      }
      return NotFound;
    }
  }

  // ---------------------------------------------------------------------------
  // The response run gives when match throws

  /** join(', ', ...) */
  function Join(xs: seq<string>): (r: string)
    ensures xs == [] ==> r == []
    ensures |xs| == 1 ==> r == xs[0]
    decreases |xs|
  {
    if xs == [] then [] else if |xs| == 1 then xs[0] else xs[0] + ", " + Join(xs[1..])
  }

  /**
   * What run sends besides the controller's own output: the status code
   * (200 unless changed), the Allow header, and whether the no-cache
   * headers are sent.
   */
  datatype Reply = Reply(status: nat, allow: Option<string>, noCache: bool)

  /**
   * A 405 carries Allow with the allowed methods; HEAD gets the no-cache
   * headers instead of the 405 status and OPTIONS keeps 200; a 404 sends
   * nothing else; a match leaves the reply to the controller.
   */
  function RunReply(o: Outcome, requestMethod: string): (r: Reply)
    ensures r.allow.Some? <==> o.MethodNotAllowed?
    ensures o.MethodNotAllowed? ==> r.allow == Some(Join(o.allowed))
    ensures r.status == 404 <==> o.NotFound?
    ensures r.status == 405 <==> o.MethodNotAllowed? && requestMethod != "HEAD" && requestMethod != "OPTIONS"
    ensures r.noCache <==> o.MethodNotAllowed? && requestMethod == "HEAD"
    ensures r.status in {200, 404, 405}
  {
    match o
    case Ok(_) => Reply(200, None, false)
    case NotFound => Reply(404, None, false)
    case MethodNotAllowed(al) =>
      if requestMethod == "HEAD" then Reply(200, Some(Join(al)), true)
      else if requestMethod == "OPTIONS" then Reply(200, Some(Join(al)), false)
      else Reply(405, Some(Join(al)), false)
  }

  /** A path whose static entries all refuse the method never gets a 404 from run. */
  lemma StaticRefusedNo404(t: Table, path: string, requestMethod: string, leafMatch: LeafMatch)
    requires StaticAt(t.statics, path) != []
    requires forall k :: 0 <= k < |StaticAt(t.statics, path)| ==> !Accepts(StaticAt(t.statics, path)[k], requestMethod)
    ensures RunReply(Routing.Match(t, path, requestMethod, leafMatch), requestMethod).status != 404
  {
    StaticRefusedNotFound(t, path, requestMethod, leafMatch);
  }
}
