/**
 * The Route attribute: the HTTP methods a route accepts, its path, its
 * controller action and the name-to-fragment map that extraction installs,
 * together with the memoised compilation. The shortcut attributes (Get,
 * Post, Put, Patch, Delete, Any) only fix the method list.
 */
module Attributes {
  import opened Common
  import opened RoutesCompiler

  /** The shortcut attributes. */
  datatype Shortcut = Get | Post | Put | Patch | Delete | Any

  /** The method list a shortcut passes to Route: one method, or none for Any (every method). */
  function ShortcutMethods(s: Shortcut): (ms: seq<string>)
    ensures |ms| <= 1
    ensures ms == [] <==> s == Any
  {
    match s
    case Get => ["GET"]
    case Post => ["POST"]
    case Put => ["PUT"]
    case Patch => ["PATCH"]
    case Delete => ["DELETE"]
    case Any => []
  }

  /** Different shortcuts give different method lists. */
  lemma ShortcutsDistinct(a: Shortcut, b: Shortcut)
    ensures ShortcutMethods(a) == ShortcutMethods(b) <==> a == b
  {
    if a != b && ShortcutMethods(a) != [] && ShortcutMethods(b) != [] {
      assert ShortcutMethods(a)[0] != ShortcutMethods(b)[0];
    }
  }

  class Route {
    var methods: seq<string>
    var path: string
    var action: seq<string>
    var varsRegex: map<string, string>
    var compiled: Option<CompiledRoute>

    /** A route with no action, no variable fragments and not yet compiled. */
    constructor (methods: seq<string>, path: string)
      ensures this.methods == methods && this.path == path
      ensures action == [] && varsRegex == map[] && compiled == None
    {
      this.methods := methods;
      this.path := path;
      action := [];
      varsRegex := map[];
      compiled := None;
    }

    /** A route built by a shortcut attribute. */
    constructor FromShortcut(s: Shortcut, path: string)
      ensures methods == ShortcutMethods(s) && this.path == path
      ensures action == [] && varsRegex == map[] && compiled == None
    {
      methods := ShortcutMethods(s);
      this.path := path;
      action := [];
      varsRegex := map[];
      compiled := None;
    }

    method SetPath(path: string)
      modifies this
      ensures this.path == path
      ensures methods == old(methods) && action == old(action)
      ensures varsRegex == old(varsRegex) && compiled == old(compiled)
    {
      this.path := path;
    }

    method SetAction(action: seq<string>)
      modifies this
      ensures this.action == action
      ensures methods == old(methods) && path == old(path)
      ensures varsRegex == old(varsRegex) && compiled == old(compiled)
    {
      this.action := action;
    }

    method SetVarsRegex(varsRegex: map<string, string>)
      modifies this
      ensures this.varsRegex == varsRegex
      ensures methods == old(methods) && path == old(path)
      ensures action == old(action) && compiled == old(compiled)
    {
      this.varsRegex := varsRegex;
    }

    /** The fragment recorded for a variable name; none for a name extraction did not record. */
    function GetVarRegex(name: string): (r: Option<string>)
      reads this
      ensures r.None? <==> name !in varsRegex
      ensures r.Some? ==> r.value == varsRegex[name]
    {
      if name in varsRegex then Some(varsRegex[name]) else None
    }

    /**
     * compile(): the cached result when there is one; otherwise the
     * compiler runs, and a successful result is cached.
     */
    method Compile() returns (r: Result<CompiledRoute, CompileError>)
      modifies this
      ensures old(compiled).Some? ==> r == Ok(old(compiled).value) && unchanged(this)
      ensures old(compiled).None? ==>
                && methods == old(methods) && action == old(action)
                && CompiledBy(old(path), path, varsRegex, old(varsRegex), r)
                && compiled == (if r.Ok? then Some(r.value) else None)
    {
      if compiled.Some? {
        return Ok(compiled.value);
      }
      r := CompileRoute(this);
      if r.Ok? {
        compiled := Some(r.value);
      }
    }
  }

  /**
   * What compiling a route path does to the route: an extraction failure
   * leaves path and fragments as they were; otherwise the rewritten path and
   * the fragments are installed and the pattern is compiled from them.
   */
  ghost predicate CompiledBy(path0: string, path: string, regs: map<string, string>, regs0: map<string, string>,
                             r: Result<CompiledRoute, CompileError>)
  {
    match Extract(path0)
    case Err(e) => r == Err(e) && path == path0 && regs == regs0
    case Ok(x) => path == x.path && regs == x.varsRegex && r == Compiled(x.path, x.varsRegex)
  }

  /** RoutesCompiler::compile: extraction (which rewrites the route), then the pattern compiler. */
  method CompileRoute(route: Route) returns (r: Result<CompiledRoute, CompileError>)
    modifies route
    ensures route.methods == old(route.methods) && route.action == old(route.action)
    ensures route.compiled == old(route.compiled)
    ensures CompiledBy(old(route.path), route.path, route.varsRegex, old(route.varsRegex), r)
  {
    var x := ExtractVarsRegex(route.path);
    if x.Err? {
      return Err(x.error);
    }
    route.SetPath(x.value.path);
    route.SetVarsRegex(x.value.varsRegex);
    r := CompilePattern(route.path, route.varsRegex);
  }

  /** Calling compile() again after a success returns the same compiled route and changes nothing. */
  method CompileIsMemoised(route: Route) returns (first: Result<CompiledRoute, CompileError>,
                                                   second: Result<CompiledRoute, CompileError>)
    modifies route
    ensures first.Ok? ==> second == first && route.compiled == Some(first.value)
  {
    first := route.Compile();
    ghost var path := route.path;
    second := route.Compile();
    assert first.Ok? ==> route.path == path;
  }
}
