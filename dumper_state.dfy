/**
 * The dumper as it runs: the shared $state object that
 * compileStaticPrefixCollection updates through its recursion, the chunk
 * loop of compileDynamicRoutes, and the retry loop of getCompiledRoutes.
 * Each method is proved equal to the value-level definitions of
 * DumperTree and DumperChunks, where the properties are proved.
 */
module DumperRun {
  import opened Common
  import opened RouteTable
  import opened RoutesDumper
  import opened DumperTree
  import opened DumperChunks
  import opened DumperCompiled

  /**
   * $state: the regex being built, the route lists per mark, mark and
   * markTail. The model also keeps the alternatives spelled so far and the
   * text after the last verb, which Render spells back into the regex.
   */
  class DumpState {
    var regex: string
    var routes: map<nat, seq<Option<Entry>>>
    var mark: nat
    var markTail: nat
    var alts: seq<Alt>
    var pending: string

    constructor ()
      ensures regex == "" && routes == map[] && mark == 0 && markTail == 0 && alts == [] && pending == ""
    {
      regex := "";
      routes := map[];
      mark := 0;
      markTail := 0;
      alts := [];
      pending := "";
    }

    function View(): Emission
      reads this
    {
      Emission(alts, pending, mark, markTail, routes)
    }

    /** The regex is what the alternatives and the pending text spell. */
    predicate Spelled()
      reads this
    {
      regex == Text(View())
    }

    /** Entering a node: $state->mark += strlen($rx = "|{$prefix}(?"); $state->regex .= $rx. */
    method EnterNode(sub: string, ghost p: string, ghost prefix: string)
      requires prefix <= p && sub == p[|prefix|..] && Spelled()
      modifies this
      ensures Spelled() && View() == Open(old(View()), p, prefix)
    {
      var rx := "|" + sub + "(?";
      mark := mark + |rx|;
      regex := regex + rx;
      pending := pending + rx;
      TextSteps(old(View()), p, prefix, p, None);
    }

    /** Leaving a node: $state->regex .= ')'; ++$state->markTail. */
    method LeaveNode()
      requires Spelled()
      modifies this
      ensures Spelled() && View() == Close(old(View()))
    {
      regex := regex + ")";
      pending := pending + ")";
      markTail := markTail + 1;
      AppendAssoc(Render(alts), old(pending), ")");
    }

    /** A chunk opens: $state->mark += strlen('{^(?'); $state->regex = '{^(?'. */
    method StartChunk()
      modifies this
      ensures Spelled() && View() == ChunkStart(old(View()))
    {
      mark := mark + 4;
      regex := "{^(?";
      alts := [];
      pending := "{^(?";
    }

    /** A chunk closes: $state->regex .= ")/?$}" . $modifiers; $state->markTail = 0. */
    method CloseChunk(modifiers: string)
      requires Spelled()
      modifies this
      ensures Spelled() && View() == old(View()).(pending := old(pending) + ")/?$}" + modifiers, markTail := 0)
    {
      regex := regex + (")/?$}" + modifiers);
      pending := pending + ")/?$}" + modifiers;
      markTail := 0;
      AppendAssoc(Render(alts), old(pending), ")/?$}" + modifiers);
    }

    /** A leaf with the previous leaf's regex: $state->routes[$state->mark][] = its entry. */
    method ShareMark(x: Option<Entry>)
      requires Spelled()
      modifies this
      ensures Spelled() && View() == Share(old(View()), x)
    {
      routes := AppendAt(routes, mark, x);
    }

    /**
     * A new leaf: the mark moves past "|" + suffix + "(*:" and the tail of
     * the last verb, markTail becomes the rest of the verb, the regex gets
     * sprintf('|%s(*:%s)', suffix, mark), and the mark gets a fresh list.
     */
    method AddLeaf(leafRegex: string, prefixLen: nat, x: Option<Entry>, ghost prefix: string)
      requires |prefix| == prefixLen && prefix <= leafRegex && Spelled()
      modifies this
      ensures View() == NewLeaf(old(View()), leafRegex, prefix, x)
      ensures Spelled()
    {
      var m := mark + 3 + markTail + |leafRegex| - prefixLen;
      var sub := leafRegex[prefixLen..];
      var alt := Alt(pending + "|" + sub, m, true);
      var rx := "|" + sub + "(*:" + Digits(m) + ")";
      ghost var e' := Emission(alts + [alt], "", m, 2 + |Digits(m)|, routes[m := [x]]);
      NewLeafIs(View(), leafRegex, prefix, x, regex, e');
      mark, markTail, regex := m, 2 + |Digits(m)|, regex + rx;
      alts, pending, routes := alts + [alt], "", routes[m := [x]];
      assert View() == e';
    }
  }

  /**
   * sprintf('|%s(*:%s)', suffix, mark) appended to the regex spells the new
   * leaf's alternative, and the counters are those of NewLeaf.
   */
  lemma NewLeafIs(e: Emission, leafRegex: string, prefix: string, x: Option<Entry>, regex: string, e': Emission)
    requires prefix <= leafRegex && regex == Text(e)
    requires e'.mark == e.mark + 3 + e.markTail + |leafRegex| - |prefix|
    requires e' == Emission(e.alts + [Alt(e.pending + "|" + leafRegex[|prefix|..], e'.mark, true)], "",
                            e'.mark, 2 + |Digits(e'.mark)|, e.routes[e'.mark := [x]])
    ensures e' == NewLeaf(e, leafRegex, prefix, x)
    ensures regex + ("|" + leafRegex[|prefix|..] + "(*:" + Digits(e'.mark) + ")") == Text(e')
  {
    var m := e'.mark;
    var sub := leafRegex[|prefix|..];
    TextNewLeaf(e, leafRegex, prefix, x);
    LeafText(sub, m, e.pending + "|" + sub);
    AppendAssoc(Text(e), "|" + sub, Verb(Alt(e.pending + "|" + sub, m, true)));
  }

  /** sprintf('|%s(*:%s)', suffix, mark) is the new alternative's text and verb. */
  lemma LeafText(sub: string, m: nat, pre: string)
    ensures ("|" + sub + "(*:" + Digits(m) + ")") == ("|" + sub) + Verb(Alt(pre, m, true))
  {
  }

  /**
   * compileStaticPrefixCollection: spell a tree level by level, nodes
   * recursively, leaves as "|" + suffix + "(*:mark)" or, when a leaf has the
   * same regex as the previous leaf of its level, as one more entry under
   * that leaf's mark.
   */
  method CompileStaticPrefixCollection(tree: seq<Item>, state: DumpState, prefixLen: nat, ghost prefix: string)
    requires |prefix| == prefixLen && WellFormed(tree, prefix) && state.Spelled()
    modifies state
    ensures state.Spelled() && state.View() == Emit(tree, prefix, None, old(state.View()))
    decreases tree
  {
    var prevRegex: Option<string> := None;
    ghost var e0 := state.View();
    for i := 0 to |tree|
      invariant state.Spelled() && WellFormed(tree[i..], prefix)
      invariant Emit(tree, prefix, None, e0) == Emit(tree[i..], prefix, prevRegex, state.View())
    {
      EmitStep(tree[i..], prefix, prevRegex, state.View());
      assert tree[i..][0] == tree[i] && tree[i..][1..] == tree[i + 1..];
      match tree[i]
      case Node(p, ch) =>
        prevRegex := None;
        var sub := p[prefixLen..];
        state.EnterNode(sub, p, prefix);
        CompileStaticPrefixCollection(ch, state, prefixLen + |sub|, p);
        state.LeaveNode();
      case Leaf(regex, vars, route) =>
        var entry := Some(EntryOf(route, Some(vars)));
        if Some(route.compiled.regex) == prevRegex {
          state.ShareMark(entry);
        } else {
          state.AddLeaf(regex, prefixLen, entry, prefix);
          prevRegex := Some(route.compiled.regex);
        }
    }
  }

  /**
   * The leaves of one chunk: each route's regex body with its group names
   * taken out by the vars callback, the names it collected, and the route.
   */
  method ChunkLeaves(routes: seq<RouteInfo>) returns (leaves: seq<Item>)
    ensures leaves == LeavesOf(routes)
  {
    leaves := [];
    for k := 0 to |routes|
      invariant |leaves| == k && forall t :: 0 <= t < k ==> leaves[t] == LeafOf(routes[t])
    {
      var stripped := StripNames(BodyOf(routes[k].compiled.regex));
      leaves := leaves + [Leaf(stripped.text, stripped.names, routes[k])];
    }
  }

  /** One pass of the chunk loop: open the chunk, spell its tree, close it. */
  method CompileChunk(b: Batch, build: seq<Item> -> seq<Item>, state: DumpState) returns (chunk: Chunk)
    requires BuildsTree(build) && state.Spelled()
    modifies state
    ensures state.Spelled() && (chunk, state.View()) == EmitChunk(b, build, old(state.View()))
  {
    var startingMark := state.mark;
    state.StartChunk();
    var leaves := ChunkLeaves(b.routes);
    var tree := build(leaves);
    CompileStaticPrefixCollection(tree, state, 0, "");
    state.CloseChunk(b.modifiers);
    chunk := Chunk(startingMark, state.regex, state.alts);
  }

  /**
   * compileDynamicRoutes: cut the list into chunks, spell each chunk from the
   * tree of its leaves into the shared state, give up with the signalling
   * exception on the first chunk regex that is too large, and close the last
   * mark's list with the sentinel.
   */
  method CompileDynamicRoutes(collection: seq<RouteInfo>, chunkLimit: int, build: seq<Item> -> seq<Item>,
                              tooLarge: string -> bool) returns (r: Result<Dynamic, Signal>)
    requires BuildsTree(build)
    requires collection == [] || chunkLimit < 1 || collection[0].compiled.pathVariables != []
    ensures r == DynamicRoutes(collection, chunkLimit, build, tooLarge)
  {
    if collection == [] {
      return Ok(Dynamic([], map[]));
    }
    var state := new DumpState();
    var perModifiers := CutChunks(collection, chunkLimit);
    var regexpList: seq<Chunk> := [];
    for j := 0 to |perModifiers|
      invariant state.Spelled()
      invariant (regexpList, state.View()) == EmitChunks(perModifiers[..j], build, Fresh)
      invariant !AnyTooLarge(regexpList, tooLarge)
    {
      EmitChunksNext(perModifiers, j, build, Fresh);
      var chunk := CompileChunk(perModifiers[j], build, state);
      AnyTooLargeSnoc(regexpList, chunk, tooLarge);
      if tooLarge(chunk.regex) {
        EmitChunksPrefix(perModifiers, j + 1, build, Fresh);
        AnyTooLargePrefix(EmitChunks(perModifiers, build, Fresh).0, j + 1, tooLarge);
        return Err(TooLarge);
      }
      regexpList := regexpList + [chunk];
    }
    assert perModifiers[..|perModifiers|] == perModifiers;
    state.ShareMark(None);
    return Ok(Dynamic(regexpList, state.routes));
  }

  /**
   * getCompiledRoutes: group and compile the static routes, then compile the
   * dynamic ones with a chunk limit of their count, halving the limit (rounded
   * up) after each too-large chunk while it is above 1.
   */
  method GetCompiledRoutes(routes: seq<RouteInfo>, rxMatch: (string, string) -> bool, build: seq<Item> -> seq<Item>,
                           tooLarge: string -> bool) returns (r: Result<Table, Signal>)
    requires BuildsTree(build)
    ensures r == CompiledRoutes(routes, rxMatch, build, tooLarge)
  {
    var staticRoutes, dynamicRoutes := GroupStaticRoutes(routes, rxMatch);
    var statics := CompileStaticRoutes(staticRoutes);
    var chunkLimit := |dynamicRoutes|;
    FirstDynamicHasVars(routes, rxMatch);
    ghost var attempt := Attempts(dynamicRoutes, build, tooLarge);
    while true
      invariant 0 <= chunkLimit && Retry(attempt, chunkLimit) == Retry(attempt, |dynamicRoutes|)
      decreases chunkLimit
    {
      var compiled := CompileDynamicRoutes(dynamicRoutes, chunkLimit, build, tooLarge);
      assert compiled == attempt(chunkLimit);
      RetryStep(attempt, chunkLimit);
      match compiled
      case Ok(d) =>
        return Ok(Table(statics, d.chunks, d.routes));
      case Err(e) =>
        if 1 < chunkLimit {
          chunkLimit := Shrink(chunkLimit);
        } else {
          return Err(e);
        }
    }
  }
}
