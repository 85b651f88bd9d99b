/**
 * compileDynamicRoutes as a function on values: every chunk of the dynamic
 * list is spelled from its static-prefix tree, the chunks follow each other
 * with increasing marks, and one sentinel closes the route lists.
 */
module DumperChunks {
  import opened Common
  import opened RouteTable
  import opened RoutesDumper
  import opened DumperTree

  /** The leaf the chunk loop adds for a route: the regex body without its group names, and those names. */
  function LeafOf(r: RouteInfo): (it: Item)
    ensures it.Leaf? && it.route == r
  {
    var s := StripNames(BodyOf(r.compiled.regex));
    Leaf(s.text, s.names, r)
  }

  function LeavesOf(rs: seq<RouteInfo>): (ls: seq<Item>)
    ensures |ls| == |rs| && forall k :: 0 <= k < |rs| ==> ls[k] == LeafOf(rs[k])
  {
    seq(|rs|, k requires 0 <= k < |rs| => LeafOf(rs[k]))
  }

  predicate AllLeaves(ls: seq<Item>)
  {
    forall k :: 0 <= k < |ls| ==> ls[k].Leaf?
  }

  /**
   * StaticPrefixCollection, fed the leaves of a chunk one by one, yields a
   * well-formed tree whose leaves are exactly those leaves, in order.
   */
  ghost predicate BuildsTree(build: seq<Item> -> seq<Item>)
  {
    forall ls :: AllLeaves(ls) ==> Leaves(build(ls)) == ls && WellFormed(build(ls), "")
  }

  function ChunkTree(b: Batch, build: seq<Item> -> seq<Item>): (t: seq<Item>)
    requires BuildsTree(build)
    ensures Leaves(t) == LeavesOf(b.routes) && WellFormed(t, "")
  {
    assert AllLeaves(LeavesOf(b.routes));
    build(LeavesOf(b.routes))
  }

  /** The state when a chunk opens: "{^(?" spelled, the mark moved past it, no alternative yet. */
  function ChunkStart(e: Emission): Emission
  {
    Emission([], "{^(?", e.mark + 4, e.markTail, e.routes)
  }

  /** One chunk: keyed by the mark reached before it, spelled from its tree, closed by ")/?$}" and its modifiers. */
  function EmitChunk(b: Batch, build: seq<Item> -> seq<Item>, e: Emission): (Chunk, Emission)
    requires BuildsTree(build)
  {
    var e1 := Emit(ChunkTree(b, build), "", None, ChunkStart(e));
    var e2 := e1.(pending := e1.pending + ")/?$}" + b.modifiers, markTail := 0);
    (Chunk(e.mark, Render(e2.alts) + e2.pending, e2.alts), e2)
  }

  /** The chunks in order, and the state after the last one. */
  function EmitChunks(bs: seq<Batch>, build: seq<Item> -> seq<Item>, e: Emission): (seq<Chunk>, Emission)
    requires BuildsTree(build)
    decreases |bs|
  {
    if bs == [] then ([], e)
    else
      var (cs, e1) := EmitChunks(bs[..|bs| - 1], build, e);
      var (c, e2) := EmitChunk(bs[|bs| - 1], build, e1);
      (cs + [c], e2)
  }

  /** The signalling exception: a chunk regex is too large for the regex engine. */
  datatype Signal = TooLarge

  /** What compileDynamicRoutes returns: the chunks (the regexp list, in key order) and the route lists per mark. */
  datatype Dynamic = Dynamic(chunks: seq<Chunk>, routes: map<nat, seq<Option<Entry>>>)

  /** The state object before the first chunk. */
  const Fresh := Emission([], "", 0, 0, map[])

  /** Some chunk regex is one the regex engine refuses as too large. */
  predicate AnyTooLarge(cs: seq<Chunk>, tooLarge: string -> bool)
  {
    exists k :: 0 <= k < |cs| && tooLarge(cs[k].regex)
  }

  lemma AnyTooLargeSnoc(cs: seq<Chunk>, c: Chunk, tooLarge: string -> bool)
    ensures AnyTooLarge(cs + [c], tooLarge) <==> AnyTooLarge(cs, tooLarge) || tooLarge(c.regex)
  {
    if AnyTooLarge(cs, tooLarge) {
      var k :| 0 <= k < |cs| && tooLarge(cs[k].regex);
      assert (cs + [c])[k] == cs[k];
    }
    if tooLarge(c.regex) {
      assert (cs + [c])[|cs|] == c;
    }
    if AnyTooLarge(cs + [c], tooLarge) {
      var k :| 0 <= k < |cs| + 1 && tooLarge((cs + [c])[k].regex);
      if k < |cs| {
        assert (cs + [c])[k] == cs[k];
      }
    }
  }

  lemma AnyTooLargePrefix(cs: seq<Chunk>, n: nat, tooLarge: string -> bool)
    requires n <= |cs| && AnyTooLarge(cs[..n], tooLarge)
    ensures AnyTooLarge(cs, tooLarge)
  {
    var k :| 0 <= k < n && tooLarge(cs[..n][k].regex);
    assert cs[..n][k] == cs[k];
  }

  /**
   * compileDynamicRoutes: nothing for an empty list; otherwise the chunks,
   * unless one of them is too large, and the sentinel appended to the list
   * of the last mark.
   */
  function DynamicRoutes(collection: seq<RouteInfo>, chunkLimit: int, build: seq<Item> -> seq<Item>,
                         tooLarge: string -> bool): Result<Dynamic, Signal>
    requires BuildsTree(build)
  {
    if collection == [] then Ok(Dynamic([], map[]))
    else
      var (cs, e) := EmitChunks(Batches(collection, chunkLimit), build, Fresh);
      if AnyTooLarge(cs, tooLarge) then Err(TooLarge)
      else Ok(Dynamic(cs, AppendAt(e.routes, e.mark, None)))
  }

  // ---------------------------------------------------------------------------
  // One chunk

  lemma ChunkTreeNonEmpty(b: Batch, build: seq<Item> -> seq<Item>)
    requires BuildsTree(build) && b.routes != []
    ensures ChunkTree(b, build) != []
  {
    assert |LeavesOf(b.routes)| > 0;
  }

  /** A chunk's regex: the chunk's text so far, then ")/?$}" and the modifiers. */
  lemma ChunkRegex(b: Batch, build: seq<Item> -> seq<Item>, e: Emission)
    requires BuildsTree(build)
    ensures var e1 := Emit(ChunkTree(b, build), "", None, ChunkStart(e));
            EmitChunk(b, build, e).0.regex == Text(e1) + (")/?$}" + b.modifiers)
  {
    var e1 := Emit(ChunkTree(b, build), "", None, ChunkStart(e));
    AppendAssoc(Render(e1.alts), e1.pending, ")/?$}" + b.modifiers);
  }

  /** Every alternative of a chunk ends in "(*:mark)", with mark minus the chunk's key at its ':'. */
  lemma ChunkMarks(b: Batch, build: seq<Item> -> seq<Item>, e: Emission)
    requires BuildsTree(build) && b.routes != [] && e.markTail == 0
    ensures var (c, e') := EmitChunk(b, build, e);
            && c.key == e.mark && c.alts != [] && WellMarked(c.key, c.alts)
            && c.alts[|c.alts| - 1].mark == e'.mark
  {
    var t := ChunkTree(b, build);
    ChunkTreeNonEmpty(b, build);
    EmitTracks(t, "", None, ChunkStart(e), e.mark);
    EmitEndsOnMark(t, "", None, ChunkStart(e));
  }

  /** A chunk regex is "{^(?", the alternatives, the text after them, ")/?$}" and the modifiers. */
  lemma ChunkShape(b: Batch, build: seq<Item> -> seq<Item>, e: Emission)
    requires BuildsTree(build)
    ensures var c := EmitChunk(b, build, e).0;
            && Render(c.alts) <= c.regex && "{^(?" <= c.regex
            && |c.regex| >= 5 + |b.modifiers| && c.regex[|c.regex| - 5 - |b.modifiers|..] == ")/?$}" + b.modifiers
  {
    var t := ChunkTree(b, build);
    var e0 := ChunkStart(e);
    var e1 := Emit(t, "", None, e0);
    var c := EmitChunk(b, build, e).0;
    var tail := ")/?$}" + b.modifiers;
    ChunkRegex(b, build, e);
    EmitAppendsText(t, "", None, e0);
    assert Text(e0) == "{^(?";
    PrefixAppend(Text(e1), tail);
    PrefixOrder("{^(?", Text(e1), c.regex);
    PrefixAppend(Render(e1.alts), e1.pending);
    PrefixOrder(Render(e1.alts), Text(e1), c.regex);
    DropAppend(Text(e1), tail);
  }

  // ---------------------------------------------------------------------------
  // All chunks

  /** The alternatives of the chunks, chunk by chunk. */
  function ChunkAlts(cs: seq<Chunk>): seq<Alt>
    decreases |cs|
  {
    if cs == [] then [] else ChunkAlts(cs[..|cs| - 1]) + cs[|cs| - 1].alts
  }

  /** The alternatives of all chunks, in order. */
  function AllAlts(cs: seq<Chunk>): seq<Alt>
  {
    ChunkAlts(cs)
  }

  lemma AllAltsSnoc(cs: seq<Chunk>, c: Chunk)
    ensures AllAlts(cs + [c]) == AllAlts(cs) + c.alts
  {
    assert (cs + [c])[..|cs|] == cs;
  }

  predicate Increasing(alts: seq<Alt>)
  {
    forall i, j :: 0 <= i < j < |alts| ==> alts[i].mark < alts[j].mark
  }

  lemma IncreasingAppend(a: seq<Alt>, b: seq<Alt>, pivot: nat)
    requires Increasing(a) && Increasing(b)
    requires forall i :: 0 <= i < |a| ==> a[i].mark <= pivot
    requires forall j :: 0 <= j < |b| ==> pivot < b[j].mark
    ensures Increasing(a + b)
  {
    forall i, j | 0 <= i < j < |a + b|
      ensures (a + b)[i].mark < (a + b)[j].mark
    {
      if j < |a| {
      } else if i >= |a| {
        assert (a + b)[i] == b[i - |a|] && (a + b)[j] == b[j - |a|];
      } else {
        assert (a + b)[i] == a[i] && (a + b)[j] == b[j - |a|];
      }
    }
  }

  lemma {:induction false} StoredAppend(routes: map<nat, seq<Option<Entry>>>, a: seq<Alt>, b: seq<Alt>)
    ensures Stored(routes, a + b) == Stored(routes, a) + Stored(routes, b)
    decreases |b|
  {
    if b == [] {
      AppendNil(a);
      AppendNil(Stored(routes, a));
    } else {
      var init, last := b[..|b| - 1], b[|b| - 1];
      assert a + b == (a + init) + [last];
      StoredSnoc(routes, a + init, last);
      StoredAppend(routes, a, init);
      assert b == init + [last];
      StoredSnoc(routes, init, last);
      AppendAssoc(Stored(routes, a), Stored(routes, init), RoutesAt(routes, last.mark));
    }
  }

  /** Appending to the list of the last mark adds at the very end of what the marks store. */
  lemma StoredAppendLast(routes: map<nat, seq<Option<Entry>>>, alts: seq<Alt>, x: Option<Entry>)
    requires alts != [] && Increasing(alts)
    ensures Stored(AppendAt(routes, alts[|alts| - 1].mark, x), alts) == Stored(routes, alts) + [x]
  {
    var n := |alts| - 1;
    var init := alts[..n];
    var routes' := AppendAt(routes, alts[n].mark, x);
    assert alts == init + [alts[n]];
    StoredElsewhere(routes, routes', init);
    StoredSnoc(routes, init, alts[n]);
    StoredSnoc(routes', init, alts[n]);
    AppendAssoc(Stored(routes, init), RoutesAt(routes, alts[n].mark), [x]);
  }

  lemma EntriesLeavesOf(a: seq<RouteInfo>, b: seq<RouteInfo>)
    ensures Entries(LeavesOf(a + b)) == Entries(LeavesOf(a)) + Entries(LeavesOf(b))
  {
    assert LeavesOf(a + b) == LeavesOf(a) + LeavesOf(b);
    EntriesAppend(LeavesOf(a), LeavesOf(b));
  }

  /**
   * Between chunks: markTail is back to zero, the marks so far increase and
   * end at the running mark, and they store the entries of the routes so
   * far, in order.
   */
  predicate Between(alts: seq<Alt>, e: Emission, done: seq<RouteInfo>)
  {
    && e.markTail == 0
    && Increasing(alts)
    && (forall i :: 0 <= i < |alts| ==> alts[i].mark <= e.mark)
    && (alts != [] ==> alts[|alts| - 1].mark == e.mark)
    && Stored(e.routes, alts) == Entries(LeavesOf(done))
  }

  /** A chunk's marks lie above the running mark before it, increase, and end at the running mark after it. */
  lemma ChunkStepMarks(b: Batch, build: seq<Item> -> seq<Item>, e: Emission, alts: seq<Alt>, c: Chunk, e': Emission)
    requires BuildsTree(build) && b.routes != [] && e.markTail == 0 && (c, e') == EmitChunk(b, build, e)
    requires Increasing(alts) && forall i :: 0 <= i < |alts| ==> alts[i].mark <= e.mark
    ensures Increasing(alts + c.alts) && e.mark <= e'.mark
    ensures forall i :: 0 <= i < |alts + c.alts| ==> (alts + c.alts)[i].mark <= e'.mark
    ensures c.alts != [] && (alts + c.alts)[|alts + c.alts| - 1].mark == e'.mark
  {
    ChunkMarks(b, build, e);
    EmitAbove(ChunkTree(b, build), "", None, ChunkStart(e));
    forall i, j | 0 <= i < j < |c.alts|
      ensures c.alts[i].mark < c.alts[j].mark
    {
      MarksIncrease(e.mark, c.alts, i, j);
    }
    forall j | 0 <= j < |c.alts|
      ensures e.mark < c.alts[j].mark
    {
      assert c.alts[j].mark == c.key + Pos(c.alts, j);
    }
    IncreasingAppend(alts, c.alts, e.mark);
    var all := alts + c.alts;
    forall i | 0 <= i < |all|
      ensures all[i].mark <= e'.mark
    {
      if |alts| <= i < |all| - 1 {
        assert all[i] == c.alts[i - |alts|] && all[|all| - 1] == c.alts[|c.alts| - 1];
      }
    }
  }

  /** A chunk stores its routes' entries after the earlier ones, leaving the earlier lists alone. */
  lemma ChunkStepStored(b: Batch, build: seq<Item> -> seq<Item>, e: Emission, alts: seq<Alt>, c: Chunk, e': Emission)
    requires BuildsTree(build) && e.markTail == 0 && (c, e') == EmitChunk(b, build, e)
    requires forall i :: 0 <= i < |alts| ==> alts[i].mark <= e.mark
    ensures Stored(e'.routes, alts + c.alts) == Stored(e.routes, alts) + Entries(LeavesOf(b.routes))
  {
    var t := ChunkTree(b, build);
    var e0 := ChunkStart(e);
    var e1 := Emit(t, "", None, e0);
    assert e'.routes == e1.routes && c.alts == e1.alts;
    EmitAbove(t, "", None, e0);
    forall i | 0 <= i < |alts|
      ensures RoutesAt(e'.routes, alts[i].mark) == RoutesAt(e.routes, alts[i].mark)
    {
      assert alts[i].mark < e0.mark;
    }
    StoredElsewhere(e.routes, e'.routes, alts);
    EmitStores(t, "", None, e0, e.mark);
    assert Stored(e1.routes, e1.alts) == Entries(LeavesOf(b.routes)) by {
      assert Stored(e0.routes, e0.alts) == [];
    }
    StoredAppend(e'.routes, alts, c.alts);
  }

  /** A chunk keeps the state between chunks, adding its routes after the earlier ones. */
  lemma ChunkStep(b: Batch, build: seq<Item> -> seq<Item>, e: Emission, alts: seq<Alt>, done: seq<RouteInfo>,
                  c: Chunk, e': Emission)
    requires BuildsTree(build) && b.routes != [] && Between(alts, e, done) && (c, e') == EmitChunk(b, build, e)
    ensures Between(alts + c.alts, e', done + b.routes)
  {
    ChunkStepMarks(b, build, e, alts, c, e');
    ChunkStepStored(b, build, e, alts, c, e');
    EntriesLeavesOf(done, b.routes);
  }

  lemma EmitChunksStep(bs: seq<Batch>, build: seq<Item> -> seq<Item>, e: Emission)
    requires BuildsTree(build) && bs != []
    ensures var (cs, e1) := EmitChunks(bs[..|bs| - 1], build, e);
            var (c, e2) := EmitChunk(bs[|bs| - 1], build, e1);
            EmitChunks(bs, build, e) == (cs + [c], e2)
  {
  }

  /** The chunks of a prefix of the batches are a prefix of the chunks, one chunk per batch. */
  lemma {:induction false} EmitChunksPrefix(bs: seq<Batch>, k: nat, build: seq<Item> -> seq<Item>, e: Emission)
    requires BuildsTree(build) && k <= |bs|
    ensures |EmitChunks(bs, build, e).0| == |bs|
    ensures EmitChunks(bs[..k], build, e).0 == EmitChunks(bs, build, e).0[..k]
    decreases |bs|
  {
    if bs != [] {
      var init := bs[..|bs| - 1];
      EmitChunksPrefix(init, if k < |bs| then k else |init|, build, e);
      if k < |bs| {
        assert init[..k] == bs[..k];
      } else {
        assert bs[..k] == bs;
      }
    }
  }

  /** One more batch adds its chunk to the chunks so far. */
  lemma EmitChunksNext(bs: seq<Batch>, j: nat, build: seq<Item> -> seq<Item>, e: Emission)
    requires BuildsTree(build) && j < |bs|
    ensures var before := EmitChunks(bs[..j], build, e);
            EmitChunks(bs[..j + 1], build, e)
            == (before.0 + [EmitChunk(bs[j], build, before.1).0], EmitChunk(bs[j], build, before.1).1)
  {
    assert bs[..j + 1][..j] == bs[..j];
    EmitChunksStep(bs[..j + 1], build, e);
  }

  /** Over all chunks: marks increase, end at the running mark, and store every route's entry in order. */
  lemma {:induction false} EmitChunksBetween(bs: seq<Batch>, build: seq<Item> -> seq<Item>)
    requires BuildsTree(build) && forall k :: 0 <= k < |bs| ==> bs[k].routes != []
    ensures var (cs, e) := EmitChunks(bs, build, Fresh);
            Between(AllAlts(cs), e, Flatten(bs))
    decreases |bs|
  {
    if bs == [] {
      assert LeavesOf([]) == [];
    } else {
      var init, b := bs[..|bs| - 1], bs[|bs| - 1];
      EmitChunksBetween(init, build);
      var (cs, e1) := EmitChunks(init, build, Fresh);
      var (c, e2) := EmitChunk(b, build, e1);
      ChunkStep(b, build, e1, AllAlts(cs), Flatten(init), c, e2);
      EmitChunksStep(bs, build, Fresh);
      AllAltsSnoc(cs, c);
      InitLast(bs);
      FlattenSnoc(init, b);
    }
  }

  /** Every chunk the dumper spells is addressed: the matcher finds each verb at its mark minus the key. */
  lemma {:induction false} ChunksAddressed(bs: seq<Batch>, build: seq<Item> -> seq<Item>)
    requires BuildsTree(build) && forall k :: 0 <= k < |bs| ==> bs[k].routes != []
    ensures AllAddressed(EmitChunks(bs, build, Fresh).0)
    decreases |bs|
  {
    if bs != [] {
      var init, b := bs[..|bs| - 1], bs[|bs| - 1];
      ChunksAddressed(init, build);
      EmitChunksBetween(init, build);
      var (cs, e1) := EmitChunks(init, build, Fresh);
      var c := EmitChunk(b, build, e1).0;
      ChunkMarks(b, build, e1);
      ChunkShape(b, build, e1);
      EmitChunksStep(bs, build, Fresh);
      assert (cs + [c])[..|cs|] == cs;
    }
  }

  /** Some chunk has an alternative once there is a batch. */
  lemma ChunksNonEmpty(bs: seq<Batch>, build: seq<Item> -> seq<Item>)
    requires BuildsTree(build) && bs != [] && forall k :: 0 <= k < |bs| ==> bs[k].routes != []
    ensures AllAlts(EmitChunks(bs, build, Fresh).0) != []
  {
    var init := bs[..|bs| - 1];
    EmitChunksBetween(init, build);
    var (cs0, e0) := EmitChunks(init, build, Fresh);
    ChunkMarks(bs[|bs| - 1], build, e0);
    var c := EmitChunk(bs[|bs| - 1], build, e0).0;
    EmitChunksStep(bs, build, Fresh);
    AllAltsSnoc(cs0, c);
  }

  /** compileDynamicRoutes yields addressed chunks only. */
  lemma DynamicAddressed(collection: seq<RouteInfo>, chunkLimit: int, build: seq<Item> -> seq<Item>, tooLarge: string -> bool)
    requires BuildsTree(build) && DynamicRoutes(collection, chunkLimit, build, tooLarge).Ok?
    ensures AllAddressed(DynamicRoutes(collection, chunkLimit, build, tooLarge).value.chunks)
  {
    if collection != [] {
      var bs := Batches(collection, chunkLimit);
      ChunksPartition(collection, chunkLimit);
      ChunksAddressed(bs, build);
      var (cs, e) := EmitChunks(bs, build, Fresh);
      assert DynamicRoutes(collection, chunkLimit, build, tooLarge).value.chunks == cs;
    }
  }

  /**
   * compileDynamicRoutes stores every dynamic route's entry, in list order,
   * under the marks of the chunk alternatives in order, and the sentinel
   * once, after all of them; marks increase across all chunks.
   */
  lemma DynamicStores(collection: seq<RouteInfo>, chunkLimit: int, build: seq<Item> -> seq<Item>, tooLarge: string -> bool)
    requires BuildsTree(build) && collection != [] && DynamicRoutes(collection, chunkLimit, build, tooLarge).Ok?
    ensures Increasing(AllAlts(DynamicRoutes(collection, chunkLimit, build, tooLarge).value.chunks))
    ensures var d := DynamicRoutes(collection, chunkLimit, build, tooLarge).value;
            Stored(d.routes, AllAlts(d.chunks)) == Entries(LeavesOf(collection)) + [None]
  {
    var bs := Batches(collection, chunkLimit);
    ChunksPartition(collection, chunkLimit);
    EmitChunksBetween(bs, build);
    var (cs, e) := EmitChunks(bs, build, Fresh);
    ChunksNonEmpty(bs, build);
    StoredAppendLast(e.routes, AllAlts(cs), None);
  }
}
