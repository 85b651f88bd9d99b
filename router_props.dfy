/**
 * What doMatch and match decide, stated against reference definitions: the
 * first candidate that stops the inner loop, and the flat list of candidates
 * a chunk offers for a path.
 */
module RoutingProperties {
  import opened Common
  import opened RouteTable
  import opened Routing

  /** The index of the first candidate that is the sentinel or accepts the method; |cs| when there is none. */
  function Stop(cs: seq<Option<Candidate>>, requestMethod: string): (k: nat)
    ensures k <= |cs|
    ensures k < |cs| ==> cs[k].None? || Accepts(cs[k].value.entry, requestMethod)
    ensures forall j :: 0 <= j < k ==> cs[j].Some? && !Accepts(cs[j].value.entry, requestMethod)
    decreases |cs|
  {
    if cs == [] then 0
    else if cs[0].None? || Accepts(cs[0].value.entry, requestMethod) then 0
    else 1 + Stop(cs[1..], requestMethod)
  }

  /** A method some refused candidate before index k lists. */
  predicate RefusedBefore(cs: seq<Option<Candidate>>, k: nat, x: string)
    requires k <= |cs| && forall j :: 0 <= j < k ==> cs[j].Some?
  {
    exists j :: 0 <= j < k && x in cs[j].value.entry.methods
  }

  /**
   * The inner loop stops at the first sentinel or accepting candidate: it is
   * found there (with that entry's action and bindings), or the sentinel
   * ends the chunk, or every candidate was refused; allow keeps what it held,
   * in order, and gains exactly the methods of the refused candidates.
   */
  lemma {:induction false} TryStop(cs: seq<Option<Candidate>>, requestMethod: string, allow: seq<string>)
    ensures var s, k := Try(cs, requestMethod, allow), Stop(cs, requestMethod);
            && (s.Refused? <==> k == |cs|)
            && (s.Sentinel? <==> k < |cs| && cs[k].None?)
            && (s.Found? <==> k < |cs| && cs[k].Some?)
            && (s.Found? ==> s.ret == Matched(cs[k].value.entry.action, cs[k].value.params))
            && allow <= s.allow
            && forall x :: x in s.allow <==> x in allow || RefusedBefore(cs, k, x)
    decreases |cs|
  {
    if cs != [] && cs[0].Some? && !Accepts(cs[0].value.entry, requestMethod) {
      var ms := cs[0].value.entry.methods;
      var allow' := AddMissing(allow, ms);
      TryStop(cs[1..], requestMethod, allow');
      var s, k := Try(cs, requestMethod, allow), Stop(cs, requestMethod);
      assert s == Try(cs[1..], requestMethod, allow');
      PrefixTrans(allow, allow', s.allow);
      forall x
        ensures x in s.allow <==> x in allow || RefusedBefore(cs, k, x)
      {
        if RefusedBefore(cs[1..], k - 1, x) {
          var j :| 0 <= j < k - 1 && x in cs[1..][j].value.entry.methods;
          assert x in cs[j + 1].value.entry.methods;
        }
        if RefusedBefore(cs, k, x) && x !in ms {
          var j :| 0 <= j < k && x in cs[j].value.entry.methods;
          assert j != 0;
          assert x in cs[1..][j - 1].value.entry.methods;
        }
      }
    }
  }

  /** The methods of the refused candidates before the stop, one list after another. */
  function RefusedMethods(cs: seq<Option<Candidate>>, requestMethod: string): seq<string>
    decreases |cs|
  {
    if cs == [] || cs[0].None? || Accepts(cs[0].value.entry, requestMethod) then []
    else cs[0].value.entry.methods + RefusedMethods(cs[1..], requestMethod)
  }

  /**
   * The order of allow after the inner loop: what it held, then each method
   * of the refused candidates it lacked, once, in the order first met.
   */
  lemma {:induction false} TryAllowOrder(cs: seq<Option<Candidate>>, requestMethod: string, allow: seq<string>)
    ensures Try(cs, requestMethod, allow).allow == allow + Missing(allow, RefusedMethods(cs, requestMethod))
    decreases |cs|
  {
    var rs := RefusedMethods(cs, requestMethod);
    if cs == [] || cs[0].None? || Accepts(cs[0].value.entry, requestMethod) {
      AddMissingOrder(allow, rs);
    } else {
      var ms := cs[0].value.entry.methods;
      var allow' := AddMissing(allow, ms);
      TryAllowOrder(cs[1..], requestMethod, allow');
      AddMissingOrder(allow', RefusedMethods(cs[1..], requestMethod));
      AddMissingAppend(allow, ms, RefusedMethods(cs[1..], requestMethod));
      AddMissingOrder(allow, rs);
    }
  }

  /**
   * allow is empty afterwards exactly when it started empty and the very
   * first candidate stopped the loop: a refused entry always names methods.
   */
  lemma AllowEmpty(cs: seq<Option<Candidate>>, requestMethod: string, allow: seq<string>)
    ensures Try(cs, requestMethod, allow).allow == [] <==> allow == [] && Stop(cs, requestMethod) == 0
  {
    TryStop(cs, requestMethod, allow);
    var s := Try(cs, requestMethod, allow);
    if Stop(cs, requestMethod) > 0 {
      var ms := cs[0].value.entry.methods;
      assert ms != [] && ms[0] in ms;
      assert RefusedBefore(cs, Stop(cs, requestMethod), ms[0]);
      assert ms[0] in s.allow;
    }
  }

  /** Trying a concatenation: the second list is reached only when all of the first is refused. */
  lemma {:induction false} TryAppend(xs: seq<Option<Candidate>>, ys: seq<Option<Candidate>>, requestMethod: string,
                                     allow: seq<string>)
    ensures Try(xs + ys, requestMethod, allow)
            == match Try(xs, requestMethod, allow)
               case Refused(al) => Try(ys, requestMethod, al)
               case s => s
    decreases |xs|
  {
    if xs == [] {
      assert xs + ys == ys;
    } else {
      assert (xs + ys)[0] == xs[0] && (xs + ys)[1..] == xs[1..] + ys;
      if xs[0].Some? && !Accepts(xs[0].value.entry, requestMethod) {
        TryAppend(xs[1..], ys, requestMethod, AddMissing(allow, xs[0].value.entry.methods));
      }
    }
  }

  /**
   * The candidates a chunk offers for a path: for each alternative the
   * engine would pick, in spelling order, the entries stored under its mark
   * with its captures.
   */
  function ChunkCandidates(alts: seq<Alt>, routes: map<nat, seq<Option<Entry>>>, path: string,
                           leafMatch: LeafMatch): seq<Option<Candidate>>
    decreases |alts|
  {
    if alts == [] then []
    else
      (if Hit(alts[0], path, leafMatch)
       then DynamicCandidates(RoutesAt(routes, alts[0].mark), leafMatch(alts[0].mark, path).value)
       else [])
      + ChunkCandidates(alts[1..], routes, path, leafMatch)
  }

  /**
   * The while loop over a chunk, with its in-place rewrites, tries exactly
   * the chunk's candidates for the path in order: the first registered
   * route that matches and accepts the method wins.
   */
  lemma {:induction false} ScanAltsFlat(alts: seq<Alt>, routes: map<nat, seq<Option<Entry>>>, path: string,
                                        requestMethod: string, leafMatch: LeafMatch, allow: seq<string>)
    ensures ScanAlts(alts, routes, path, requestMethod, leafMatch, allow)
            == Try(ChunkCandidates(alts, routes, path, leafMatch), requestMethod, allow)
    decreases |alts|
  {
    if alts != [] {
      var rest := ChunkCandidates(alts[1..], routes, path, leafMatch);
      if Hit(alts[0], path, leafMatch) {
        var here := DynamicCandidates(RoutesAt(routes, alts[0].mark), leafMatch(alts[0].mark, path).value);
        TryAppend(here, rest, requestMethod, allow);
        var t := Try(here, requestMethod, allow);
        if t.Refused? {
          ScanAltsFlat(alts[1..], routes, path, requestMethod, leafMatch, t.allow);
        }
      } else {
        assert [] + rest == rest;
        ScanAltsFlat(alts[1..], routes, path, requestMethod, leafMatch, allow);
      }
    }
  }

  /** Scanning a chunk only adds to allow. */
  lemma ScanAltsGrows(alts: seq<Alt>, routes: map<nat, seq<Option<Entry>>>, path: string,
                      requestMethod: string, leafMatch: LeafMatch, allow: seq<string>)
    ensures allow <= ScanAlts(alts, routes, path, requestMethod, leafMatch, allow).allow
  {
    ScanAltsFlat(alts, routes, path, requestMethod, leafMatch, allow);
    TryStop(ChunkCandidates(alts, routes, path, leafMatch), requestMethod, allow);
  }

  /** The chunk loop only adds to allow. */
  lemma {:induction false} ScanChunksGrows(chunks: seq<Chunk>, routes: map<nat, seq<Option<Entry>>>, path: string,
                                           requestMethod: string, leafMatch: LeafMatch, allow: seq<string>)
    ensures allow <= ScanChunks(chunks, routes, path, requestMethod, leafMatch, allow).allow
    decreases |chunks|
  {
    if chunks != [] {
      var s := ScanAlts(chunks[0].alts, routes, path, requestMethod, leafMatch, allow);
      ScanAltsGrows(chunks[0].alts, routes, path, requestMethod, leafMatch, allow);
      if !s.Found? {
        ScanChunksGrows(chunks[1..], routes, path, requestMethod, leafMatch, s.allow);
        PrefixTrans(allow, s.allow, ScanChunks(chunks[1..], routes, path, requestMethod, leafMatch, s.allow).allow);
      }
    }
  }

  /**
   * The static tier comes first: when a static entry of the exact path
   * accepts the method, the first such entry is returned, with no
   * variables, whatever the chunks hold.
   */
  lemma StaticFirst(t: Table, path: string, requestMethod: string, leafMatch: LeafMatch, k: nat)
    requires k < |StaticAt(t.statics, path)| && Accepts(StaticAt(t.statics, path)[k], requestMethod)
    ensures var es, s := StaticAt(t.statics, path), DoMatch(t, path, requestMethod, leafMatch);
            var f := Stop(StaticCandidates(es), requestMethod);
            && f <= k && Accepts(es[f], requestMethod)
            && (forall j :: 0 <= j < f ==> !Accepts(es[j], requestMethod))
            && s.Found? && s.ret == Matched(es[f].action, [])
  {
    var es := StaticAt(t.statics, path);
    var cs := StaticCandidates(es);
    TryStop(cs, requestMethod, []);
  }

  /**
   * A path whose static entries all refuse the method is never a 404: it
   * is matched by a chunk, or it is a 405 whose allowed methods include
   * every method those entries list.
   */
  lemma StaticRefusedNotFound(t: Table, path: string, requestMethod: string, leafMatch: LeafMatch)
    requires StaticAt(t.statics, path) != []
    requires forall k :: 0 <= k < |StaticAt(t.statics, path)| ==> !Accepts(StaticAt(t.statics, path)[k], requestMethod)
    ensures Match(t, path, requestMethod, leafMatch) != NotFound
    ensures var es, o := StaticAt(t.statics, path), Match(t, path, requestMethod, leafMatch);
            o.MethodNotAllowed? ==> forall k, x :: 0 <= k < |es| && x in es[k].methods ==> x in o.allowed
  {
    var es := StaticAt(t.statics, path);
    var cs := StaticCandidates(es);
    TryStop(cs, requestMethod, []);
    AllowEmpty(cs, requestMethod, []);
    var st := Try(cs, requestMethod, []);
    assert Stop(cs, requestMethod) == |cs|;
    assert cs[0].value.entry.methods != [];
    ScanChunksGrows(t.chunks, t.routes, path, requestMethod, leafMatch, st.allow);
    var s := DoMatch(t, path, requestMethod, leafMatch);
    assert s == ScanChunks(t.chunks, t.routes, path, requestMethod, leafMatch, st.allow);
    forall k, x | 0 <= k < |es| && x in es[k].methods
      ensures x in s.allow
    {
      assert RefusedBefore(cs, |cs|, x);
    }
  }
}
