/**
 * The matcher: doMatch tries the static entries of the exact path, then
 * each chunk regex in key order. Within a chunk the regex engine reports the
 * mark of the first alternative that matches; the entries stored under that
 * mark are tried in order, and when all are refused for the request method
 * the alternative's verb "(*:mark)" is rewritten in place to "(*F)" so that
 * the next search finds a later alternative.
 *
 * The regex engine is a parameter: `leafMatch(mark, path)` says whether the
 * alternative ending in "(*:mark)" matches the whole path, with its captures
 * by group number. Alternatives are tried in the order they are spelled.
 */
module Routing {
  import opened Common
  import opened RouteTable

  /** The regex engine on one alternative: its captures by group number when it matches the path. */
  type LeafMatch = (nat, string) -> Option<map<nat, string>>

  /** What doMatch returns: the route's action, then the bound variables by name. */
  datatype Matched = Matched(action: seq<string>, params: seq<(string, string)>)

  // ---------------------------------------------------------------------------
  // Disabling an alternative

  /** An alternative the engine would pick for this path: its verb is still a mark, and it matches. */
  predicate Hit(a: Alt, path: string, leafMatch: LeafMatch)
  {
    a.enabled && leafMatch(a.mark, path).Some?
  }

  /** preg_match over a chunk: the first alternative, in spelling order, that the engine picks. */
  function FirstMatch(alts: seq<Alt>, path: string, leafMatch: LeafMatch): (r: Option<nat>)
    ensures r.Some? ==> r.value < |alts| && Hit(alts[r.value], path, leafMatch)
    ensures r.Some? ==> forall j :: 0 <= j < r.value ==> !Hit(alts[j], path, leafMatch)
    ensures r.None? ==> forall j :: 0 <= j < |alts| ==> !Hit(alts[j], path, leafMatch)
    decreases |alts|
  {
    if alts == [] then None
    else if Hit(alts[0], path, leafMatch) then Some(0)
    else match FirstMatch(alts[1..], path, leafMatch)
      case None => None
      case Some(i) => Some(i + 1)
  }

  /** The verb of alternative i reads "(*F)". */
  function Disable(alts: seq<Alt>, i: nat): (r: seq<Alt>)
    requires i < |alts|
    ensures |r| == |alts| && r[i] == alts[i].(enabled := false)
  {
    alts[i := alts[i].(enabled := false)]
  }

  /** Disabling alternative i leaves the alternatives before and after it as they were. */
  lemma DisableParts(alts: seq<Alt>, i: nat)
    requires i < |alts|
    ensures Disable(alts, i)[..i] == alts[..i] && Disable(alts, i)[i + 1..] == alts[i + 1..]
  {
  }

  /** The alternatives with every verb back to "(*:mark)". */
  function Restore(alts: seq<Alt>): (r: seq<Alt>)
    ensures |r| == |alts| && forall j :: 0 <= j < |alts| ==> r[j] == alts[j].(enabled := true)
  {
    seq(|alts|, j requires 0 <= j < |alts| => alts[j].(enabled := true))
  }

  /** How many bytes the disabled verbs saved: strlen(strval(m)) for each "(*F)". */
  function Saved(alts: seq<Alt>): nat
    decreases |alts|
  {
    if alts == [] then 0
    else Saved(alts[..|alts| - 1]) + (if alts[|alts| - 1].enabled then 0 else |Digits(alts[|alts| - 1].mark)|)
  }

  lemma {:induction false} SavedAppend(a: seq<Alt>, b: seq<Alt>)
    ensures Saved(a + b) == Saved(a) + Saved(b)
    decreases |b|
  {
    if b == [] {
      AppendNil(a);
    } else {
      var init := b[..|b| - 1];
      SavedAppend(a, init);
      assert (a + b)[..|a + b| - 1] == a + init;
    }
  }

  lemma {:induction false} SavedEnabled(alts: seq<Alt>)
    requires forall j :: 0 <= j < |alts| ==> alts[j].enabled
    ensures Saved(alts) == 0
    decreases |alts|
  {
    if alts != [] {
      SavedEnabled(alts[..|alts| - 1]);
    }
  }

  /** Each disabled verb is shorter by its mark's digits, and nothing else changes length. */
  lemma {:induction false} RenderSaved(alts: seq<Alt>)
    ensures |Render(alts)| + Saved(alts) == |Render(Restore(alts))|
    decreases |alts|
  {
    if alts != [] {
      var init := alts[..|alts| - 1];
      RenderSaved(init);
      assert Restore(alts)[..|alts| - 1] == Restore(init);
    }
  }

  lemma RestorePrefix(alts: seq<Alt>, i: nat)
    requires i <= |alts|
    ensures Restore(alts)[..i] == Restore(alts[..i])
  {
  }

  /**
   * The ':' of alternative i moved left by what the disabled verbs before it
   * saved; with every later verb still a mark, that is what all of them saved.
   */
  lemma PosSaved(alts: seq<Alt>, i: nat)
    requires i < |alts| && forall j :: i <= j < |alts| ==> alts[j].enabled
    ensures Pos(alts, i) + Saved(alts) == Pos(Restore(alts), i)
  {
    RenderSaved(alts[..i]);
    RestorePrefix(alts, i);
    SplitAt(alts, i);
    SavedAppend(alts[..i], alts[i..]);
    SavedEnabled(alts[i..]);
  }

  /** Disabling alternative i adds its mark's digits to what was saved. */
  lemma SavedDisable(alts: seq<Alt>, i: nat)
    requires i < |alts| && alts[i].enabled
    ensures Saved(Disable(alts, i)) == Saved(alts) + |Digits(alts[i].mark)|
  {
    var d := Disable(alts, i);
    SplitAround(alts, i);
    SplitAround(d, i);
    assert d[..i] == alts[..i] && d[i + 1..] == alts[i + 1..];
    SavedAppend(alts[..i] + [alts[i]], alts[i + 1..]);
    SavedAppend(alts[..i], [alts[i]]);
    SavedAppend(alts[..i] + [d[i]], alts[i + 1..]);
    SavedAppend(alts[..i], [d[i]]);
    assert [d[i]][..0] == [];
    assert [alts[i]][..0] == [];
  }

  /** substr_replace of ":digits" by "F" turns the verb "(*:digits)" into "(*F)". */
  lemma SpliceVerb(s: string, s': string, x: string, d: string, b: string, p: nat)
    requires s == x + ("(*:" + d + ")") + b && s' == x + "(*F)" + b && p == |x| + 2
    ensures p + 1 + |d| <= |s|
    ensures Splice(s, p, 1 + |d|, "F") == s'
  {
    assert s[..|x| + 2] == x + "(*";
    assert s[|x| + 3 + |d|..] == ")" + b;
  }

  /**
   * Alternative i's verb splits the rendered chunk into the text before it,
   * which ends two bytes before Pos, and the text after it; disabling the
   * alternative changes only the verb.
   */
  lemma RenderSplit(alts: seq<Alt>, i: nat) returns (x: string, b: string)
    requires i < |alts| && alts[i].enabled
    ensures Render(alts) == x + ("(*:" + Digits(alts[i].mark) + ")") + b
    ensures Render(Disable(alts, i)) == x + "(*F)" + b
    ensures Pos(alts, i) == |x| + 2
  {
    x, b := Render(alts[..i]) + alts[i].pre, Render(alts[i + 1..]);
    RenderAround(alts, i);
    RenderAround(Disable(alts, i), i);
    DisableParts(alts, i);
  }

  /** Text after the rendered chunk extends the part after the verb. */
  lemma AppendTail(s: string, r: string, x: string, v: string, b: string, tail: string)
    requires s == r + tail && r == x + v + b
    ensures s == x + v + (b + tail)
  {
  }

  // ---------------------------------------------------------------------------
  // Trying the entries of a path or a mark

  /** An entry to try, and the variables it binds if the request method is accepted. */
  datatype Candidate = Candidate(entry: Entry, params: seq<(string, string)>)

  /** $ret[$v] = $matches[1 + $i] for each variable whose capture is set, in order. */
  function Bind(vars: seq<string>, caps: map<nat, string>): (ps: seq<(string, string)>)
    ensures forall p :: p in ps <==> exists i :: 0 <= i < |vars| && 1 + i in caps && p == (vars[i], caps[1 + i])
    decreases |vars|
  {
    if vars == [] then []
    else
      var ps := Bind(vars[..|vars| - 1], caps);
      if |vars| in caps then ps + [(vars[|vars| - 1], caps[|vars|])] else ps
  }

  /** An entry with no method list takes every method; otherwise the method must be in it. */
  predicate Accepts(e: Entry, requestMethod: string)
  {
    e.methods == [] || requestMethod in e.methods
  }

  /** The outcome of trying entries: a match, every entry refused, or the sentinel reached. */
  datatype Scan = Found(ret: Matched, allow: seq<string>) | Refused(allow: seq<string>) | Sentinel(allow: seq<string>)

  /**
   * The inner foreach of doMatch: the first candidate that accepts the
   * method is returned; each refused one adds its methods to allow; a null
   * entry ends the chunk.
   */
  function Try(cands: seq<Option<Candidate>>, requestMethod: string, allow: seq<string>): Scan
    decreases |cands|
  {
    if cands == [] then Refused(allow)
    else match cands[0]
      case None => Sentinel(allow)
      case Some(c) =>
        if Accepts(c.entry, requestMethod) then Found(Matched(c.entry.action, c.params), allow)
        else Try(cands[1..], requestMethod, AddMissing(allow, c.entry.methods))
  }

  /** A static entry binds nothing. */
  function StaticCandidates(entries: seq<Entry>): (cs: seq<Option<Candidate>>)
    ensures |cs| == |entries| && forall k :: 0 <= k < |entries| ==> cs[k] == Some(Candidate(entries[k], []))
  {
    seq(|entries|, k requires 0 <= k < |entries| => Some(Candidate(entries[k], [])))
  }

  /** A dynamic entry binds its variables to the captures of the alternative that matched. */
  function DynamicCandidate(x: Option<Entry>, caps: map<nat, string>): Option<Candidate>
  {
    match x
    case None => None
    case Some(e) => Some(Candidate(e, match e.vars case Some(vs) => Bind(vs, caps) case None => []))
  }

  function DynamicCandidates(list: seq<Option<Entry>>, caps: map<nat, string>): (cs: seq<Option<Candidate>>)
    ensures |cs| == |list| && forall k :: 0 <= k < |list| ==> cs[k] == DynamicCandidate(list[k], caps)
  {
    seq(|list|, k requires 0 <= k < |list| => DynamicCandidate(list[k], caps))
  }

  /**
   * The while loop over one chunk: each alternative the engine picks, in
   * order, has its entries tried; the chunk ends at a match, at the
   * sentinel, or when no alternative matches any more.
   */
  function ScanAlts(alts: seq<Alt>, routes: map<nat, seq<Option<Entry>>>, path: string, requestMethod: string,
                    leafMatch: LeafMatch, allow: seq<string>): Scan
    decreases |alts|
  {
    if alts == [] then Refused(allow)
    else if !Hit(alts[0], path, leafMatch) then ScanAlts(alts[1..], routes, path, requestMethod, leafMatch, allow)
    else
      var caps := leafMatch(alts[0].mark, path).value;
      match Try(DynamicCandidates(RoutesAt(routes, alts[0].mark), caps), requestMethod, allow)
      case Refused(al) => ScanAlts(alts[1..], routes, path, requestMethod, leafMatch, al)
      case s => s
  }

  /** The foreach over the chunks, in key order: a sentinel moves on to the next chunk. */
  function ScanChunks(chunks: seq<Chunk>, routes: map<nat, seq<Option<Entry>>>, path: string, requestMethod: string,
                      leafMatch: LeafMatch, allow: seq<string>): Scan
    decreases |chunks|
  {
    if chunks == [] then Refused(allow)
    else match ScanAlts(chunks[0].alts, routes, path, requestMethod, leafMatch, allow)
      case Found(r, al) => Found(r, al)
      case Refused(al) => ScanChunks(chunks[1..], routes, path, requestMethod, leafMatch, al)
      case Sentinel(al) => ScanChunks(chunks[1..], routes, path, requestMethod, leafMatch, al)
  }

  /** The static entries of a path ($this->compiledRoutes[0][$pathinfo] ?? []). */
  function StaticAt(statics: map<string, seq<Entry>>, path: string): seq<Entry>
  {
    if path in statics then statics[path] else []
  }

  /** doMatch: the static tier, then the chunks, with allow starting empty. */
  function DoMatch(t: Table, path: string, requestMethod: string, leafMatch: LeafMatch): Scan
  {
    match Try(StaticCandidates(StaticAt(t.statics, path)), requestMethod, [])
    case Found(r, al) => Found(r, al)
    case s => ScanChunks(t.chunks, t.routes, path, requestMethod, leafMatch, s.allow)
  }

  /** The outcome of match. */
  datatype Outcome = Ok(ret: Matched) | MethodNotAllowed(allowed: seq<string>) | NotFound

  /** match: a non-empty result is returned; otherwise a non-empty allow is a 405, else a 404. */
  function Match(t: Table, path: string, requestMethod: string, leafMatch: LeafMatch): Outcome
  {
    match DoMatch(t, path, requestMethod, leafMatch)
    case Found(r, al) =>
      if r.action != [] || r.params != [] then Outcome.Ok(r)
      else if al != [] then MethodNotAllowed(al) else NotFound
    case s => if s.allow != [] then MethodNotAllowed(s.allow) else NotFound
  }

  // ---------------------------------------------------------------------------
  // doMatch as it runs

  /** The variable binding loop of doMatch. */
  method BindVars(vars: seq<string>, caps: map<nat, string>) returns (ps: seq<(string, string)>)
    ensures ps == Bind(vars, caps)
  {
    ps := [];
    for i := 0 to |vars|
      invariant ps == Bind(vars[..i], caps)
    {
      assert vars[..i + 1][..i] == vars[..i];
      if 1 + i in caps {
        ps := ps + [(vars[i], caps[1 + i])];
      }
    }
    assert vars[..|vars|] == vars;
  }

  /** The static tier: the entries of the exact path, in order. */
  method TryStatic(entries: seq<Entry>, requestMethod: string) returns (s: Scan)
    ensures s == Try(StaticCandidates(entries), requestMethod, [])
  {
    var allow := [];
    ghost var cs := StaticCandidates(entries);
    for k := 0 to |entries|
      invariant Try(cs, requestMethod, []) == Try(cs[k..], requestMethod, allow)
    {
      assert cs[k..][0] == cs[k] && cs[k..][1..] == cs[k + 1..];
      var e := entries[k];
      if e.methods != [] && requestMethod !in e.methods {
        allow := AddMissing(allow, e.methods);
      } else {
        return Found(Matched(e.action, []), allow);
      }
    }
    return Refused(allow);
  }

  /** The entries stored under a mark, with the captures of the alternative that matched. */
  method TryList(list: seq<Option<Entry>>, requestMethod: string, caps: map<nat, string>, allow0: seq<string>)
    returns (s: Scan)
    ensures s == Try(DynamicCandidates(list, caps), requestMethod, allow0)
  {
    var allow := allow0;
    ghost var cs := DynamicCandidates(list, caps);
    for k := 0 to |list|
      invariant Try(cs, requestMethod, allow0) == Try(cs[k..], requestMethod, allow)
    {
      assert cs[k..][0] == cs[k] && cs[k..][1..] == cs[k + 1..];
      match list[k]
      case None =>
        return Sentinel(allow);
      case Some(e) =>
        if e.methods != [] && requestMethod !in e.methods {
          allow := AddMissing(allow, e.methods);
        } else {
          var params: seq<(string, string)> := [];
          if e.vars.Some? {
            params := BindVars(e.vars.value, caps);
          }
          return Found(Matched(e.action, params), allow);
        }
    }
    return Refused(allow);
  }

  /** Alternatives the engine does not pick are passed over. */
  lemma {:induction false} ScanSkip(alts: seq<Alt>, lo: nat, i: nat, routes: map<nat, seq<Option<Entry>>>, path: string,
                                    requestMethod: string, leafMatch: LeafMatch, allow: seq<string>)
    requires lo <= i <= |alts| && forall j :: lo <= j < i ==> !Hit(alts[j], path, leafMatch)
    ensures ScanAlts(alts[lo..], routes, path, requestMethod, leafMatch, allow)
            == ScanAlts(alts[i..], routes, path, requestMethod, leafMatch, allow)
    decreases i - lo
  {
    if lo < i {
      assert alts[lo..][0] == alts[lo] && alts[lo..][1..] == alts[lo + 1..];
      ScanSkip(alts, lo + 1, i, routes, path, requestMethod, leafMatch, allow);
    }
  }

  /** The alternative the engine picks has its entries tried next. */
  lemma ScanAt(alts: seq<Alt>, i: nat, routes: map<nat, seq<Option<Entry>>>, path: string,
               requestMethod: string, leafMatch: LeafMatch, allow: seq<string>)
    requires i < |alts| && Hit(alts[i], path, leafMatch)
    ensures var t := Try(DynamicCandidates(RoutesAt(routes, alts[i].mark), leafMatch(alts[i].mark, path).value), requestMethod, allow);
            ScanAlts(alts[i..], routes, path, requestMethod, leafMatch, allow)
            == if t.Refused? then ScanAlts(alts[i + 1..], routes, path, requestMethod, leafMatch, t.allow) else t
  {
    assert alts[i..][0] == alts[i] && alts[i..][1..] == alts[i + 1..];
  }

  lemma RestoreDisable(alts: seq<Alt>, i: nat)
    requires i < |alts|
    ensures Restore(Disable(alts, i)) == Restore(alts)
  {
  }

  /**
   * $regex = substr_replace($regex, 'F', $m - $offset, 1 + strlen(strval($m))):
   * at the position of alternative i's ':' this disables exactly that
   * alternative and leaves the rest of the regex as it was.
   */
  lemma SpliceRewrite(alts: seq<Alt>, i: nat, regex: string, p: nat, tail: string)
    requires i < |alts| && alts[i].enabled && regex == Render(alts) + tail && p == Pos(alts, i)
    ensures p + 1 + |Digits(alts[i].mark)| <= |regex|
    ensures Splice(regex, p, 1 + |Digits(alts[i].mark)|, "F") == Render(Disable(alts, i)) + tail
  {
    var x, b := RenderSplit(alts, i);
    var d, regex' := Digits(alts[i].mark), Render(Disable(alts, i)) + tail;
    AppendTail(regex, Render(alts), x, "(*:" + d + ")", b, tail);
    AppendTail(regex', Render(Disable(alts, i)), x, "(*F)", b, tail);
    SpliceVerb(regex, regex', x, d, b + tail, p);
  }

  /** A chunk's mark i is its key plus the position of alternative i's ':'. */
  lemma MarkAt(c: Chunk, i: nat)
    requires WellMarked(c.key, c.alts) && i < |c.alts|
    ensures c.alts[i].mark == c.key + Pos(c.alts, i) && c.alts[i].enabled
  {
  }

  /**
   * With the regex spelling `alts` and `offset` at the key plus what earlier
   * rewrites saved, the mark of a not yet disabled alternative minus offset
   * is the position of its ':'.
   */
  lemma MarkOffset(c: Chunk, alts: seq<Alt>, i: nat, offset: nat)
    requires WellMarked(c.key, c.alts) && |alts| == |c.alts| && Restore(alts) == c.alts
    requires i < |alts| && forall j :: i <= j < |alts| ==> alts[j] == c.alts[j]
    requires offset == c.key + Saved(alts)
    ensures alts[i].enabled && alts[i].mark == offset + Pos(alts, i)
  {
    assert alts[i] == c.alts[i];
    MarkAt(c, i);
    PosSaved(alts, i);
  }

  /**
   * One rewrite of the loop: $regex = substr_replace($regex, 'F', $m - $offset,
   * 1 + strlen(strval($m))) and $offset += strlen(strval($m)), which disable
   * the picked alternative and keep the offset at the key plus what was saved.
   */
  method DisableMark(regex: string, offset: nat, alts: seq<Alt>, i: nat, ghost tail: string, ghost key: nat)
    returns (regex': string, offset': nat)
    requires i < |alts| && alts[i].enabled && alts[i].mark == offset + Pos(alts, i)
    requires regex == Render(alts) + tail && offset == key + Saved(alts)
    ensures regex' == Render(Disable(alts, i)) + tail
    ensures offset' == key + Saved(Disable(alts, i))
  {
    var m := alts[i].mark;
    var p: nat := m - offset;
    SpliceRewrite(alts, i, regex, p, tail);
    SavedDisable(alts, i);
    regex' := Splice(regex, p, 1 + |Digits(m)|, "F");
    offset' := offset + |Digits(m)|;
  }

  /**
   * What the rewrites of one chunk keep: the regex spells `alts`, which is the
   * chunk's alternatives with some verbs disabled, all before `lo`; the
   * alternatives before `lo` cannot be picked any more; and the offset is the
   * key plus what was saved.
   */
  ghost predicate Rewritten(c: Chunk, path: string, leafMatch: LeafMatch, tail: string,
                            regex: string, offset: nat, alts: seq<Alt>, lo: nat)
  {
    && WellMarked(c.key, c.alts)
    && lo <= |c.alts| == |alts| && Restore(alts) == c.alts
    && (forall j :: lo <= j < |alts| ==> alts[j] == c.alts[j])
    && (forall j :: 0 <= j < lo ==> !Hit(alts[j], path, leafMatch))
    && regex == Render(alts) + tail && offset == c.key + Saved(alts)
  }

  /**
   * The rewrite after the picked alternative was refused: it is disabled in
   * the regex, and the alternatives the engine can no longer pick now reach
   * past it.
   */
  method Advance(ghost c: Chunk, regex: string, offset: nat, alts: seq<Alt>, ghost lo: nat, i: nat, ghost tail: string,
                 ghost path: string, ghost leafMatch: LeafMatch)
    returns (regex': string, offset': nat, alts': seq<Alt>)
    requires Rewritten(c, path, leafMatch, tail, regex, offset, alts, lo)
    requires FirstMatch(alts, path, leafMatch) == Some(i)
    ensures lo <= i && Rewritten(c, path, leafMatch, tail, regex', offset', alts', i + 1)
  {
    MarkOffset(c, alts, i, offset);
    RestoreDisable(alts, i);
    regex', offset' := DisableMark(regex, offset, alts, i, tail, c.key);
    alts' := Disable(alts, i);
  }

  /**
   * What the loop over one chunk keeps besides the rewrites: what is left to
   * scan from `lo` with `allow` gives what the whole chunk gives.
   */
  ghost predicate Scanning(c: Chunk, routes: map<nat, seq<Option<Entry>>>, path: string, requestMethod: string,
                           leafMatch: LeafMatch, allow0: seq<string>, lo: nat, allow: seq<string>)
  {
    && lo <= |c.alts|
    && ScanAlts(c.alts, routes, path, requestMethod, leafMatch, allow0)
       == ScanAlts(c.alts[lo..], routes, path, requestMethod, leafMatch, allow)
  }

  /**
   * The alternative the engine picked, after the ones it passed over: its
   * entries are tried with the captures of the match, and unless all refuse
   * that ends the chunk.
   */
  method TryAlt(c: Chunk, ghost lo: nat, i: nat, routes: map<nat, seq<Option<Entry>>>, path: string,
                requestMethod: string, leafMatch: LeafMatch, ghost allow0: seq<string>, allow: seq<string>)
    returns (t: Scan)
    requires lo <= i < |c.alts| && Hit(c.alts[i], path, leafMatch)
    requires forall j :: lo <= j < i ==> !Hit(c.alts[j], path, leafMatch)
    requires Scanning(c, routes, path, requestMethod, leafMatch, allow0, lo, allow)
    ensures !t.Refused? ==> t == ScanAlts(c.alts, routes, path, requestMethod, leafMatch, allow0)
    ensures t.Refused? ==> Scanning(c, routes, path, requestMethod, leafMatch, allow0, i + 1, t.allow)
  {
    var m := c.alts[i].mark;
    ScanSkip(c.alts, lo, i, routes, path, requestMethod, leafMatch, allow);
    ScanAt(c.alts, i, routes, path, requestMethod, leafMatch, allow);
    t := TryList(RoutesAt(routes, m), requestMethod, leafMatch(m, path).value, allow);
  }

  /**
   * The alternative the engine picks in the rewritten regex is one the scan
   * has not passed yet, and the first from lo on that matches in the
   * original chunk.
   */
  lemma PickedAfter(c: Chunk, path: string, leafMatch: LeafMatch, tail: string,
                    regex: string, offset: nat, alts: seq<Alt>, lo: nat, i: nat)
    requires Rewritten(c, path, leafMatch, tail, regex, offset, alts, lo)
    requires FirstMatch(alts, path, leafMatch) == Some(i)
    ensures lo <= i < |c.alts| && Hit(c.alts[i], path, leafMatch)
    ensures forall j :: lo <= j < i ==> !Hit(c.alts[j], path, leafMatch)
  {
    assert Hit(alts[i], path, leafMatch);
    forall j | lo <= j < i
      ensures !Hit(c.alts[j], path, leafMatch)
    {
      assert alts[j] == c.alts[j];
    }
  }

  /**
   * One turn of the loop: the entries of the picked alternative are tried;
   * when all refuse, its verb is disabled, the scan goes on after it and the
   * engine is run again on the rewritten regex.
   */
  method Turn(c: Chunk, routes: map<nat, seq<Option<Entry>>>, path: string, requestMethod: string,
              leafMatch: LeafMatch, ghost allow0: seq<string>, ghost tail: string,
              regex: string, offset: nat, alts: seq<Alt>, ghost lo: nat, allow: seq<string>, hit: Option<nat>)
    returns (t: Scan, regex': string, offset': nat, alts': seq<Alt>, ghost lo': nat, allow': seq<string>, hit': Option<nat>)
    requires Rewritten(c, path, leafMatch, tail, regex, offset, alts, lo)
    requires Scanning(c, routes, path, requestMethod, leafMatch, allow0, lo, allow)
    requires hit == FirstMatch(alts, path, leafMatch) && hit.Some?
    ensures !t.Refused? ==> t == ScanAlts(c.alts, routes, path, requestMethod, leafMatch, allow0)
    // compared with true so that each predicate is checked as one fact, not conjunct by conjunct
    ensures t.Refused? ==> Rewritten(c, path, leafMatch, tail, regex', offset', alts', lo') == true
    ensures t.Refused? ==> Scanning(c, routes, path, requestMethod, leafMatch, allow0, lo', allow') == true
    ensures t.Refused? ==> hit' == FirstMatch(alts', path, leafMatch) && |c.alts| - lo' < |c.alts| - lo
  {
    var i := hit.value;
    PickedAfter(c, path, leafMatch, tail, regex, offset, alts, lo, i);
    t := TryAlt(c, lo, i, routes, path, requestMethod, leafMatch, allow0, allow);
    regex', offset', alts', lo', allow', hit' := regex, offset, alts, lo, allow, hit;
    if t.Refused? {
      regex', offset', alts' := Advance(c, regex, offset, alts, lo, i, tail, path, leafMatch);
      lo', allow' := i + 1, t.allow;
      hit' := FirstMatch(alts', path, leafMatch);
    }
  }

  /** Before the first rewrite the regex is the chunk's own, nothing is saved and nothing is scanned. */
  lemma Started(c: Chunk, routes: map<nat, seq<Option<Entry>>>, path: string, requestMethod: string,
                leafMatch: LeafMatch, allow0: seq<string>, tail: string)
    requires WellMarked(c.key, c.alts) && c.regex == Render(c.alts) + tail
    ensures Rewritten(c, path, leafMatch, tail, c.regex, c.key, c.alts, 0)
    ensures Scanning(c, routes, path, requestMethod, leafMatch, allow0, 0, allow0)
  {
    assert Restore(c.alts) == c.alts;
    assert c.alts[0..] == c.alts;
    SavedEnabled(c.alts);
  }

  /** When the engine picks nothing more, every candidate of the chunk was refused. */
  lemma Exhausted(c: Chunk, routes: map<nat, seq<Option<Entry>>>, path: string, requestMethod: string,
                  leafMatch: LeafMatch, allow0: seq<string>, tail: string,
                  regex: string, offset: nat, alts: seq<Alt>, lo: nat, allow: seq<string>)
    requires Rewritten(c, path, leafMatch, tail, regex, offset, alts, lo)
    requires Scanning(c, routes, path, requestMethod, leafMatch, allow0, lo, allow)
    requires FirstMatch(alts, path, leafMatch).None?
    ensures ScanAlts(c.alts, routes, path, requestMethod, leafMatch, allow0) == Refused(allow)
  {
    forall j | lo <= j < |c.alts|
      ensures !Hit(c.alts[j], path, leafMatch)
    {
      assert alts[j] == c.alts[j];
    }
    ScanSkip(c.alts, lo, |c.alts|, routes, path, requestMethod, leafMatch, allow);
  }

  /**
   * The while loop of doMatch over one chunk. The regex string is rewritten
   * in place; `alts` is what it spells, and `offset` - the chunk key is what
   * the rewrites have saved, so that m - offset stays the position of the
   * next picked alternative's ':'.
   */
  method ScanChunk(c: Chunk, routes: map<nat, seq<Option<Entry>>>, pathinfo: string, requestMethod: string,
                   leafMatch: LeafMatch, allow0: seq<string>, ghost tail: string) returns (s: Scan)
    requires WellMarked(c.key, c.alts) && c.regex == Render(c.alts) + tail
    ensures s == ScanAlts(c.alts, routes, pathinfo, requestMethod, leafMatch, allow0)
  {
    var regex, offset, alts, allow := c.regex, c.key, c.alts, allow0;
    ghost var lo := 0;
    Started(c, routes, pathinfo, requestMethod, leafMatch, allow0, tail);
    var hit := FirstMatch(alts, pathinfo, leafMatch);
    while hit.Some?
      invariant Rewritten(c, pathinfo, leafMatch, tail, regex, offset, alts, lo)
      invariant Scanning(c, routes, pathinfo, requestMethod, leafMatch, allow0, lo, allow)
      invariant hit == FirstMatch(alts, pathinfo, leafMatch)
      decreases |c.alts| - lo
    {
      var t;
      t, regex, offset, alts, lo, allow, hit := Turn(c, routes, pathinfo, requestMethod, leafMatch, allow0, tail,
                                                     regex, offset, alts, lo, allow, hit);
      if !t.Refused? {
        return t;
      }
    }
    Exhausted(c, routes, pathinfo, requestMethod, leafMatch, allow0, tail, regex, offset, alts, lo, allow);
    return Refused(allow);
  }
}
