/**
 * getCompiledRoutes as a function on values: the static table, and the
 * dynamic chunks compiled with a chunk limit that starts at the number of
 * dynamic routes and shrinks each time a chunk regex is too large.
 */
module DumperCompiled {
  import opened Common
  import opened RouteTable
  import opened RoutesDumper
  import opened DumperTree
  import opened DumperChunks

  /** $chunkLimit = 1 + ($chunkLimit >> 1): for a limit of 2 this is 2 again. */
  function NextLimitAsWritten(l: int): (r: int)
    requires 1 < l
  {
    1 + l / 2
  }

  /**
   * The next chunk limit after a failure: the source's 1 + (l >> 1) at every
   * limit but 2, which moves on to 1 instead of staying at 2.
   */
  function Shrink(l: int): (r: int)
    requires 1 < l
    ensures 1 <= r < l
    ensures l != 2 ==> r == NextLimitAsWritten(l)
  {
    if l == 2 then 1 else 1 + l / 2
  }

  /** One compilation of the dynamic routes at a given chunk limit. */
  type Attempt = int -> Result<Dynamic, Signal>

  /** compileDynamicRoutes at each chunk limit. */
  function Attempts(dyn: seq<RouteInfo>, build: seq<Item> -> seq<Item>, tooLarge: string -> bool): (attempt: Attempt)
    requires BuildsTree(build)
    ensures forall l :: attempt(l) == DynamicRoutes(dyn, l, build, tooLarge)
  {
    l => DynamicRoutes(dyn, l, build, tooLarge)
  }

  /**
   * The retry loop: compile with limit l; on the signalling exception try
   * again with a smaller limit while the limit is above 1, else rethrow.
   */
  function Retry(attempt: Attempt, l: int): Result<Dynamic, Signal>
    decreases if l < 0 then 0 else l
  {
    match attempt(l)
    case Ok(d) => Ok(d)
    case Err(s) => if 1 < l then Retry(attempt, Shrink(l)) else Err(s)
  }

  /** One turn of the retry loop. */
  lemma RetryStep(attempt: Attempt, l: int)
    ensures attempt(l).Ok? ==> Retry(attempt, l) == attempt(l)
    ensures attempt(l).Err? && 1 < l ==> Retry(attempt, l) == Retry(attempt, Shrink(l))
    ensures attempt(l).Err? && l <= 1 ==> Retry(attempt, l) == attempt(l)
  {
  }

  /**
   * The retry loop ends with the result of one of its attempts, at a limit no
   * larger than the first; it fails only when the attempt at limit 1 (or at
   * the first limit, if that was not above 1) failed too.
   */
  lemma {:induction false} RetryOutcome(attempt: Attempt, l: int)
    ensures Retry(attempt, l).Ok? ==> exists l': int :: (l' == l || 1 <= l' < l) && attempt(l') == Retry(attempt, l)
    ensures Retry(attempt, l).Err? ==> attempt(if l < 1 then l else 1).Err? && attempt(l).Err?
    decreases if l < 0 then 0 else l
  {
    if attempt(l).Err? && 1 < l {
      RetryOutcome(attempt, Shrink(l));
    }
  }

  /** When every chunk regex is too large, a non-empty dynamic list fails at every limit. */
  lemma AlwaysTooLarge(dyn: seq<RouteInfo>, l: int, build: seq<Item> -> seq<Item>, tooLarge: string -> bool)
    requires BuildsTree(build) && dyn != [] && forall s :: tooLarge(s)
    ensures DynamicRoutes(dyn, l, build, tooLarge).Err?
  {
    var bs := Batches(dyn, l);
    ChunksPartition(dyn, l);
    assert bs != [];
    EmitChunksPrefix(bs, 0, build, Fresh);
    var cs := EmitChunks(bs, build, Fresh).0;
    assert tooLarge(cs[0].regex);
  }

  // ---------------------------------------------------------------------------
  // The retry step as written

  lemma NextLimitAsWrittenStalls()
    ensures NextLimitAsWritten(2) == 2
    ensures forall l :: 2 < l ==> NextLimitAsWritten(l) < l
  {
  }

  /**
   * The retry loop as written, run for at most `fuel` attempts: None when it
   * has not finished by then.
   */
  function RetryAsWritten(attempt: Attempt, l: int, fuel: nat): Option<Result<Dynamic, Signal>>
  {
    if fuel == 0 then None
    else match attempt(l)
      case Ok(d) => Some(Ok(d))
      case Err(s) => if 1 < l then RetryAsWritten(attempt, NextLimitAsWritten(l), fuel - 1) else Some(Err(s))
  }

  /**
   * As written, once the limit is 2 and chunks of two routes are still too
   * large, the loop never ends, however many attempts it is given.
   */
  lemma {:induction false} AsWrittenRetryLoops(attempt: Attempt, fuel: nat)
    requires attempt(2).Err?
    ensures RetryAsWritten(attempt, 2, fuel) == None
    decreases fuel
  {
    if fuel > 0 {
      AsWrittenRetryLoops(attempt, fuel - 1);
    }
  }

  /** As written, every limit above 1 leads to 2 while attempts keep failing, and then stays there. */
  lemma {:induction false} AsWrittenReachesTwo(attempt: Attempt, l: int, fuel: nat)
    requires 2 <= l && forall l' :: 2 <= l' <= l ==> attempt(l').Err?
    ensures RetryAsWritten(attempt, l, fuel) == None
    decreases l, fuel
  {
    if l == 2 {
      AsWrittenRetryLoops(attempt, fuel);
    } else if fuel > 0 {
      AsWrittenReachesTwo(attempt, NextLimitAsWritten(l), fuel - 1);
    }
  }

  /** When every attempt fails, the loop as written never ends and the corrected loop rethrows. */
  lemma {:induction false} AllAttemptsFail(attempt: Attempt, l: int, fuel: nat)
    requires 1 <= l && forall l' :: attempt(l').Err?
    ensures 2 <= l ==> RetryAsWritten(attempt, l, fuel) == None
    ensures Retry(attempt, l).Err?
    decreases l
  {
    if 2 <= l {
      AsWrittenReachesTwo(attempt, l, fuel);
      AllAttemptsFail(attempt, Shrink(l), fuel);
    }
  }

  /**
   * Whenever the loop as written ends, the corrected loop ends with the same
   * result: the two differ only by the failure at limit 2.
   */
  lemma {:induction false} AsWrittenAgrees(attempt: Attempt, l: int, fuel: nat)
    ensures RetryAsWritten(attempt, l, fuel).Some? ==> RetryAsWritten(attempt, l, fuel).value == Retry(attempt, l)
    decreases fuel
  {
    if fuel > 0 && attempt(l).Err? && 1 < l {
      if l == 2 {
        AsWrittenRetryLoops(attempt, fuel - 1);
      } else {
        AsWrittenAgrees(attempt, Shrink(l), fuel - 1);
      }
    }
  }

  /**
   * The input that shows it: two or more dynamic routes and a regex engine
   * that refuses every chunk.
   */
  lemma AsWrittenRetryLoopsOn(dyn: seq<RouteInfo>, build: seq<Item> -> seq<Item>, tooLarge: string -> bool, fuel: nat)
    requires BuildsTree(build) && |dyn| >= 2 && forall s :: tooLarge(s)
    ensures RetryAsWritten(Attempts(dyn, build, tooLarge), |dyn|, fuel) == None
    ensures Retry(Attempts(dyn, build, tooLarge), |dyn|).Err?
  {
    var attempt := Attempts(dyn, build, tooLarge);
    forall l'
      ensures attempt(l').Err?
    {
      AlwaysTooLarge(dyn, l', build, tooLarge);
    }
    AllAttemptsFail(attempt, |dyn|, fuel);
  }

  /** A table the retry loop produced has addressed chunks only: some attempt succeeded. */
  lemma CompiledAddressed(routes: seq<RouteInfo>, rxMatch: (string, string) -> bool,
                          build: seq<Item> -> seq<Item>, tooLarge: string -> bool)
    requires BuildsTree(build) && CompiledRoutes(routes, rxMatch, build, tooLarge).Ok?
    ensures AllAddressed(CompiledRoutes(routes, rxMatch, build, tooLarge).value.chunks)
  {
    var dyn := DynamicOf(routes, rxMatch);
    var attempt := Attempts(dyn, build, tooLarge);
    RetryOutcome(attempt, |dyn|);
    var l' :| (l' == |dyn| || 1 <= l' < |dyn|) && attempt(l') == Retry(attempt, |dyn|);
    DynamicAddressed(dyn, l', build, tooLarge);
  }

  /**
   * getCompiledRoutes: the static routes grouped by URL and compiled, then
   * the dynamic routes compiled by the retry loop from a limit of their
   * count; the signalling exception when even that fails.
   */
  function CompiledRoutes(routes: seq<RouteInfo>, rxMatch: (string, string) -> bool,
                          build: seq<Item> -> seq<Item>, tooLarge: string -> bool): Result<Table, Signal>
    requires BuildsTree(build)
  {
    var dyn := DynamicOf(routes, rxMatch);
    match Retry(Attempts(dyn, build, tooLarge), |dyn|)
    case Ok(d) => Ok(Table(CompileStaticRoutes(Buckets(StaticOf(routes, rxMatch))), d.chunks, d.routes))
    case Err(s) => Err(s)
  }
}
