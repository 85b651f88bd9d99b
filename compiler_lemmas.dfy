/**
 * What the route pattern compiler guarantees: the shape of a successful
 * extraction, which patterns compile, the variable names and the named
 * groups of the regex, the static prefix, and the group rewrite.
 */
module CompilerProperties {
  import opened Common
  import opened RoutesCompiler

  // ---------------------------------------------------------------------------
  // The capturing-group rewrite

  /** Strings shorter than three bytes are never rewritten. */
  lemma NonCapturingShort(s: string)
    requires |s| < 3
    ensures NonCapturing(s) == s
  {
    if |s| > 0 && s[0] != '\\' {
      assert NonCapturing(s) == [s[0]] + NonCapturing(s[1..]);
      if |s| == 2 && s[1] != '\\' {
        assert NonCapturing(s[1..]) == [s[1]] + NonCapturing(s[2..]);
      }
    }
  }

  /** Rewriting twice is rewriting once: every group opener already reads "(?". */
  lemma {:induction false} NonCapturingIdempotent(s: string)
    ensures NonCapturing(NonCapturing(s)) == NonCapturing(s)
    decreases |s|
  {
    if s == [] {
    } else if s[0] == '\\' {
      if |s| >= 2 {
        var u := NonCapturing(s);
        NonCapturingIdempotent(s[2..]);
        assert u[..2] == s[..2] && u[2..] == NonCapturing(s[2..]);
      }
    } else if s[0] != '(' || |s| < 3 {
      if s[0] == '(' {
        NonCapturingShort(s);
      } else {
        var u := NonCapturing(s);
        NonCapturingIdempotent(s[1..]);
        assert u[0] == s[0] && u[1..] == NonCapturing(s[1..]);
      }
    } else if s[1] == '*' || s[1] == '?' {
      var u := NonCapturing(s);
      NonCapturingIdempotent(s[3..]);
      assert u[..3] == s[..3] && u[3..] == NonCapturing(s[3..]);
    } else {
      var u := NonCapturing(s);
      NonCapturingIdempotent(s[1..]);
      assert u[..3] == "(?:" && u[3..] == NonCapturing(s[1..]);
    }
  }

  /** A plain fragment is left as it is. */
  lemma {:induction false} NonCapturingWithoutGroups(s: string)
    requires PlainFragment(s)
    ensures NonCapturing(s) == s
    decreases |s|
  {
    if s != [] {
      if s[0] == '\\' {
        if |s| >= 2 {
          NonCapturingWithoutGroups(s[2..]);
          assert s[..2] + s[2..] == s;
        }
      } else {
        NonCapturingWithoutGroups(s[1..]);
        assert [s[0]] + s[1..] == s;
      }
    }
  }

  /** Every fragment of the registry is plain, so it is used unchanged. */
  lemma RegistryFragmentsPlain(tag: string)
    requires VarRegex(tag).Some?
    ensures PlainFragment(VarRegex(tag).value)
    ensures NonCapturing(VarRegex(tag).value) == VarRegex(tag).value
  {
    RegistryPlain();
    NonCapturingWithoutGroups(VarRegex(tag).value);
  }

  lemma RegistryPlain()
    ensures forall t :: t in Registry ==> PlainFragment(Registry[t])
  {
  }

  // ---------------------------------------------------------------------------
  // Type-tag extraction

  /** A route path written as literal text and "{name:tag}" placeholders. */
  datatype Segment = Literal(text: string) | Typed(name: string, tag: string)

  /** The path as written by the author. */
  function Written(segs: seq<Segment>): string
  {
    if segs == [] then ""
    else match segs[0]
      case Literal(t) => t + Written(segs[1..])
      case Typed(n, tag) => "{" + (n + ":" + tag) + "}" + Written(segs[1..])
  }

  /** Literals hold no '{'; names and tags hold no brace and no ':'. */
  predicate WellWritten(segs: seq<Segment>)
  {
    forall i :: 0 <= i < |segs| ==>
      match segs[i]
      case Literal(t) => '{' !in t
      case Typed(n, tag) => '{' !in n && '}' !in n && ':' !in n && '}' !in tag && ':' !in tag
  }

  /**
   * What extraction should produce for the rest of a written path, `done`
   * being the rewritten text before it: the first placeholder with an
   * unknown tag fails, every other one becomes "{name}" and records its
   * fragment.
   */
  function Expected(done: string, segs: seq<Segment>, regs: map<string, string>): Result<Extraction, CompileError>
    decreases |segs|
  {
    if segs == [] then Ok(Extraction(done, regs))
    else match segs[0]
      case Literal(t) => Expected(done + t, segs[1..], regs)
      case Typed(n, tag) =>
        if VarRegex(tag).None? then Err(BadVarType(n))
        else Expected(done + "{" + n + "}", segs[1..], regs[n := VarRegex(tag).value])
  }

  lemma {:induction false} ExtractRest(done: string, from: nat, segs: seq<Segment>, regs: map<string, string>)
    requires from <= |done| && forall k :: from <= k < |done| ==> done[k] != '{'
    requires WellWritten(segs)
    ensures ExtractFrom(done + Written(segs), from, regs) == Expected(done, segs, regs)
    decreases |segs|
  {
    if segs == [] {
      ExtractEnd(done, from, segs, regs);
    } else {
      WellWrittenTail(segs);
      match segs[0]
      case Literal(t) => {
        LiteralStep(done, t, Written(segs[1..]), segs);
        NoOpenAppend(done, from, t);
        ExtractRest(done + t, from, segs[1..], regs);
      }
      case Typed(n, tag) => {
        TypedTurn(done, from, segs, n, tag, regs);
        if VarRegex(tag).Some? {
          ExtractRest(done + "{" + n + "}", |done| + 1, segs[1..], regs[n := VarRegex(tag).value]);
        }
      }
    }
  }

  /** With no segment left, extraction finds no '{' and returns the text as it stands. */
  lemma ExtractEnd(done: string, from: nat, segs: seq<Segment>, regs: map<string, string>)
    requires from <= |done| && forall k :: from <= k < |done| ==> done[k] != '{'
    requires segs == []
    ensures ExtractFrom(done + Written(segs), from, regs) == Ok(Extraction(done, regs))
  {
    assert done + Written(segs) == done;
    FindSkipped(done, '{', from);
    StepNoOpen(done, from, regs);
    ExtractFromStep(done, from, regs);
  }

  /** One typed placeholder: extraction fails on an unknown tag, or rewrites it and goes on after its '{'. */
  lemma TypedTurn(done: string, from: nat, segs: seq<Segment>, n: string, tag: string, regs: map<string, string>)
    requires from <= |done| && forall k :: from <= k < |done| ==> done[k] != '{'
    requires segs != [] && segs[0] == Typed(n, tag)
    requires '{' !in n && '}' !in n && ':' !in n && '}' !in tag && ':' !in tag
    ensures VarRegex(tag).None? ==> ExtractFrom(done + Written(segs), from, regs) == Err(BadVarType(n))
    ensures VarRegex(tag).Some? ==>
              ExtractFrom(done + Written(segs), from, regs)
              == ExtractFrom(done + "{" + n + "}" + Written(segs[1..]), |done| + 1, regs[n := VarRegex(tag).value])
    ensures var done' := done + "{" + n + "}";
            forall k :: |done| + 1 <= k < |done'| ==> done'[k] != '{'
  {
    var rest := Written(segs[1..]);
    assert Written(segs) == "{" + (n + ":" + tag) + "}" + rest;
    TypedStep(done, from, n, tag, rest, regs);
    ExtractFromStep(done + Written(segs), from, regs);
  }

  lemma WellWrittenTail(segs: seq<Segment>)
    requires WellWritten(segs) && segs != []
    ensures WellWritten(segs[1..])
    ensures segs[0].Literal? ==> '{' !in segs[0].text
    ensures segs[0].Typed? ==> var n, tag := segs[0].name, segs[0].tag;
                               '{' !in n && '}' !in n && ':' !in n && '}' !in tag && ':' !in tag
  {
    forall i | 0 <= i < |segs| - 1 ensures segs[1..][i] == segs[i + 1] { }
  }

  lemma LiteralStep(done: string, t: string, rest: string, segs: seq<Segment>)
    requires segs != [] && segs[0] == Literal(t) && rest == Written(segs[1..])
    ensures done + Written(segs) == (done + t) + rest
  {
    assert Written(segs) == t + rest;
  }

  lemma NoOpenAppend(done: string, from: nat, t: string)
    requires from <= |done| && forall k :: from <= k < |done| ==> done[k] != '{'
    requires '{' !in t
    ensures forall k :: from <= k < |done + t| ==> (done + t)[k] != '{'
  {
    forall k | from <= k < |done + t| ensures (done + t)[k] != '{' {
      if k < |done| {
        assert (done + t)[k] == done[k];
      } else {
        assert (done + t)[k] == t[k - |done|];
      }
    }
  }

  /** One "{name:tag}" placeholder after text without '{'. */
  lemma TypedStep(done: string, from: nat, n: string, tag: string, rest: string, regs: map<string, string>)
    requires from <= |done| && forall k :: from <= k < |done| ==> done[k] != '{'
    requires '{' !in n && '}' !in n && ':' !in n && '}' !in tag && ':' !in tag
    ensures var p := done + ("{" + (n + ":" + tag) + "}" + rest);
            ExtractStep(p, from, regs)
            == if VarRegex(tag).None? then Done(Err(BadVarType(n)))
               else Next(done + "{" + n + "}" + rest, |done| + 1, regs[n := VarRegex(tag).value])
    ensures var done' := done + "{" + n + "}";
            forall k :: |done| + 1 <= k < |done'| ==> done'[k] != '{'
  {
    var mid := n + ":" + tag;
    var p := done + ("{" + mid + "}" + rest);
    var s, e := |done|, |done| + 1 + |mid|;
    assert '}' !in mid by { NoCharAppend3(n, ":", tag, '}'); }
    BracedLayout(done, from, mid, rest);
    ExplodeTag(p[s + 1..e], n, tag);
    BracedSplice(done, mid, rest, n);
    StepBraces(p, from, s, e, regs);
    if VarRegex(tag).None? {
      StepBadType(p, s, e, regs, [n, tag]);
    } else {
      StepRewrite(p, s, e, regs, [n, tag]);
    }
    NoOpenAppend(done + "{", |done| + 1, n + "}");
    AppendAssoc(done, "{", n + "}");
    AppendAssoc(done + "{", n, "}");
  }

  lemma NoCharAppend3(a: string, b: string, c: string, x: char)
    requires x !in a && x !in b && x !in c
    ensures x !in a + b + c
  {
  }

  /** "name:tag" explodes into the name and the tag. */
  lemma ExplodeTag(v: string, n: string, tag: string)
    requires v == n + ":" + tag && ':' !in n && ':' !in tag
    ensures Explode(v, ':') == [n, tag]
  {
    ExplodeTwo(n, tag, ':');
  }

  /** Replacing the text between the braces. */
  lemma BracedSplice(done: string, mid: string, rest: string, n: string)
    ensures var p := done + ("{" + mid + "}" + rest);
            |done| + 1 + |mid| <= |p| && Splice(p, |done| + 1, |mid|, n) == done + "{" + n + "}" + rest
  {
    var p := done + ("{" + mid + "}" + rest);
    assert p[..|done| + 1] == done + "{";
    assert p[|done| + 1 + |mid|..] == "}" + rest;
  }

  /**
   * Extraction of a written path: the first unknown or missing tag (a bare
   * "{name}" has none) is reported by name; otherwise each placeholder is
   * rewritten to "{name}" and its fragment recorded.
   */
  lemma ExtractWritten(segs: seq<Segment>)
    requires WellWritten(segs)
    ensures Extract(Written(segs)) == Expected("", segs, map[])
  {
    assert "" + Written(segs) == Written(segs);
    ExtractRest("", 0, segs, map[]);
  }

  // ---------------------------------------------------------------------------
  // The source's str_replace rewrites every occurrence of "name:tag"

  lemma {:induction false} ReplaceAllCopies(x: string, y: string, pat: string, rep: string)
    requires |pat| > 0 && forall k :: 0 <= k < |x| ==> x[k] != pat[0]
    ensures ReplaceAll(x + y, pat, rep) == x + ReplaceAll(y, pat, rep)
    decreases |x|
  {
    if x == [] {
      AppendNil(y);
      AppendNil(ReplaceAll(y, pat, rep));
    } else {
      TailAppend(x, y);
      if |x + y| < |pat| {
        ReplaceAllShort(x + y, pat, rep);
        ReplaceAllShort(y, pat, rep);
      } else {
        ReplaceAllSkip(x + y, pat, rep);
        ReplaceAllCopies(x[1..], y, pat, rep);
        ConsTail(x, ReplaceAll(y, pat, rep));
      }
    }
  }

  lemma ReplaceAllShort(s: string, pat: string, rep: string)
    requires 0 < |pat| && |s| < |pat|
    ensures ReplaceAll(s, pat, rep) == s
  {
  }

  lemma ReplaceAllSkip(s: string, pat: string, rep: string)
    requires 0 < |pat| <= |s| && s[0] != pat[0]
    ensures ReplaceAll(s, pat, rep) == [s[0]] + ReplaceAll(s[1..], pat, rep)
  {
    assert s[..|pat|][0] == s[0];
  }

  lemma ReplaceAllMatch(pat: string, y: string, rep: string)
    requires |pat| > 0
    ensures ReplaceAll(pat + y, pat, rep) == rep + ReplaceAll(y, pat, rep)
  {
    assert (pat + y)[..|pat|] == pat && (pat + y)[|pat|..] == y;
  }

  /** Where the braces of a "{...}" sit after text without '{'. */
  lemma BracedLayout(done: string, from: nat, mid: string, rest: string)
    requires from <= |done| && forall k :: from <= k < |done| ==> done[k] != '{'
    requires '}' !in mid
    ensures var p := done + ("{" + mid + "}" + rest);
            var s, e := |done|, |done| + 1 + |mid|;
            && e < |p|
            && Find(p, '{', from) == Some(s) && Find(p, '}', s + 1) == Some(e)
            && p[s + 1..e] == mid
  {
    var p := done + ("{" + mid + "}" + rest);
    var s, e := |done|, |done| + 1 + |mid|;
    assert p[s + 1..e] == mid;
    forall k | s + 1 <= k < e ensures p[k] != '}' {
      assert p[k] == mid[k - s - 1];
    }
    FindFirst(p, '{', from, s);
    FindFirst(p, '}', s + 1, e);
  }

  /** The ways the two-placeholder path below is cut up. */
  lemma SuffixPathShapes(n: string, x: string, tag: string)
    ensures var pat := n + ":" + tag;
            var p := "/{" + n + ":" + tag + "}/{" + x + n + ":" + tag + "}";
            && p == "/" + ("{" + pat + "}" + ("/{" + x + pat + "}"))
            && p == "/{" + (pat + ("}/{" + x + (pat + "}")))
  {
    var pat := n + ":" + tag;
    var p := "/{" + n + ":" + tag + "}/{" + x + n + ":" + tag + "}";
    assert p == "/{" + pat + "}/{" + x + pat + "}";
  }

  /** The second placeholder's text as rewritten. */
  lemma SuffixRewritten(n: string, x: string, tag: string)
    requires n != [] && tag != [] && n[0] != '/' && n[0] != '{' && n[0] != '}' && n[0] !in x
    ensures var pat := n + ":" + tag;
            ReplaceAll("/{" + (pat + ("}/{" + x + (pat + "}"))), pat, n) == "/{" + (n + ("}/{" + x + (n + "}")))
  {
    var pat := n + ":" + tag;
    ReplaceAllCopies("/{", pat + ("}/{" + x + (pat + "}")), pat, n);
    ReplaceAllMatch(pat, "}/{" + x + (pat + "}"), n);
    assert forall k :: 0 <= k < |"}/{" + x| ==> ("}/{" + x)[k] != pat[0] by {
      forall k | 0 <= k < |"}/{" + x| ensures ("}/{" + x)[k] != pat[0] {
        if k >= 3 { assert ("}/{" + x)[k] == x[k - 3]; }
      }
    }
    ReplaceAllCopies("}/{" + x, pat + "}", pat, n);
    ReplaceAllMatch(pat, "}", n);
  }

  /** First turn: "{n:tag}" is found and "n:tag" rewritten everywhere. */
  lemma SuffixFirstTurn(n: string, x: string, tag: string)
    requires n != [] && tag != []
    requires '}' !in n && ':' !in n && ':' !in tag && '}' !in tag
    requires n[0] != '/' && n[0] != '{' && n[0] != '}' && n[0] !in x
    requires VarRegex(tag).Some?
    ensures AsWrittenStep("/{" + n + ":" + tag + "}/{" + x + n + ":" + tag + "}", 0, map[])
            == Next("/{" + (n + ("}/{" + x + (n + "}"))), 2, map[][n := VarRegex(tag).value])
  {
    var pat := n + ":" + tag;
    var p := "/{" + n + ":" + tag + "}/{" + x + n + ":" + tag + "}";
    SuffixPathShapes(n, x, tag);
    BracedLayout("/", 0, pat, "/{" + x + pat + "}");
    SuffixRewritten(n, x, tag);
    AsWrittenTyped(p, 0, 1, 2 + |pat|, n, tag, "/{" + (n + ("}/{" + x + (n + "}"))), map[]);
  }

  /** A turn that finds "{n:tag}" with a registered tag rewrites "n:tag" to n everywhere. */
  lemma AsWrittenTyped(p: string, from: nat, s: nat, e: nat, n: string, tag: string, q: string, regs: map<string, string>)
    requires from <= |p| && Find(p, '{', from) == Some(s) && Find(p, '}', s + 1) == Some(e)
    requires p[s + 1..e] == n + ":" + tag && ':' !in n && ':' !in tag
    requires ReplaceAll(p, n + ":" + tag, n) == q && VarRegex(tag).Some?
    ensures AsWrittenStep(p, from, regs) == Next(q, s + 1, regs[n := VarRegex(tag).value])
  {
    AsWrittenBraces(p, from, s, e, regs);
    ExplodeTwo(n, tag, ':');
  }

  lemma AsWrittenBraces(p: string, from: nat, s: nat, e: nat, regs: map<string, string>)
    requires from <= |p| && Find(p, '{', from) == Some(s) && Find(p, '}', s + 1) == Some(e)
    ensures AsWrittenStep(p, from, regs) == AsWrittenTagStep(p, s, e, regs)
  {
  }

  /** Second turn: the rewritten "{xn}" has no type tag. */
  lemma SuffixSecondTurn(n: string, x: string, regs: map<string, string>)
    requires '{' !in n && '}' !in n && ':' !in n && '{' !in x && '}' !in x && ':' !in x
    ensures AsWrittenStep("/{" + (n + ("}/{" + x + (n + "}"))), 2, regs) == Done(Err(BadVarType(x + n)))
  {
    var q := "/{" + (n + ("}/{" + x + (n + "}")));
    var done2 := "/{" + n + "}/";
    SecondTurnLayout(n, x);
    BracedLayout(done2, 2, x + n, "");
    AsWrittenNoTag(q, 2, |done2|, |done2| + 1 + |x + n|, regs);
  }

  lemma SecondTurnLayout(n: string, x: string)
    requires '{' !in n && ':' !in n && ':' !in x
    ensures var done2 := "/{" + n + "}/";
            && "/{" + (n + ("}/{" + x + (n + "}"))) == done2 + ("{" + (x + n) + "}" + "")
            && (forall k :: 2 <= k < |done2| ==> done2[k] != '{')
            && ':' !in x + n
  {
    var done2 := "/{" + n + "}/";
    forall k | 2 <= k < |done2| ensures done2[k] != '{' {
      if k < 2 + |n| { assert done2[k] == n[k - 2]; }
    }
  }

  /**
   * A path with a placeholder "{n:tag}" followed by one whose name ends in
   * n, such as "/{id:num}/{uid:num}": rewriting "n:tag" everywhere also
   * turns the second placeholder into "{xn}", which the next turn rejects
   * for having no type tag.
   */
  lemma AsWrittenRejectsSuffixName(n: string, x: string, tag: string)
    requires n != [] && tag != []
    requires '{' !in n && '}' !in n && ':' !in n && '{' !in x && '}' !in x && ':' !in x && '}' !in tag && ':' !in tag
    requires n[0] != '/' && n[0] !in x
    requires VarRegex(tag).Some?
    ensures ExtractFromAsWritten("/{" + n + ":" + tag + "}/{" + x + n + ":" + tag + "}", 0, map[]) == Err(BadVarType(x + n))
  {
    SuffixFirstTurn(n, x, tag);
    SuffixSecondTurn(n, x, map[][n := VarRegex(tag).value]);
  }

  /** A turn that finds braces with no ':' between them fails with the text between as the name. */
  lemma AsWrittenNoTag(q: string, from: nat, s: nat, e: nat, regs: map<string, string>)
    requires from <= |q| && Find(q, '{', from) == Some(s) && Find(q, '}', s + 1) == Some(e)
    requires ':' !in q[s + 1..e]
    ensures AsWrittenStep(q, from, regs) == Done(Err(BadVarType(q[s + 1..e])))
  {
    var v := q[s + 1..e];
    AsWrittenBraces(q, from, s, e, regs);
    BeforeNoSep(v, [], ':');
    assert v + [] == v;
  }

  /** The written form of the two-placeholder path. */
  lemma SuffixSegments(n: string, x: string, tag: string)
    ensures var segs := [Literal("/"), Typed(n, tag), Literal("/"), Typed(x + n, tag)];
            Written(segs) == "/{" + n + ":" + tag + "}/{" + x + n + ":" + tag + "}"
  {
    var segs := [Literal("/"), Typed(n, tag), Literal("/"), Typed(x + n, tag)];
    assert segs[4..] == [];
    assert Written(segs[3..]) == "{" + ((x + n) + ":" + tag) + "}" + "";
    assert Written(segs[2..]) == "/" + Written(segs[3..]);
    assert Written(segs[1..]) == "{" + (n + ":" + tag) + "}" + Written(segs[2..]);
  }

  /**
   * The same kind of path extracted placeholder by placeholder: both
   * placeholders are rewritten and both names recorded.
   */
  lemma ExtractAcceptsSuffixName(n: string, x: string, tag: string)
    requires '{' !in n && '}' !in n && ':' !in n && '{' !in x && '}' !in x && ':' !in x && '}' !in tag && ':' !in tag
    requires VarRegex(tag).Some?
    ensures var f := VarRegex(tag).value;
            Extract("/{" + n + ":" + tag + "}/{" + x + n + ":" + tag + "}")
            == Ok(Extraction("/{" + n + "}/{" + x + n + "}", map[][n := f][x + n := f]))
  {
    var segs := [Literal("/"), Typed(n, tag), Literal("/"), Typed(x + n, tag)];
    assert WellWritten(segs);
    SuffixSegments(n, x, tag);
    ExtractWritten(segs);
    SuffixExpected(n, x, tag);
  }

  lemma SuffixExpected(n: string, x: string, tag: string)
    requires VarRegex(tag).Some?
    ensures var f := VarRegex(tag).value;
            var segs := [Literal("/"), Typed(n, tag), Literal("/"), Typed(x + n, tag)];
            Expected("", segs, map[]) == Ok(Extraction("/{" + n + "}/{" + x + n + "}", map[][n := f][x + n := f]))
  {
    var segs := [Literal("/"), Typed(n, tag), Literal("/"), Typed(x + n, tag)];
    var f := VarRegex(tag).value;
    var regs := map[][n := f][x + n := f];
    var final := "/{" + n + "}/" + "{" + (x + n) + "}";
    assert segs[4..] == [];
    SuffixStrings(n, x);
    assert Expected(final, segs[4..], regs) == Ok(Extraction(final, regs));
    assert Expected("/{" + n + "}/", segs[3..], map[][n := f]) == Ok(Extraction(final, regs));
    assert Expected("/{" + n + "}", segs[2..], map[][n := f]) == Ok(Extraction(final, regs));
  }

  lemma SuffixStrings(n: string, x: string)
    ensures "" + "/" == "/" && "/" + "{" + n + "}" == "/{" + n + "}" && "/{" + n + "}" + "/" == "/{" + n + "}/"
    ensures "/{" + n + "}/" + "{" + (x + n) + "}" == "/{" + n + "}/{" + x + n + "}"
  {
  }

  // ---------------------------------------------------------------------------
  // Tokens: which patterns compile, their variables, and the text they stand for

  /** The names of placeholders, in order. */
  function Names(phs: seq<Placeholder>): (ns: seq<string>)
    ensures |ns| == |phs| && forall i :: 0 <= i < |phs| ==> ns[i] == phs[i].name
  {
    if phs == [] then [] else [phs[0].name] + Names(phs[1..])
  }

  /** Every placeholder name is accepted: no leading digit, at most 32 bytes. */
  predicate AllValid(phs: seq<Placeholder>)
  {
    forall i :: 0 <= i < |phs| ==> ValidName(phs[i].name)
  }

  /** The pattern text a token stands for. */
  function TokenText(t: Token): string
  {
    match t
    case Text(text) => text
    case Variable(sep, _, name, important) => sep + PlaceholderText(important, name)
  }

  function Unparse(tokens: seq<Token>): string
  {
    if tokens == [] then "" else TokenText(tokens[0]) + Unparse(tokens[1..])
  }

  lemma {:induction false} UnparseAppend(a: seq<Token>, b: seq<Token>)
    ensures Unparse(a + b) == Unparse(a) + Unparse(b)
  {
    if a == [] {
      assert a + b == b;
    } else {
      assert (a + b)[1..] == a[1..] + b;
      UnparseAppend(a[1..], b);
    }
  }

  /** The tokens emitted for one placeholder spell the text before it and the placeholder. */
  lemma UnparseLead(pre: string, rx: string, name: string, important: bool)
    ensures Unparse(LeadTokens(pre) + [Variable(SepOf(pre), rx, name, important)]) == pre + PlaceholderText(important, name)
  {
    var v := Variable(SepOf(pre), rx, name, important);
    assert Unparse([v]) == TokenText(v) + Unparse([]);
    UnparseAppend(LeadTokens(pre), [v]);
    LeadText(pre);
  }

  /** The text token before a placeholder and the separator moved into the variable spell the text before it. */
  lemma LeadText(pre: string)
    ensures Unparse(LeadTokens(pre)) + SepOf(pre) == pre
  {
    if EndsWithSeparator(pre) {
      if |pre| > 1 {
        assert Unparse(LeadTokens(pre)) == TokenText(Text(pre[..|pre| - 1])) + Unparse([]);
      }
      assert pre == pre[..|pre| - 1] + [pre[|pre| - 1]];
    } else if pre != "" {
      assert Unparse(LeadTokens(pre)) == TokenText(Text(pre)) + Unparse([]);
    }
  }

  /** The names of the variable tokens, in order. */
  function VarNames(tokens: seq<Token>): seq<string>
  {
    if tokens == [] then []
    else (if tokens[0].Variable? then [tokens[0].name] else []) + VarNames(tokens[1..])
  }

  lemma {:induction false} VarNamesAppend(a: seq<Token>, b: seq<Token>)
    ensures VarNames(a + b) == VarNames(a) + VarNames(b)
  {
    if a == [] {
      assert a + b == b;
    } else {
      assert (a + b)[0] == a[0] && (a + b)[1..] == a[1..] + b;
      VarNamesAppend(a[1..], b);
    }
  }

  /** No duplicates after appending `a` exactly when `a` is new and the rest has none. */
  lemma NoDuplicatesStep(v: seq<string>, a: string, r: seq<string>)
    ensures v + ([a] + r) == (v + [a]) + r
    ensures NoDuplicates(v + ([a] + r)) ==> a !in v
  {
    var w := v + ([a] + r);
    if NoDuplicates(w) {
      forall i | 0 <= i < |v| ensures v[i] != a {
        assert w[i] == v[i] && w[|v|] == a;
      }
    }
  }

  lemma NamesSplit(phs: seq<Placeholder>, k: nat)
    requires k < |phs|
    ensures Names(phs[k..]) == [phs[k].name] + Names(phs[k + 1..])
  {
    assert phs[k..][1..] == phs[k + 1..];
  }

  /** The text between the cursor and the end, cut at the next placeholder. */
  lemma CursorSplit(p: string, phs: seq<Placeholder>, k: nat, pos: nat)
    requires Cursor(p, phs, k, pos) && k < |phs|
    ensures p[pos..] == p[pos..phs[k].start] + PlaceholderText(phs[k].important, phs[k].name) + p[phs[k].end..]
  {
    assert p[phs[k].start..phs[k].end] == PlaceholderText(phs[k].important, phs[k].name);
    assert p[pos..] == p[pos..phs[k].start] + p[phs[k].start..phs[k].end] + p[phs[k].end..];
  }

  /**
   * Tokenising from the k-th placeholder succeeds exactly when every
   * remaining name is valid and no name repeats; the variables then gain
   * the remaining names in order.
   */
  lemma {:induction false} TokenizeFromAccepts(p: string, regs: map<string, string>, phs: seq<Placeholder>, k: nat,
                                               pos: nat, tokens: seq<Token>, variables: seq<string>)
    requires Cursor(p, phs, k, pos) && NoDuplicates(variables)
    ensures var r := TokenizeFrom(p, regs, phs, k, pos, tokens, variables);
            && (r.Ok? <==> AllValid(phs[k..]) && NoDuplicates(variables + Names(phs[k..])))
            && (r.Ok? ==> r.value.variables == variables + Names(phs[k..]))
    decreases |phs| - k
  {
    if k == |phs| {
      TokenizeDone(p, regs, phs, pos, tokens, variables);
      assert phs[k..] == [] && variables + [] == variables;
    } else {
      var ph := phs[k];
      NamesSplit(phs, k);
      NoDuplicatesStep(variables, ph.name, Names(phs[k + 1..]));
      AllValidSplit(phs, k);
      if !IsDigit(ph.name[0]) && ph.name !in variables && |ph.name| <= VariableMaximumLength {
        var pre := p[pos..ph.start];
        var token := Variable(SepOf(pre), FragmentOf(p, regs, ph), ph.name, ph.important);
        TokenizeStep(p, regs, phs, k, pos, tokens, variables);
        NoDuplicatesSnoc(variables, ph.name);
        TokenizeFromAccepts(p, regs, phs, k + 1, ph.end, tokens + LeadTokens(pre) + [token], variables + [ph.name]);
      }
    }
  }

  /**
   * When tokenising from the k-th placeholder succeeds, the tokens are
   * extended, spell the rest of the pattern, and their variables are the
   * remaining placeholder names.
   */
  lemma {:induction false} TokenizeFromSpells(p: string, regs: map<string, string>, phs: seq<Placeholder>, k: nat,
                                              pos: nat, tokens: seq<Token>, variables: seq<string>)
    requires Cursor(p, phs, k, pos) && TokenizeFrom(p, regs, phs, k, pos, tokens, variables).Ok?
    ensures var ts := TokenizeFrom(p, regs, phs, k, pos, tokens, variables).value.tokens;
            && tokens <= ts
            && Unparse(ts) == Unparse(tokens) + p[pos..]
            && VarNames(ts) == VarNames(tokens) + Names(phs[k..])
    decreases |phs| - k
  {
    if k == |phs| {
      TokenizeDone(p, regs, phs, pos, tokens, variables);
      TrailingText(p, pos, tokens);
      assert phs[k..] == [];
    } else {
      var ph := phs[k];
      var pre := p[pos..ph.start];
      var token := Variable(SepOf(pre), FragmentOf(p, regs, ph), ph.name, ph.important);
      var tokens' := tokens + LeadTokens(pre) + [token];
      TokenizeStep(p, regs, phs, k, pos, tokens, variables);
      TokenizeFromSpells(p, regs, phs, k + 1, ph.end, tokens', variables + [ph.name]);
      NamesSplit(phs, k);
      PlaceholderTokens(p, phs, k, pos, tokens, FragmentOf(p, regs, ph));
      var ts := TokenizeFrom(p, regs, phs, k, pos, tokens, variables).value.tokens;
      SpellChain(tokens, tokens', ts, Unparse(tokens), Unparse(tokens'), Unparse(ts), p[pos..], p[ph.end..],
                 VarNames(tokens), VarNames(tokens'), VarNames(ts), ph.name, Names(phs[k + 1..]));
    }
  }

  /** Composing one placeholder's tokens with those of the rest of the pattern. */
  lemma SpellChain(t0: seq<Token>, t1: seq<Token>, t2: seq<Token>, u0: string, u1: string, u2: string,
                   text: string, rest: string, v0: seq<string>, v1: seq<string>, v2: seq<string>,
                   name: string, names: seq<string>)
    requires t0 <= t1 <= t2
    requires u1 + rest == u0 + text && u2 == u1 + rest
    requires v1 == v0 + [name] && v2 == v1 + names
    ensures t0 <= t2 && u2 == u0 + text && v2 == v0 + ([name] + names)
  {
  }

  /** The trailing text token, if any, spells the rest of the pattern and adds no variable. */
  lemma TrailingText(p: string, pos: nat, tokens: seq<Token>)
    requires pos <= |p|
    ensures var ts := tokens + (if pos < |p| then [Text(p[pos..])] else []);
            && tokens <= ts && Unparse(ts) == Unparse(tokens) + p[pos..] && VarNames(ts) == VarNames(tokens)
  {
    var tail := if pos < |p| then [Text(p[pos..])] else [];
    UnparseAppend(tokens, tail);
    VarNamesAppend(tokens, tail);
    if pos < |p| {
      assert Unparse(tail) == TokenText(Text(p[pos..])) + Unparse([]);
      assert VarNames(tail) == [] + VarNames([]);
    }
    assert tokens + [] == tokens;
  }

  /** The tokens of the k-th placeholder spell the text up to its end and add its name. */
  lemma PlaceholderTokens(p: string, phs: seq<Placeholder>, k: nat, pos: nat, tokens: seq<Token>, rx: string)
    requires Cursor(p, phs, k, pos) && k < |phs|
    ensures var pre := p[pos..phs[k].start];
            var ts := tokens + LeadTokens(pre) + [Variable(SepOf(pre), rx, phs[k].name, phs[k].important)];
            && tokens <= ts
            && Unparse(ts) + p[phs[k].end..] == Unparse(tokens) + p[pos..]
            && VarNames(ts) == VarNames(tokens) + [phs[k].name]
  {
    var pre := p[pos..phs[k].start];
    var token := Variable(SepOf(pre), rx, phs[k].name, phs[k].important);
    var lead := LeadTokens(pre) + [token];
    assert tokens + LeadTokens(pre) + [token] == tokens + lead;
    UnparseLead(pre, rx, phs[k].name, phs[k].important);
    CursorSplit(p, phs, k, pos);
    UnparseStep(tokens, lead, pre + PlaceholderText(phs[k].important, phs[k].name), p[phs[k].end..]);
    VarNamesLead(pre, token);
    VarNamesAppend(tokens, lead);
  }

  lemma UnparseStep(tokens: seq<Token>, lead: seq<Token>, text: string, rest: string)
    requires Unparse(lead) == text
    ensures Unparse(tokens + lead) + rest == Unparse(tokens) + (text + rest)
  {
    UnparseAppend(tokens, lead);
  }

  lemma AllValidSplit(phs: seq<Placeholder>, k: nat)
    requires k < |phs|
    ensures AllValid(phs[k..]) <==> ValidName(phs[k].name) && AllValid(phs[k + 1..])
  {
    if ValidName(phs[k].name) && AllValid(phs[k + 1..]) {
      forall i | 0 <= i < |phs[k..]| ensures ValidName(phs[k..][i].name) {
        if i > 0 { assert phs[k..][i] == phs[k + 1..][i - 1]; }
      }
    }
  }

  lemma VarNamesLead(pre: string, token: Token)
    requires token.Variable?
    ensures VarNames(LeadTokens(pre) + [token]) == [token.name]
  {
    VarNamesAppend(LeadTokens(pre), [token]);
    assert VarNames([token]) == [token.name] + VarNames([]);
  }

  /**
   * Tokenising a whole pattern succeeds exactly when every placeholder name
   * is valid and no name repeats; the variables are then the placeholder
   * names in order, and the tokens spell the pattern.
   */
  lemma TokenizeFacts(p: string, regs: map<string, string>)
    ensures var r := Tokenize(p, regs);
            var phs := Scan(p, 0);
            && (r.Ok? <==> AllValid(phs) && NoDuplicates(Names(phs)))
            && (r.Ok? ==> && r.value.variables == Names(phs)
                          && Unparse(r.value.tokens) == p
                          && VarNames(r.value.tokens) == Names(phs))
  {
    var phs := Scan(p, 0);
    assert Cursor(p, phs, 0, 0);
    DropNone(phs);
    DropNone(p);
    AppendNil(Names(phs));
    TokenizeFromAccepts(p, regs, phs, 0, 0, [], []);
    if Tokenize(p, regs).Ok? {
      TokenizeFromSpells(p, regs, phs, 0, 0, [], []);
      AppendNil(p);
    }
  }

  /** The pattern is empty exactly when it has no tokens. */
  lemma TokensEmpty(p: string, regs: map<string, string>)
    requires Tokenize(p, regs).Ok?
    ensures Tokenize(p, regs).value.tokens == [] <==> p == ""
  {
    TokenizeFacts(p, regs);
    if p == "" {
      TokenizeDone(p, regs, [], 0, [], []);
    }
  }

  /**
   * compilePattern succeeds exactly when the pattern is not empty, every
   * placeholder name is valid and no name repeats; the path variables are
   * the placeholder names, left to right.
   */
  lemma CompiledFacts(p: string, regs: map<string, string>)
    ensures var r := Compiled(p, regs);
            var phs := Scan(p, 0);
            && (r.Ok? <==> p != "" && AllValid(phs) && NoDuplicates(Names(phs)))
            && (r.Ok? ==> r.value.pathVariables == Names(phs))
  {
    TokenizeFacts(p, regs);
    if Tokenize(p, regs).Ok? {
      TokensEmpty(p, regs);
    }
  }

  /** The static prefix is a prefix of the text the tokens spell. */
  lemma StaticPrefixLeads(tokens: seq<Token>)
    requires tokens != []
    ensures StaticPrefix(tokens) <= Unparse(tokens)
  {
    var t := tokens[0];
    assert Unparse(tokens) == TokenText(t) + Unparse(tokens[1..]);
    if t.Text? && |tokens| > 1 {
      var u := tokens[1];
      assert Unparse(tokens[1..]) == TokenText(u) + Unparse(tokens[2..]);
      assert Field1(u) <= TokenText(u);
      PrefixConcat(t.text, Field1(u), TokenText(u) + Unparse(tokens[2..]));
    } else if t.Variable? {
      assert t.sep <= TokenText(t);
    }
  }

  lemma PrefixConcat(a: string, b: string, c: string)
    requires b <= c
    ensures a + b <= a + c
  {
  }

  /**
   * A compiled route's static prefix is a prefix of its path; with no
   * variable it is the whole path.
   */
  lemma CompiledStaticPrefix(p: string, regs: map<string, string>)
    requires Compiled(p, regs).Ok?
    ensures Compiled(p, regs).value.staticPrefix <= p
    ensures Compiled(p, regs).value.pathVariables == [] ==> Compiled(p, regs).value.staticPrefix == p
  {
    var t := Tokenize(p, regs).value;
    TokenizeFacts(p, regs);
    StaticPrefixLeads(t.tokens);
    if t.variables == [] {
      var phs := Scan(p, 0);
      assert |phs| == 0;
      TokenizeDone(p, regs, phs, 0, [], []);
      assert t.tokens == [Text(p[0..])];
    }
  }
}
