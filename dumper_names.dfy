/**
 * The variable names the dumper reads back out of a compiled route: the
 * `?P<name>` groups of the regex body, removed left to right, are exactly
 * the route's path variables in order. Literal text is quoted, so no "?P<"
 * can appear in it; separators and fragments have no '?' at all; a name is
 * word bytes only, so it ends at the first '>'.
 */
module DumperNames {
  import opened Common
  import opened RoutesCompiler
  import opened CompilerProperties
  import opened RoutesDumper
  import opened DumperTree
  import opened DumperChunks

  /** Every fragment of the name-to-fragment map comes from the type registry, as extraction installs them. */
  predicate RegistryRegs(regs: map<string, string>)
  {
    forall n :: n in regs ==> regs[n] in Registry.Values
  }

  /** The variable tokens compilePattern builds: a separator or nothing, a word name, a fragment without group bytes. */
  predicate WellFormedTokens(tokens: seq<Token>)
  {
    forall k :: 0 <= k < |tokens| && tokens[k].Variable? ==>
      && (tokens[k].sep == "" || (|tokens[k].sep| == 1 && tokens[k].sep[0] in Separators))
      && IsName(tokens[k].name)
      && PlainFragment(tokens[k].regex)
  }

  lemma WellFormedTail(tokens: seq<Token>)
    requires tokens != [] && WellFormedTokens(tokens)
    ensures WellFormedTokens(tokens[1..])
  {
    forall k | 0 <= k < |tokens[1..]| && tokens[1..][k].Variable?
      ensures (tokens[1..][k].sep == "" || (|tokens[1..][k].sep| == 1 && tokens[1..][k].sep[0] in Separators))
              && IsName(tokens[1..][k].name) && PlainFragment(tokens[1..][k].regex)
    {
      assert tokens[1..][k] == tokens[k + 1];
    }
  }

  /** A '<' in `s` always comes right after a backslash. */
  predicate LtEscaped(s: string)
  {
    forall k :: 0 <= k < |s| && s[k] == '<' ==> 0 < k && s[k - 1] == '\\'
  }

  /** Neither of the first two bytes of `s` can complete a "?P<" begun before it. */
  predicate SafeHead(s: string)
  {
    && (|s| > 0 ==> s[0] != '<')
    && (|s| > 1 && s[1] == '<' ==> s[0] == '\\')
  }

  // ---------------------------------------------------------------------------
  // Quoted text holds no group opener

  lemma {:induction false} QuoteLtEscaped(x: string)
    ensures LtEscaped(Quote(x))
    ensures |Quote(x)| > 0 ==> Quote(x)[0] != '<'
    decreases |x|
  {
    if x != [] {
      var a, b := QuoteChar(x[0]), Quote(x[1..]);
      QuoteLtEscaped(x[1..]);
      assert Quote(x) == a + b;
      assert a[0] != '<';
      forall k | 0 <= k < |a + b| && (a + b)[k] == '<'
        ensures 0 < k && (a + b)[k - 1] == '\\'
      {
        if k < |a| {
          assert a == ['\\', x[0]] && k == 1;
        } else {
          assert b[k - |a|] == '<';
          assert k - |a| > 0;
          assert (a + b)[k - 1] == b[k - |a| - 1];
        }
      }
    }
  }

  /** The regex of any well-formed token list starts safely. */
  lemma {:induction false} RegexBodySafeHead(tokens: seq<Token>)
    requires WellFormedTokens(tokens)
    ensures SafeHead(RegexBody(tokens))
    decreases |tokens|
  {
    if tokens != [] {
      var t, rest := tokens[0], RegexBody(tokens[1..]);
      WellFormedTail(tokens);
      RegexBodySafeHead(tokens[1..]);
      assert RegexBody(tokens) == TokenRegex(t) + rest;
      match t
      case Text(x) =>
        var q := Quote(x);
        QuoteLtEscaped(x);
        if |q| == 1 {
          assert (q + rest)[1..] == rest;
        } else if |q| > 1 {
          assert (q + rest)[0] == q[0] && (q + rest)[1] == q[1];
        }
      case Variable(sep, rx, name, imp) =>
        var q := Quote(sep);
        if sep == "" {
          assert q == "";
        } else {
          assert sep == [sep[0]];
          QuoteSeparator(sep[0]);
        }
    }
  }

  // ---------------------------------------------------------------------------
  // Stripping names, position by position

  /** `[^>]++>` from j ends at the first '>'. */
  lemma {:induction false} NameEndAt(s: string, j: nat, e: nat)
    requires j < e < |s| && s[e] == '>' && forall l :: j <= l < e ==> s[l] != '>'
    ensures NameEnd(s, j) == Some(e)
    decreases e - j
  {
    if j + 1 < e {
      NameEndAt(s, j + 1, e);
    }
  }

  /** Positions where no "?P<name>" starts are copied and add no name. */
  lemma {:induction false} StripSkip(s: string, i: nat, j: nat)
    requires i <= j <= |s| && forall k :: i <= k < j ==> NameAt(s, k).None?
    ensures StripFrom(s, i).names == StripFrom(s, j).names
    decreases j - i
  {
    if i < j {
      StripSkip(s, i + 1, j);
    }
  }

  /** A stretch without '?' holds no group name. */
  lemma {:induction false} NoQuestion(s: string, i: nat, j: nat)
    requires i <= j <= |s| && forall k :: i <= k < j ==> s[k] != '?'
    ensures forall k :: i <= k < j ==> NameAt(s, k).None?
  {
  }

  /** A word byte is never '>'. */
  lemma WordNotGt(name: string)
    requires IsName(name)
    ensures forall l :: 0 <= l < |name| ==> name[l] != '>'
  {
  }

  /** A piece of `s` laid out as `a + b` splits into `a` then `b`. */
  lemma {:induction false} Split(s: string, o: nat, a: string, b: string)
    requires o + |a + b| <= |s| && s[o..o + |a + b|] == a + b
    ensures s[o..o + |a|] == a && s[o + |a|..o + |a| + |b|] == b
  {
    assert s[o..o + |a|] == s[o..o + |a + b|][..|a|];
    assert s[o + |a|..o + |a| + |b|] == s[o..o + |a + b|][|a|..];
  }

  /** Bytes without '?' start no group name and add no name. */
  lemma {:induction false} NoNameIn(s: string, i: nat, w: string, j: nat)
    requires j == i + |w| <= |s| && s[i..j] == w && forall k :: 0 <= k < |w| ==> w[k] != '?'
    ensures StripFrom(s, i).names == StripFrom(s, j).names
  {
    forall k | i <= k < j
      ensures s[k] != '?'
    {
      assert s[k] == w[k - i];
    }
    NoQuestion(s, i, j);
    StripSkip(s, i, j);
  }

  /** "?P<name>" with a word name is stripped as one group. */
  lemma {:induction false} GroupAt(s: string, i: nat, name: string, j: nat)
    requires IsName(name)
    requires j == i + |name| + 4 <= |s| && s[i..j] == "?P<" + name + ">"
    ensures StripFrom(s, i).names == [name] + StripFrom(s, j).names
  {
    var w := "?P<" + name + ">";
    var e := i + 3 + |name|;
    assert forall l :: 0 <= l < |w| ==> s[i + l] == w[l];
    assert s[i] == '?' && s[i + 1] == 'P' && s[i + 2] == '<';
    WordNotGt(name);
    assert forall l :: i + 3 <= l < e ==> s[l] == w[l - i] == name[l - i - 3];
    assert s[e] == w[|w| - 1] == '>';
    NameEndAt(s, i + 3, e);
    assert s[i + 3..e] == name;
  }

  /** A text token's quoted bytes start no group name, whatever well-formed tokens follow. */
  lemma {:induction false} TextNoName(s: string, o: nat, x: string, e: nat)
    requires e == o + |Quote(x)| <= |s| && s[o..e] == Quote(x) && SafeHead(s[e..])
    ensures StripFrom(s, o).names == StripFrom(s, e).names
  {
    var q := Quote(x);
    QuoteLtEscaped(x);
    forall k | o <= k < e
      ensures NameAt(s, k).None?
    {
      if k + 2 < e {
        assert s[k + 1] == q[k + 1 - o] && s[k + 2] == q[k + 2 - o];
      } else if k + 2 == e && e < |s| {
        assert s[e..][0] == s[e];
      } else if k + 1 == e && e + 1 < |s| {
        assert s[e..][0] == s[e] && s[e..][1] == s[e + 1];
      }
    }
    StripSkip(s, o, e);
  }

  /** A variable token contributes its own name and nothing else. */
  lemma {:induction false} VariableName(s: string, o: nat, sep: string, rx: string, name: string, imp: bool, end: nat)
    requires sep == "" || (|sep| == 1 && sep[0] in Separators)
    requires IsName(name) && PlainFragment(rx)
    requires end == o + |TokenRegex(Variable(sep, rx, name, imp))| <= |s|
    requires s[o..end] == TokenRegex(Variable(sep, rx, name, imp))
    ensures StripFrom(s, o).names == [name] + StripFrom(s, end).names
  {
    var q := Quote(sep);
    if sep != "" {
      assert sep == [sep[0]];
      QuoteSeparator(sep[0]);
    }
    var a, c := q + "(", rx + ")";
    assert forall k :: 0 <= k < |a| ==> a[k] != '?';
    assert forall k :: 0 <= k < |c| ==> c[k] != '?';
    assert "(?P<" == "(" + "?P<";
    calc {
      TokenRegex(Variable(sep, rx, name, imp));
      q + "(?P<" + name + ">" + rx + ")";
      a + ("?P<" + name + ">") + c;
    }
    GroupLayout(s, o, a, name, c, end);
  }

  /** Bytes without '?', one "?P<name>" group, bytes without '?': exactly that one name. */
  lemma {:induction false} GroupLayout(s: string, o: nat, a: string, name: string, c: string, end: nat)
    requires IsName(name) && (forall k :: 0 <= k < |a| ==> a[k] != '?') && (forall k :: 0 <= k < |c| ==> c[k] != '?')
    requires end == o + |a + ("?P<" + name + ">") + c| <= |s| && s[o..end] == a + ("?P<" + name + ">") + c
    ensures StripFrom(s, o).names == [name] + StripFrom(s, end).names
  {
    var b := "?P<" + name + ">";
    var i, e := o + |a|, o + |a| + |b|;
    assert |b| == |name| + 4 && |a + b| == |a| + |b| && |a + b + c| == |a + b| + |c|;
    Split(s, o, a + b, c);
    Split(s, o, a, b);
    NoNameIn(s, o, a, i);
    GroupAt(s, i, name, e);
    NoNameIn(s, e, c, end);
  }

  /** The names stripped from the regex of well-formed tokens are their variable names, in order. */
  lemma {:induction false} StripTokens(s: string, o: nat, tokens: seq<Token>)
    requires WellFormedTokens(tokens) && o <= |s| && s[o..] == RegexBody(tokens)
    ensures StripFrom(s, o).names == VarNames(tokens)
    decreases |tokens|
  {
    if tokens == [] {
      assert o == |s|;
    } else {
      var t := tokens[0];
      var r := TokenRegex(t);
      var end := o + |r|;
      var b := RegexBody(tokens[1..]);
      assert s[o..o + |r + b|] == r + b;
      Split(s, o, r, b);
      assert s[end..] == b;
      WellFormedTail(tokens);
      StripTokens(s, end, tokens[1..]);
      match t
      case Text(x) =>
        RegexBodySafeHead(tokens[1..]);
        TextNoName(s, o, x, end);
      case Variable(sep, rx, name, imp) =>
        VariableName(s, o, sep, rx, name, imp, end);
    }
  }

  // ---------------------------------------------------------------------------
  // The tokens compilePattern builds are well formed

  /** A variable's regex has no group byte: a registered fragment, or the default class. */
  lemma FragmentPlain(p: string, regs: map<string, string>, ph: Placeholder)
    requires ph.end <= |p| && RegistryRegs(regs)
    ensures PlainFragment(FragmentOf(p, regs, ph))
  {
    if ph.name in regs {
      var tag :| tag in Registry && Registry[tag] == regs[ph.name];
      RegistryFragmentsPlain(tag);
    } else {
      ExcludingClassPlain(FindNextSeparator(p[ph.end..]), Possessive(p[ph.end..]));
    }
  }

  lemma {:induction false} TokenizeFromWellFormed(p: string, regs: map<string, string>, phs: seq<Placeholder>, k: nat,
                                                  pos: nat, tokens: seq<Token>, variables: seq<string>)
    requires RoutesCompiler.Cursor(p, phs, k, pos) && WellFormedTokens(tokens) && RegistryRegs(regs)
    ensures var r := TokenizeFrom(p, regs, phs, k, pos, tokens, variables);
            r.Ok? ==> WellFormedTokens(r.value.tokens)
    decreases |phs| - k
  {
    if k < |phs| {
      var ph := phs[k];
      var pre := p[pos..ph.start];
      if !IsDigit(ph.name[0]) && ph.name !in variables && |ph.name| <= VariableMaximumLength {
        var token := Variable(SepOf(pre), FragmentOf(p, regs, ph), ph.name, ph.important);
        FragmentPlain(p, regs, ph);
        var tokens' := tokens + LeadTokens(pre) + [token];
        assert WellFormedTokens(tokens') by {
          forall j | 0 <= j < |tokens'| && tokens'[j].Variable?
            ensures (tokens'[j].sep == "" || (|tokens'[j].sep| == 1 && tokens'[j].sep[0] in Separators))
                    && IsName(tokens'[j].name) && PlainFragment(tokens'[j].regex)
          {
            if j < |tokens| {
              assert tokens'[j] == tokens[j];
            } else if j >= |tokens| + |LeadTokens(pre)| {
              assert tokens'[j] == token;
            }
          }
        }
        TokenizeStep(p, regs, phs, k, pos, tokens, variables);
        TokenizeFromWellFormed(p, regs, phs, k + 1, ph.end, tokens', variables + [ph.name]);
      }
    } else {
      var tokens' := tokens + (if pos < |p| then [Text(p[pos..])] else []);
      assert forall j :: |tokens| <= j < |tokens'| ==> tokens'[j].Text?;
      assert forall j :: 0 <= j < |tokens| ==> tokens'[j] == tokens[j];
    }
  }

  // ---------------------------------------------------------------------------
  // The link between the compiler and the dumper

  /**
   * The named groups of a compiled regex, stripped by the dumper from the
   * body between "{^" and "$}sD", are the route's path variables in order.
   */
  lemma {:induction false} CompiledGroupNames(p: string, regs: map<string, string>)
    requires RegistryRegs(regs) && Compiled(p, regs).Ok?
    ensures StripNames(BodyOf(Compiled(p, regs).value.regex)).names == Compiled(p, regs).value.pathVariables
  {
    var phs := Scan(p, 0);
    assert RoutesCompiler.Cursor(p, phs, 0, 0);
    TokenizeFromWellFormed(p, regs, phs, 0, 0, [], []);
    TokenizeFacts(p, regs);
    var t := Tokenize(p, regs).value;
    var b := RegexBody(t.tokens);
    assert Compiled(p, regs).value.regex == Anchored(b);
    assert BodyOf(Anchored(b)) == b;
    assert b[0..] == b;
    StripTokens(b, 0, t.tokens);
  }

  /** A route the dumper reads was compiled by the route compiler from its own path. */
  predicate CompiledFrom(r: RouteInfo, regs: map<string, string>)
  {
    RegistryRegs(regs) && Compiled(r.path, regs) == Ok(r.compiled)
  }

  /** The leaf of such a route carries its path variables. */
  lemma {:induction false} LeafVars(r: RouteInfo, regs: map<string, string>)
    requires CompiledFrom(r, regs)
    ensures LeafOf(r).vars == r.compiled.pathVariables
  {
    CompiledGroupNames(r.path, regs);
  }

  /**
   * The route lists the dumper stores for routes the compiler produced: each
   * is compileRoute of the route with its path variables as the variable list.
   */
  lemma EntriesCarryPathVariables(rs: seq<RouteInfo>, regsOf: seq<map<string, string>>)
    requires |regsOf| == |rs| && forall k :: 0 <= k < |rs| ==> CompiledFrom(rs[k], regsOf[k])
    ensures forall k :: 0 <= k < |rs| ==>
              Entries(LeavesOf(rs))[k] == Some(EntryOf(rs[k], Some(rs[k].compiled.pathVariables)))
  {
    forall k | 0 <= k < |rs|
      ensures Entries(LeavesOf(rs))[k] == Some(EntryOf(rs[k], Some(rs[k].compiled.pathVariables)))
    {
      LeafVars(rs[k], regsOf[k]);
    }
  }

  /**
   * compileDynamicRoutes for compiled routes: the k-th list reached through
   * the marks holds the k-th route with its path variables, and one null
   * follows the last.
   */
  lemma DynamicEntriesVars(collection: seq<RouteInfo>, regsOf: seq<map<string, string>>, chunkLimit: int,
                           build: seq<Item> -> seq<Item>, tooLarge: string -> bool)
    requires BuildsTree(build) && collection != [] && DynamicRoutes(collection, chunkLimit, build, tooLarge).Ok?
    requires |regsOf| == |collection| && forall k :: 0 <= k < |collection| ==> CompiledFrom(collection[k], regsOf[k])
    ensures var d := DynamicRoutes(collection, chunkLimit, build, tooLarge).value;
            var st := Stored(d.routes, AllAlts(d.chunks));
            && |st| == |collection| + 1 && st[|collection|] == None
            && forall k :: 0 <= k < |collection| ==>
                 st[k] == Some(EntryOf(collection[k], Some(collection[k].compiled.pathVariables)))
  {
    DynamicStores(collection, chunkLimit, build, tooLarge);
    EntriesCarryPathVariables(collection, regsOf);
  }
}
