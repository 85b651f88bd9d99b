/**
 * The route pattern compiler (RoutesCompiler and the CompiledRoute record).
 *
 * A route path such as "/user/{id:num}" is compiled in two passes:
 *  1. extraction rewrites every "{name:type}" into "{name}" and records the
 *     regex fragment of the type tag, taken from a closed registry;
 *  2. compilation scans the rewritten path for "{name}" / "{!name}"
 *     placeholders, cuts it into text and variable tokens, and emits an
 *     anchored regex, the static prefix and the ordered variable names.
 */
module RoutesCompiler {
  import opened Common

  /** Characters that, directly in front of a placeholder, move into its variable token. */
  const Separators: string := "/,;.:-_~+*=@|"

  /** Longest accepted variable name (the PCRE subpattern-name limit). */
  const VariableMaximumLength: nat := 32

  /** The closed registry of placeholder types: tag to regex fragment. */
  const Registry: map<string, string> := map[
    "slug" := "[a-z0-9\\-]+", "hex" := "[a-f0-9]+", "alpha" := "[a-z0-9]+", "letters" := "[a-z]+",
    "num" := "[0-9]+", "any" := "[^\\/]+", "all" := ".*"]

  /** The fragment registered for a type tag. */
  function VarRegex(tag: string): Option<string>
  {
    if tag in Registry then Some(Registry[tag]) else None
  }

  /** A regex fragment of the registry. */
  ghost predicate IsFragment(f: string)
  {
    exists tag :: VarRegex(tag) == Some(f)
  }

  /** Why a pattern does not compile (the exception the source raises). */
  datatype CompileError =
    | BadVarType(name: string)        // LogicException: missing or unknown type tag
    | DigitLeadingName(name: string)  // DomainException: name starts with a digit
    | DuplicateName(name: string)     // LogicException: name used twice
    | NameTooLong(name: string)       // DomainException: name longer than 32 bytes
    | OffsetOutOfRange                // ValueError: strpos offset past the end
    | EmptyPattern                    // TypeError: an empty path has no first token

  // ---------------------------------------------------------------------------
  // preg_quote without a delimiter

  predicate IsMeta(c: char)
  {
    c in ".\\+*?[^]$(){}=!<>|:-#"
  }

  function QuoteChar(c: char): (r: string)
    ensures 1 <= |r| && (r[0] == c || r[0] == '\\')
  {
    if c == '\0' then "\\000" else if IsMeta(c) then ['\\', c] else [c]
  }

  function Quote(s: string): (r: string)
    ensures |r| >= |s|
    ensures s != [] ==> r != [] && (r[0] == s[0] || r[0] == '\\')
  {
    if s == [] then [] else QuoteChar(s[0]) + Quote(s[1..])
  }

  // ---------------------------------------------------------------------------
  // Pass 1: type-tag extraction

  /** The rewritten path and the name-to-fragment map (a PHP array, insertion ordered). */
  datatype Extraction = Extraction(path: string, varsRegex: map<string, string>)

  /** Where the extraction loop goes from one search position: a final result, or the next state. */
  datatype ExtractState =
    | Done(result: Result<Extraction, CompileError>)
    | Next(path: string, from: nat, regs: map<string, string>)

  /**
   * One turn of the extraction loop at search position `from`: find the next
   * '{', then the next '}' after it, and rewrite the text between.
   */
  function ExtractStep(p: string, from: nat, regs: map<string, string>): (st: ExtractState)
    requires from <= |p|
    ensures st.Next? ==> st.from <= |st.path| && |st.path| - st.from < |p| - from
  {
    match Find(p, '{', from)
    case None => Done(Ok(Extraction(p, regs)))
    case Some(s) =>
      match Find(p, '}', s + 1)
      case None => Next(p, s + 1, regs)
      case Some(e) => TagStep(p, s, e, regs)
  }

  /**
   * The braces at `s` and `e` enclose "name:tag": the tag must be registered,
   * and the text is rewritten to "name" in place.
   */
  function TagStep(p: string, s: nat, e: nat, regs: map<string, string>): (st: ExtractState)
    requires s < e <= |p|
    ensures st.Next? ==> st.from == s + 1 && |st.path| <= |p|
  {
    var args := Explode(p[s + 1..e], ':');
    if |args| < 2 || VarRegex(args[1]).None? then Done(Err(BadVarType(args[0])))
    else Next(Splice(p, s + 1, e - (s + 1), args[0]), s + 1, regs[args[0] := VarRegex(args[1]).value])
  }

  /** The extraction loop from the search position `from` on. */
  function ExtractFrom(p: string, from: nat, regs: map<string, string>): Result<Extraction, CompileError>
    requires from <= |p|
    decreases |p| - from
  {
    match ExtractStep(p, from, regs)
    case Done(r) => r
    case Next(q, f, r) => ExtractFrom(q, f, r)
  }

  // The outcomes of one turn, stated apart so that the loop below can name them.

  lemma StepNoOpen(p: string, from: nat, regs: map<string, string>)
    requires from <= |p| && Find(p, '{', from).None?
    ensures ExtractStep(p, from, regs) == Done(Ok(Extraction(p, regs)))
  {
  }

  lemma StepNoClose(p: string, from: nat, s: nat, regs: map<string, string>)
    requires from <= |p| && Find(p, '{', from) == Some(s) && Find(p, '}', s + 1).None?
    ensures ExtractStep(p, from, regs) == Next(p, s + 1, regs)
  {
  }

  lemma StepBraces(p: string, from: nat, s: nat, e: nat, regs: map<string, string>)
    requires from <= |p| && Find(p, '{', from) == Some(s) && Find(p, '}', s + 1) == Some(e)
    ensures ExtractStep(p, from, regs) == TagStep(p, s, e, regs)
  {
  }

  lemma StepRewrite(p: string, s: nat, e: nat, regs: map<string, string>, args: seq<string>)
    requires s < e <= |p| && args == Explode(p[s + 1..e], ':') && |args| >= 2 && VarRegex(args[1]).Some?
    ensures TagStep(p, s, e, regs)
            == Next(Splice(p, s + 1, e - (s + 1), args[0]), s + 1, regs[args[0] := VarRegex(args[1]).value])
  {
  }

  lemma StepBadType(p: string, s: nat, e: nat, regs: map<string, string>, args: seq<string>)
    requires s < e <= |p| && args == Explode(p[s + 1..e], ':') && (|args| < 2 || VarRegex(args[1]).None?)
    ensures TagStep(p, s, e, regs) == Done(Err(BadVarType(args[0])))
  {
  }

  lemma ExtractFromStep(p: string, from: nat, regs: map<string, string>)
    requires from <= |p|
    ensures ExtractStep(p, from, regs).Done? ==> ExtractFrom(p, from, regs) == ExtractStep(p, from, regs).result
    ensures ExtractStep(p, from, regs).Next? ==>
              var st := ExtractStep(p, from, regs);
              ExtractFrom(p, from, regs) == ExtractFrom(st.path, st.from, st.regs)
  {
  }

  function Extract(p: string): Result<Extraction, CompileError>
  {
    ExtractFrom(p, 0, map[])
  }

  /**
   * One turn of the loop as the source writes it: the "name:tag" text is
   * replaced by "name" everywhere in the path (str_replace), not only at the
   * placeholder.
   */
  function AsWrittenStep(p: string, from: nat, regs: map<string, string>): (st: ExtractState)
    requires from <= |p|
    ensures st.Next? ==> |st.path| - st.from < |p| - from
  {
    match Find(p, '{', from)
    case None => Done(Ok(Extraction(p, regs)))
    case Some(s) =>
      match Find(p, '}', s + 1)
      case None => Next(p, s + 1, regs)
      case Some(e) => AsWrittenTagStep(p, s, e, regs)
  }

  function AsWrittenTagStep(p: string, s: nat, e: nat, regs: map<string, string>): (st: ExtractState)
    requires s < e <= |p|
    ensures st.Next? ==> st.from == s + 1 && |st.path| <= |p|
  {
    var v := p[s + 1..e];
    var args := Explode(v, ':');
    if |args| < 2 || VarRegex(args[1]).None? then Done(Err(BadVarType(args[0])))
    else Next(ReplaceAll(p, v, args[0]), s + 1, regs[args[0] := VarRegex(args[1]).value])
  }

  /** The loop as written; a search position past the end is PHP's strpos ValueError. */
  function ExtractFromAsWritten(p: string, from: nat, regs: map<string, string>): Result<Extraction, CompileError>
    decreases |p| + 1 - from
  {
    if from > |p| then Err(OffsetOutOfRange)
    else match AsWrittenStep(p, from, regs)
      case Done(r) => r
      case Next(q, f, r) => ExtractFromAsWritten(q, f, r)
  }

  // The loop from one search position, in each of its four outcomes.

  lemma ExtractFromNoOpen(p: string, from: nat, regs: map<string, string>)
    requires from <= |p| && Find(p, '{', from).None?
    ensures ExtractFrom(p, from, regs) == Ok(Extraction(p, regs))
  {
    ExtractFromStep(p, from, regs);
    StepNoOpen(p, from, regs);
  }

  lemma ExtractFromNoClose(p: string, from: nat, s: nat, regs: map<string, string>)
    requires from <= |p| && Find(p, '{', from) == Some(s) && Find(p, '}', s + 1).None?
    ensures s + 1 <= |p| && ExtractFrom(p, from, regs) == ExtractFrom(p, s + 1, regs)
  {
    ExtractFromStep(p, from, regs);
    StepNoClose(p, from, s, regs);
  }

  lemma ExtractFromBadType(p: string, from: nat, s: nat, e: nat, regs: map<string, string>, args: seq<string>)
    requires from <= |p| && Find(p, '{', from) == Some(s) && Find(p, '}', s + 1) == Some(e)
    requires s < e && args == Explode(p[s + 1..e], ':') && (|args| < 2 || VarRegex(args[1]).None?)
    ensures ExtractFrom(p, from, regs) == Err(BadVarType(args[0]))
  {
    ExtractFromStep(p, from, regs);
    StepBraces(p, from, s, e, regs);
    StepBadType(p, s, e, regs, args);
  }

  lemma ExtractFromRewrite(p: string, from: nat, s: nat, e: nat, regs: map<string, string>, args: seq<string>,
                            q: string, regs': map<string, string>)
    requires from <= |p| && Find(p, '{', from) == Some(s) && Find(p, '}', s + 1) == Some(e)
    requires s < e && args == Explode(p[s + 1..e], ':') && |args| >= 2 && VarRegex(args[1]).Some?
    requires q == Splice(p, s + 1, e - (s + 1), args[0]) && regs' == regs[args[0] := VarRegex(args[1]).value]
    ensures s < |q| && |q| - s < |p| + 1 - from
    ensures ExtractFrom(p, from, regs) == ExtractFrom(q, s + 1, regs')
  {
    ExtractFromStep(p, from, regs);
    StepBraces(p, from, s, e, regs);
    StepRewrite(p, s, e, regs, args);
  }

  /** Pass 1 as a loop over the path, rewriting it placeholder by placeholder. */
  method ExtractVarsRegex(pattern: string) returns (r: Result<Extraction, CompileError>)
    ensures r == Extract(pattern)
  {
    var p := pattern;
    var varsRegex: map<string, string> := map[];
    var start: int := -1;
    while true
      invariant -1 <= start < |p|
      invariant ExtractFrom(p, start + 1, varsRegex) == Extract(pattern)
      decreases |p| - start
    {
      var from := start + 1;
      var open := Find(p, '{', from);
      if open.None? {
        ExtractFromNoOpen(p, from, varsRegex);
        return Ok(Extraction(p, varsRegex));
      }
      start := open.value;
      var close := Find(p, '}', start + 1);
      if close.None? {
        ExtractFromNoClose(p, from, start, varsRegex);
        continue;
      }
      var v := p[start + 1..close.value];
      var args := Explode(v, ':');
      if |args| < 2 || VarRegex(args[1]).None? {
        ExtractFromBadType(p, from, start, close.value, varsRegex, args);
        return Err(BadVarType(args[0]));
      }
      var p' := Splice(p, start + 1, close.value - (start + 1), args[0]);
      var varsRegex' := varsRegex[args[0] := VarRegex(args[1]).value];
      ExtractFromRewrite(p, from, start, close.value, varsRegex, args, p', varsRegex');
      p, varsRegex := p', varsRegex';
    }
  }

  // ---------------------------------------------------------------------------
  // Pass 2: placeholders "{name}" and "{!name}"

  /** A byte of `[\w\x80-\xFF]`. */
  predicate IsWord(c: char)
  {
    IsDigit(c) || IsUpper(c) || IsLower(c) || c == '_' || 0x80 <= c as int <= 0xFF
  }

  /** Length of the longest run of word bytes starting at `j`. */
  function WordRun(s: string, j: nat): (n: nat)
    requires j <= |s|
    ensures j + n <= |s|
    ensures forall k :: j <= k < j + n ==> IsWord(s[k])
    ensures j + n < |s| ==> !IsWord(s[j + n])
    decreases |s| - j
  {
    if j < |s| && IsWord(s[j]) then 1 + WordRun(s, j + 1) else 0
  }

  /** One match of `\{(!)?([\w\x80-\xFF]+)\}`: its span, the "!" flag and the name. */
  datatype Placeholder = Placeholder(start: nat, end: nat, important: bool, name: string)

  /** The text a placeholder spans. */
  function PlaceholderText(important: bool, name: string): string
  {
    "{" + (if important then "!" else "") + name + "}"
  }

  predicate IsName(name: string)
  {
    |name| > 0 && forall k :: 0 <= k < |name| ==> IsWord(name[k])
  }

  /** The placeholder starting exactly at `i`, if any. */
  function PlaceholderAt(s: string, i: nat): (r: Option<Placeholder>)
    requires i <= |s|
    ensures r.Some? ==> r.value.start == i < r.value.end <= |s| && IsName(r.value.name)
                        && s[i..r.value.end] == PlaceholderText(r.value.important, r.value.name)
  {
    if i < |s| && s[i] == '{' then
      var bang := i + 1 < |s| && s[i + 1] == '!';
      var j := if bang then i + 2 else i + 1;
      var n := WordRun(s, j);
      if n > 0 && j + n < |s| && s[j + n] == '}' then
        PlaceholderSpan(s, i, j, n, bang);
        Some(Placeholder(i, j + n + 1, bang, s[j..j + n]))
      else None
    else None
  }

  lemma PlaceholderSpan(s: string, i: nat, j: nat, n: nat, bang: bool)
    requires i < j <= j + n < |s| && s[i] == '{' && s[j + n] == '}'
    requires j == (if bang then i + 2 else i + 1) && (bang ==> s[i + 1] == '!')
    requires forall k :: j <= k < j + n ==> IsWord(s[k])
    ensures n > 0 ==> IsName(s[j..j + n])
    ensures s[i..j + n + 1] == PlaceholderText(bang, s[j..j + n])
  {
    assert s[i..j + n + 1] == s[i..j] + s[j..j + n] + [s[j + n]];
    assert s[i..j] == "{" + (if bang then "!" else "");
  }

  /** Placeholders found in `s` at or after `i`, in order and not overlapping. */
  predicate Placeholders(s: string, i: nat, phs: seq<Placeholder>)
  {
    && (forall a :: 0 <= a < |phs| ==> i <= phs[a].start < phs[a].end <= |s| && IsName(phs[a].name)
                                       && s[phs[a].start..phs[a].end] == PlaceholderText(phs[a].important, phs[a].name))
    && (forall a :: 0 <= a < |phs| - 1 ==> phs[a].end <= phs[a + 1].start)
  }

  /** preg_match_all of the placeholder pattern from `i` on: leftmost matches, left to right. */
  function Scan(s: string, i: nat): (r: seq<Placeholder>)
    requires i <= |s|
    ensures Placeholders(s, i, r)
    decreases |s| - i
  {
    if i == |s| then []
    else match PlaceholderAt(s, i)
      case Some(ph) => [ph] + Scan(s, ph.end)
      case None => Scan(s, i + 1)
  }

  /** Whether `s` starts with a plain "{name}" placeholder. */
  predicate StartsWithPlaceholder(s: string)
  {
    |s| > 0 && s[0] == '{' && !(|s| > 1 && s[1] == '!') && PlaceholderAt(s, 0).Some?
  }

  /** preg_replace of the plain placeholder pattern by '': one left-to-right pass. */
  function RemovePlaceholders(s: string): (r: string)
    ensures |r| <= |s|
    decreases |s|
  {
    if s == [] then []
    else if StartsWithPlaceholder(s) then RemovePlaceholders(s[PlaceholderAt(s, 0).value.end..])
    else [s[0]] + RemovePlaceholders(s[1..])
  }

  /** The static character after a variable, when it is a separator; '' otherwise. */
  function FindNextSeparator(following: string): (r: string)
    ensures r == "" || (|r| == 1 && r[0] in Separators)
  {
    if following == "" then ""
    else
      var rest := RemovePlaceholders(following);
      if rest == "" then "" else if rest[0] in Separators then [rest[0]] else ""
  }

  /** A separator is quoted as itself or behind a backslash, and is none of the bytes that open groups. */
  lemma QuoteSeparator(c: char)
    requires c in Separators
    ensures Quote([c]) == (if IsMeta(c) then ['\\', c] else [c])
    ensures c != '(' && c != '?' && c != '<' && c != '>' && c != '\\'
  {
    QuoteOne(c);
    SeparatorBytes(c);
  }

  lemma QuoteOne(c: char)
    ensures Quote([c]) == QuoteChar(c)
  {
    assert [c][1..] == [];
  }

  lemma SeparatorBytes(c: char)
    requires c in Separators
    ensures c != '\0' && c != '(' && c != '?' && c != '<' && c != '>' && c != '\\'
  {
  }

  /**
   * The character class of a variable with no registered regex: any bytes
   * except '/' and the separator `next` (when it is another one), possessive
   * or not.
   */
  function ExcludingClass(next: string, possessive: bool): string
  {
    "[^" + Quote("/") + Excluded(next) + "]+" + (if possessive then "+" else "")
  }

  /** The quoted separator excluded besides '/', if any. */
  function Excluded(next: string): string
  {
    if next != "/" && next != "" then Quote(next) else ""
  }

  /** A possessive quantifier is used when a separator (and not another placeholder) follows, or nothing does. */
  predicate Possessive(following: string)
  {
    (FindNextSeparator(following) != "" && !StartsWithPlaceholder(following)) || following == ""
  }

  /** The fragment of a variable with no registered regex. */
  function DefaultFragment(following: string): string
  {
    ExcludingClass(FindNextSeparator(following), Possessive(following))
  }

  /** A regex fragment with no byte that opens, names or quantifies a group. */
  predicate PlainFragment(f: string)
  {
    forall k :: 0 <= k < |f| ==> f[k] != '(' && f[k] != '?' && f[k] != '<' && f[k] != '>'
  }

  lemma PlainConcat(a: string, b: string)
    requires PlainFragment(a) && PlainFragment(b)
    ensures PlainFragment(a + b)
  {
    forall k | 0 <= k < |a + b| ensures (a + b)[k] != '(' && (a + b)[k] != '?' && (a + b)[k] != '<' && (a + b)[k] != '>' {
      if k < |a| { assert (a + b)[k] == a[k]; } else { assert (a + b)[k] == b[k - |a|]; }
    }
  }

  lemma QuoteSlash()
    ensures Quote("/") == "/"
  {
    assert !IsMeta('/');
    assert ['/'][1..] == [];
  }

  lemma ExcludedPlain(next: string)
    requires next == "" || (|next| == 1 && next[0] in Separators)
    ensures PlainFragment(Excluded(next))
  {
    if next != "/" && next != "" {
      QuoteSeparator(next[0]);
      assert next == [next[0]];
    }
  }

  /** The default class has no byte that opens, names or quantifies a group. */
  lemma ExcludingClassPlain(next: string, possessive: bool)
    requires next == "" || (|next| == 1 && next[0] in Separators)
    ensures PlainFragment(ExcludingClass(next, possessive))
  {
    QuoteSlash();
    ExcludedPlain(next);
    var tail: string := if possessive then "+" else "";
    assert PlainFragment(tail);
    assert PlainFragment("[^");
    assert PlainFragment("]+");
    PlainConcat("[^", Quote("/"));
    PlainConcat("[^" + Quote("/"), Excluded(next));
    PlainConcat("[^" + Quote("/") + Excluded(next), "]+");
    PlainConcat("[^" + Quote("/") + Excluded(next) + "]+", tail);
  }

  // ---------------------------------------------------------------------------
  // Capturing groups inside a fragment become non-capturing

  /**
   * The rewrite of `s` read from its start: an escaped byte is copied with its
   * backslash; "(" with at least two bytes after it becomes "(?:" unless the
   * next byte is '*' or '?', in which case three bytes are copied unchanged.
   */
  function NonCapturing(s: string): (r: string)
    ensures |r| >= |s|
    decreases |s|
  {
    if s == [] then []
    else if s[0] == '\\' then (if |s| >= 2 then s[..2] + NonCapturing(s[2..]) else s)
    else if s[0] != '(' || |s| < 3 then [s[0]] + NonCapturing(s[1..])
    else if s[1] == '*' || s[1] == '?' then s[..3] + NonCapturing(s[3..])
    else "(?:" + NonCapturing(s[1..])
  }

  // One step of the rewrite, read at index `i` of the partly rewritten string `r`, one lemma per branch.

  lemma NonCapturingEscaped(r: string, i: nat)
    requires i < |r| && r[i] == '\\'
    ensures r[..i] + NonCapturing(r[i..]) == (if i + 2 <= |r| then r[..i + 2] + NonCapturing(r[i + 2..]) else r)
  {
    var s := r[i..];
    if i + 2 <= |r| {
      assert s[..2] == r[i..i + 2] && s[2..] == r[i + 2..];
      assert r[..i] + r[i..i + 2] == r[..i + 2];
    } else {
      assert r[..i] + s == r;
    }
  }

  lemma NonCapturingCopied(r: string, i: nat)
    requires i < |r| && r[i] != '\\' && (r[i] != '(' || i + 2 >= |r|)
    ensures r[..i] + NonCapturing(r[i..]) == r[..i + 1] + NonCapturing(r[i + 1..])
  {
    assert r[i..][1..] == r[i + 1..];
    assert r[..i] + [r[i]] == r[..i + 1];
  }

  lemma NonCapturingSkipped(r: string, i: nat)
    requires i + 2 < |r| && r[i] == '(' && (r[i + 1] == '*' || r[i + 1] == '?')
    ensures r[..i] + NonCapturing(r[i..]) == r[..i + 3] + NonCapturing(r[i + 3..])
  {
    var s := r[i..];
    assert s[..3] == r[i..i + 3] && s[3..] == r[i + 3..];
    assert r[..i] + r[i..i + 3] == r[..i + 3];
  }

  lemma NonCapturingInserted(r: string, i: nat)
    requires i + 2 < |r| && r[i] == '(' && r[i + 1] != '*' && r[i + 1] != '?'
    ensures var r' := r[..i + 1] + "?:" + r[i + 1..];
            r[..i] + NonCapturing(r[i..]) == r'[..i + 3] + NonCapturing(r'[i + 3..])
  {
    var r' := r[..i + 1] + "?:" + r[i + 1..];
    var s := r[i..];
    assert s[0] == '(' && s[1] == r[i + 1] && |s| >= 3;
    assert NonCapturing(s) == "(?:" + NonCapturing(s[1..]);
    assert s[1..] == r[i + 1..];
    assert r[..i + 1] == r[..i] + "(";
    assert r'[..i + 3] == r[..i] + "(?:";
    assert r'[i + 3..] == r[i + 1..];
    AppendAssoc(r[..i], "(?:", NonCapturing(r[i + 1..]));
  }

  /** The in-place index loop, inserting "?:" into the string it walks. */
  method TransformCapturingGroups(regexp: string) returns (r: string)
    ensures r == NonCapturing(regexp)
  {
    r := regexp;
    var i := 0;
    while i < |r|
      invariant 0 <= i <= |r| + 1
      invariant (if i <= |r| then r[..i] + NonCapturing(r[i..]) else r) == NonCapturing(regexp)
      decreases |r| + 1 - i
    {
      if r[i] == '\\' {
        NonCapturingEscaped(r, i);
        i := i + 2;
        continue;
      }
      if r[i] != '(' || !(i + 2 < |r|) {
        NonCapturingCopied(r, i);
        i := i + 1;
        continue;
      }
      i := i + 1;
      if r[i] == '*' || r[i] == '?' {
        NonCapturingSkipped(r, i - 1);
        i := i + 2;
        continue;
      }
      NonCapturingInserted(r, i - 1);
      r := r[..i] + "?:" + r[i..];
      i := i + 2;
    }
  }

  // ---------------------------------------------------------------------------
  // Tokens

  datatype Token =
    | Text(text: string)
    | Variable(sep: string, regex: string, name: string, important: bool)

  /** The second field of a token: the text of a text token, the separator of a variable token. */
  function Field1(t: Token): string
  {
    match t
    case Text(text) => text
    case Variable(sep, _, _, _) => sep
  }

  predicate EndsWithSeparator(pre: string)
  {
    pre != "" && pre[|pre| - 1] in Separators
  }

  /** The separator that moves into the variable token. */
  function SepOf(pre: string): (r: string)
    ensures r == "" || |r| == 1
  {
    if EndsWithSeparator(pre) then [pre[|pre| - 1]] else ""
  }

  /** The text token (if any) emitted for the static text before a placeholder. */
  function LeadTokens(pre: string): seq<Token>
  {
    if EndsWithSeparator(pre) && |pre| > 1 then [Text(pre[..|pre| - 1])]
    else if !EndsWithSeparator(pre) && pre != "" then [Text(pre)]
    else []
  }

  /** The regex of a variable: its registered fragment made non-capturing, else the default. */
  function FragmentOf(p: string, regs: map<string, string>, ph: Placeholder): string
    requires ph.end <= |p|
  {
    if ph.name in regs then NonCapturing(regs[ph.name]) else DefaultFragment(p[ph.end..])
  }

  predicate ValidName(name: string)
  {
    |name| > 0 && !IsDigit(name[0]) && |name| <= VariableMaximumLength
  }

  /** Pattern after tokenising: the tokens and the variable names. */
  datatype Tokenized = Tokenized(tokens: seq<Token>, variables: seq<string>)

  /** The state before each step of the foreach over placeholders is well formed. */
  predicate Cursor(p: string, phs: seq<Placeholder>, k: nat, pos: nat)
  {
    && Placeholders(p, 0, phs) && k <= |phs| && pos <= |p|
    && (k < |phs| ==> pos <= phs[k].start)
  }

  /** The foreach over placeholders from the `k`-th on, then the trailing text. */
  function TokenizeFrom(p: string, regs: map<string, string>, phs: seq<Placeholder>, k: nat,
                        pos: nat, tokens: seq<Token>, variables: seq<string>): Result<Tokenized, CompileError>
    requires Cursor(p, phs, k, pos)
    decreases |phs| - k
  {
    if k == |phs| then
      Ok(Tokenized(tokens + (if pos < |p| then [Text(p[pos..])] else []), variables))
    else
      var ph := phs[k];
      var pre := p[pos..ph.start];
      if IsDigit(ph.name[0]) then Err(DigitLeadingName(ph.name))
      else if ph.name in variables then Err(DuplicateName(ph.name))
      else if |ph.name| > VariableMaximumLength then Err(NameTooLong(ph.name))
      else
        var token := Variable(SepOf(pre), FragmentOf(p, regs, ph), ph.name, ph.important);
        TokenizeFrom(p, regs, phs, k + 1, ph.end, tokens + LeadTokens(pre) + [token], variables + [ph.name])
  }

  /** One accepted placeholder: the cursor moves past it. */
  lemma TokenizeStep(p: string, regs: map<string, string>, phs: seq<Placeholder>, k: nat,
                     pos: nat, tokens: seq<Token>, variables: seq<string>)
    requires Cursor(p, phs, k, pos) && k < |phs|
    requires !IsDigit(phs[k].name[0]) && phs[k].name !in variables && |phs[k].name| <= VariableMaximumLength
    ensures Cursor(p, phs, k + 1, phs[k].end)
    ensures var pre := p[pos..phs[k].start];
            var token := Variable(SepOf(pre), FragmentOf(p, regs, phs[k]), phs[k].name, phs[k].important);
            TokenizeFrom(p, regs, phs, k, pos, tokens, variables)
            == TokenizeFrom(p, regs, phs, k + 1, phs[k].end, tokens + LeadTokens(pre) + [token], variables + [phs[k].name])
  {
  }

  /** After the last placeholder only the trailing text remains. */
  lemma TokenizeDone(p: string, regs: map<string, string>, phs: seq<Placeholder>,
                     pos: nat, tokens: seq<Token>, variables: seq<string>)
    requires Cursor(p, phs, |phs|, pos)
    ensures TokenizeFrom(p, regs, phs, |phs|, pos, tokens, variables)
            == Ok(Tokenized(tokens + (if pos < |p| then [Text(p[pos..])] else []), variables))
  {
  }

  function Tokenize(p: string, regs: map<string, string>): Result<Tokenized, CompileError>
  {
    TokenizeFrom(p, regs, Scan(p, 0), 0, 0, [], [])
  }

  // ---------------------------------------------------------------------------
  // Regex, static prefix, compiled route

  /** computeRegexp for one token. */
  function TokenRegex(t: Token): string
  {
    match t
    case Text(text) => Quote(text)
    case Variable(sep, regex, name, _) => Quote(sep) + "(?P<" + name + ">" + regex + ")"
  }

  /** The concatenated token regexes. */
  function RegexBody(tokens: seq<Token>): string
  {
    if tokens == [] then "" else TokenRegex(tokens[0]) + RegexBody(tokens[1..])
  }

  lemma {:induction false} RegexBodyAppend(tokens: seq<Token>, t: Token)
    ensures RegexBody(tokens + [t]) == RegexBody(tokens) + TokenRegex(t)
  {
    if tokens != [] {
      assert (tokens + [t])[1..] == tokens[1..] + [t];
      RegexBodyAppend(tokens[1..], t);
    }
  }

  /** The anchored regex of a route, with the dot-all and dollar-end-only modifiers. */
  function Anchored(body: string): string
  {
    "{^" + body + "$}sD"
  }

  /** determineStaticPrefix; undefined for the empty token list (a TypeError in the source). */
  function StaticPrefix(tokens: seq<Token>): string
    requires tokens != []
  {
    match tokens[0]
    case Variable(sep, _, _, _) => if sep == "/" then "" else sep
    case Text(text) => if |tokens| > 1 && Field1(tokens[1]) != "/" then text + Field1(tokens[1]) else text
  }

  /** The immutable result of compiling one route path. */
  datatype CompiledRoute = CompiledRoute(staticPrefix: string, regex: string, pathVariables: seq<string>)

  /** compilePattern on an extracted path and its name-to-fragment map. */
  function Compiled(p: string, regs: map<string, string>): Result<CompiledRoute, CompileError>
  {
    match Tokenize(p, regs)
    case Err(e) => Err(e)
    case Ok(t) =>
      if t.tokens == [] then Err(EmptyPattern)
      else Ok(CompiledRoute(StaticPrefix(t.tokens), Anchored(RegexBody(t.tokens)), t.variables))
  }

  /** The loop concatenating the token regexes, anchored. */
  method AnchoredRegex(tokens: seq<Token>) returns (regexp: string)
    ensures regexp == Anchored(RegexBody(tokens))
  {
    regexp := "";
    for i := 0 to |tokens|
      invariant regexp == RegexBody(tokens[..i])
    {
      TakeSnoc(tokens, i);
      RegexBodyAppend(tokens[..i], tokens[i]);
      regexp := regexp + TokenRegex(tokens[i]);
    }
    assert tokens[..|tokens|] == tokens;
    regexp := "{^" + regexp + "$}sD";
  }

  /** The regex of one variable: its registered fragment made non-capturing, else the default class. */
  method VariableRegex(pattern: string, regs: map<string, string>, m: Placeholder) returns (regexp: string)
    requires m.end <= |pattern|
    ensures regexp == FragmentOf(pattern, regs, m)
  {
    if m.name in regs {
      regexp := TransformCapturingGroups(regs[m.name]);
    } else {
      regexp := DefaultFragment(pattern[m.end..]);
    }
  }

  /** The foreach of compilePattern over the placeholders, then the trailing text token. */
  method TokenizePattern(pattern: string, regs: map<string, string>) returns (r: Result<Tokenized, CompileError>)
    ensures r == Tokenize(pattern, regs)
  {
    var tokens: seq<Token> := [];
    var variables: seq<string> := [];
    var pos: nat := 0;
    var matches := Scan(pattern, 0);
    for k := 0 to |matches|
      invariant Cursor(pattern, matches, k, pos)
      invariant TokenizeFrom(pattern, regs, matches, k, pos, tokens, variables) == Tokenize(pattern, regs)
    {
      var m := matches[k];
      var precedingText := pattern[pos..m.start];
      ghost var pos0 := pos;
      pos := m.end;
      if IsDigit(m.name[0]) {
        assert TokenizeFrom(pattern, regs, matches, k, pos0, tokens, variables) == Err(DigitLeadingName(m.name));
        return Err(DigitLeadingName(m.name));
      }
      if m.name in variables {
        assert TokenizeFrom(pattern, regs, matches, k, pos0, tokens, variables) == Err(DuplicateName(m.name));
        return Err(DuplicateName(m.name));
      }
      if |m.name| > VariableMaximumLength {
        assert TokenizeFrom(pattern, regs, matches, k, pos0, tokens, variables) == Err(NameTooLong(m.name));
        return Err(NameTooLong(m.name));
      }
      TokenizeStep(pattern, regs, matches, k, pos0, tokens, variables);
      tokens := tokens + LeadTokens(precedingText);
      var regexp := VariableRegex(pattern, regs, m);
      tokens := tokens + [Variable(SepOf(precedingText), regexp, m.name, m.important)];
      variables := variables + [m.name];
    }
    TokenizeDone(pattern, regs, matches, pos, tokens, variables);
    if pos < |pattern| {
      tokens := tokens + [Text(pattern[pos..])];
    } else {
      assert tokens + [] == tokens;
    }
    return Ok(Tokenized(tokens, variables));
  }

  /** compilePattern: tokens, then the regex and the static prefix built from them. */
  method CompilePattern(pattern: string, regs: map<string, string>) returns (r: Result<CompiledRoute, CompileError>)
    ensures r == Compiled(pattern, regs)
  {
    var t := TokenizePattern(pattern, regs);
    if t.Err? {
      return Err(t.error);
    }
    var regexp := AnchoredRegex(t.value.tokens);
    if t.value.tokens == [] {
      return Err(EmptyPattern);
    }
    return Ok(CompiledRoute(StaticPrefix(t.value.tokens), regexp, t.value.variables));
  }
}
