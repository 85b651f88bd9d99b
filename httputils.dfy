/**
 * HttpUtils: the request data read from the server variables ($_SERVER,
 * passed in as an ordered array), the path and host normalisation, the
 * header map built from the HTTP_ and CONTENT_ variables, and the order in
 * which the client address sources are tried. The static memo fields become
 * the fields of a Request object.
 */
module HttpUtils {
  import opened Common

  /** A key of $_SERVER: a string name, or an integer key (which the header loop skips). */
  datatype ServerKey = Name(name: string) | Index(i: int)

  /** $_SERVER, in iteration order. */
  type Server = seq<(ServerKey, string)>

  /** $_SERVER[$name] ?? null: the value under the first occurrence of the key. */
  function ServerLookup(server: Server, name: string): (r: Option<string>)
    ensures r.Some? <==> exists i :: 0 <= i < |server| && server[i].0 == Name(name)
    decreases |server|
  {
    if server == [] then None
    else if server[0].0 == Name(name) then Some(server[0].1)
    else ServerLookup(server[1..], name)
  }

  /** $_SERVER[$name] ?? '': the text of a server variable, '' when it is missing. */
  function ServerText(server: Server, name: string): string
  {
    match ServerLookup(server, name)
    case Some(v) => v
    case None => ""
  }

  // ---------------------------------------------------------------------------
  // trim($s, '/')

  function TrimLeft(s: string, c: char): (r: string)
    ensures |r| <= |s| && (r == [] || r[0] != c)
    decreases |s|
  {
    if s != [] && s[0] == c then TrimLeft(s[1..], c) else s
  }

  function TrimRight(s: string, c: char): (r: string)
    ensures |r| <= |s| && (r == [] || (r[0] == s[0] && r[|r| - 1] != c))
    decreases |s|
  {
    if s != [] && s[|s| - 1] == c then TrimRight(s[..|s| - 1], c) else s
  }

  /** trim($s, $c): the longest infix that neither starts nor ends with c. */
  function Trim(s: string, c: char): (r: string)
    ensures r == [] || (r[0] != c && r[|r| - 1] != c)
  {
    TrimRight(TrimLeft(s, c), c)
  }

  /** ltrim removes a prefix made only of c. */
  lemma {:induction false} TrimLeftSuffix(s: string, c: char)
    ensures var r := TrimLeft(s, c);
            && r == s[|s| - |r|..]
            && forall i :: 0 <= i < |s| - |r| ==> s[i] == c
    decreases |s|
  {
    if s != [] && s[0] == c {
      TrimLeftSuffix(s[1..], c);
      var r := TrimLeft(s, c);
      assert s[1..][|s| - 1 - |r|..] == s[|s| - |r|..];
      forall i | 0 <= i < |s| - |r|
        ensures s[i] == c
      {
        if i > 0 {
          assert s[i] == s[1..][i - 1];
        }
      }
    }
  }

  /** rtrim removes a suffix made only of c. */
  lemma {:induction false} TrimRightPrefix(s: string, c: char)
    ensures var r := TrimRight(s, c);
            && r == s[..|r|]
            && forall i :: |r| <= i < |s| ==> s[i] == c
    decreases |s|
  {
    if s != [] && s[|s| - 1] == c {
      TrimRightPrefix(s[..|s| - 1], c);
      var r := TrimRight(s, c);
      assert s[..|s| - 1][..|r|] == s[..|r|];
      forall i | |r| <= i < |s|
        ensures s[i] == c
      {
        if i < |s| - 1 {
          assert s[i] == s[..|s| - 1][i];
        }
      }
    }
  }

  /** trim keeps an infix of its input: every character left was there, and only c was cut at either end. */
  lemma TrimInfix(s: string, c: char)
    ensures var r, k := Trim(s, c), |s| - |TrimLeft(s, c)|;
            && k + |r| <= |s| && r == s[k..k + |r|]
            && (forall i :: 0 <= i < k ==> s[i] == c)
            && (forall i :: k + |r| <= i < |s| ==> s[i] == c)
            && forall ch :: ch in r ==> ch in s
  {
    var l := TrimLeft(s, c);
    TrimLeftSuffix(s, c);
    TrimRightPrefix(l, c);
    var r, k := Trim(s, c), |s| - |l|;
    assert r == l[..|r|];
    assert r == s[k..k + |r|];
    forall i | k + |r| <= i < |s|
      ensures s[i] == c
    {
      assert s[i] == l[i - k];
    }
    forall ch | ch in r
      ensures ch in s
    {
      var j :| 0 <= j < |r| && r[j] == ch;
      assert s[k + j] == ch;
    }
  }

  // ---------------------------------------------------------------------------
  // getPath and getHost

  /** getPath: '/' and the request URI before its query, lower-cased, without leading or trailing '/'. */
  function PathOf(uri: string): string
  {
    "/" + LowerStr(Trim(Before(uri, '?'), '/'))
  }

  /** The trimmed part of the URI holds no '?' and neither starts nor ends with '/'. */
  lemma TrimmedQuery(uri: string)
    ensures var t := Trim(Before(uri, '?'), '/');
            '?' !in t && (t == [] || (t[0] != '/' && t[|t| - 1] != '/'))
  {
    var b := Before(uri, '?');
    BeforePrefix(uri, '?');
    TrimInfix(b, '/');
    forall ch | ch in Trim(b, '/')
      ensures ch != '?'
    {
      assert ch in b;
    }
  }

  /** Lower-casing a string without '?' leaves no '?', no upper-case letter, and every '/' where it was. */
  lemma LowerShape(t: string)
    requires '?' !in t
    ensures var l := LowerStr(t);
            && '?' !in l
            && (forall i :: 0 <= i < |l| ==> !IsUpper(l[i]))
            && forall i :: 0 <= i < |l| ==> (l[i] == '/' <==> t[i] == '/')
  {
    var l := LowerStr(t);
    forall i | 0 <= i < |l|
      ensures l[i] != '?' && !IsUpper(l[i]) && (l[i] == '/' <==> t[i] == '/')
    {
      assert t[i] in t;
      LowerKeeps(t[i]);
    }
  }

  /** The path starts with '/', holds no '?' and no upper-case letter, and has no '/' at either end but the first. */
  lemma PathShape(uri: string)
    ensures var p := PathOf(uri);
            && |p| >= 1 && p[0] == '/'
            && '?' !in p
            && (p == "/" || (p[1] != '/' && p[|p| - 1] != '/'))
            && forall i :: 0 <= i < |p| ==> !IsUpper(p[i])
  {
    var t := Trim(Before(uri, '?'), '/');
    TrimmedQuery(uri);
    LowerShape(t);
    var l := LowerStr(t);
    var p := PathOf(uri);
    assert p == "/" + l;
    forall i | 0 <= i < |p|
      ensures !IsUpper(p[i])
    {
      if i > 0 {
        assert p[i] == l[i - 1];
      }
    }
    if t != [] {
      assert p[1] == l[0] && p[|p| - 1] == l[|l| - 1];
    }
  }

  /** strtolower leaves '?' and '/' alone, maps nothing else onto them, and leaves no upper-case letter. */
  lemma LowerKeeps(c: char)
    ensures !IsUpper(Lower(c))
    ensures Lower(c) == '?' <==> c == '?'
    ensures Lower(c) == '/' <==> c == '/'
  {
  }

  /** No character of s is changed by strtolower. */
  lemma LowerFixed(s: string)
    requires forall i :: 0 <= i < |s| ==> !IsUpper(s[i])
    ensures LowerStr(s) == s
  {
  }

  /** A string without the separator is all before it. */
  lemma BeforeWhole(s: string, sep: char)
    requires sep !in s
    ensures Before(s, sep) == s
  {
    AppendNil(s);
    BeforeNoSep(s, [], sep);
  }

  /** A string that neither starts nor ends with c is its own trim. */
  lemma TrimFixed(l: string, c: char)
    requires l == [] || (l[0] != c && l[|l| - 1] != c)
    ensures TrimLeft([c] + l, c) == l && TrimRight(l, c) == l
  {
    assert ([c] + l)[1..] == l;
  }

  /** getPath is a normal form: a normalised path normalises to itself. */
  lemma PathIdempotent(uri: string)
    ensures PathOf(PathOf(uri)) == PathOf(uri)
  {
    var p := PathOf(uri);
    PathShape(uri);
    var l := p[1..];
    assert p == "/" + l;
    BeforeWhole(p, '?');
    TrimFixed(l, '/');
    LowerFixed(l);
  }

  /** getHost: HTTP_HOST before the first ':'. */
  function HostOf(httpHost: string): string
  {
    Before(httpHost, ':')
  }

  /** The host is a prefix of HTTP_HOST without ':', so normalising it again changes nothing. */
  lemma HostShape(httpHost: string)
    ensures var h := HostOf(httpHost);
            h <= httpHost && ':' !in h && HostOf(h) == h
  {
    var h := HostOf(httpHost);
    BeforePrefix(httpHost, ':');
    AppendNil(h);
    BeforeNoSep(h, [], ':');
  }

  // ---------------------------------------------------------------------------
  // normalizeHeaderName

  /** The word separators of ucwords. */
  predicate WordDelim(c: char)
  {
    c == ' ' || c == '\t' || c == '\r' || c == '\n' || c == '\U{000C}' || c == '\U{000B}'
  }

  /** str_replace($from, $to, $s) for single characters. */
  function SwapChar(s: string, from: char, to: char): (r: string)
    ensures |r| == |s| && forall i :: 0 <= i < |s| ==> r[i] == if s[i] == from then to else s[i]
  {
    seq(|s|, i requires 0 <= i < |s| => if s[i] == from then to else s[i])
  }

  /** Byte i after ucwords. */
  function UcAt(s: string, i: nat): char
    requires i < |s|
  {
    if i == 0 || WordDelim(s[i - 1]) then Upper(s[i]) else s[i]
  }

  /** ucwords: the first byte and every byte after a separator upper-cased. */
  function UcWords(s: string): (r: string)
    ensures |r| == |s| && forall i :: 0 <= i < |s| ==> r[i] == UcAt(s, i)
  {
    seq(|s|, i requires 0 <= i < |s| => UcAt(s, i))
  }

  /** normalizeHeaderName: CONTENT_TYPE becomes Content-Type. */
  function NormalizeHeaderName(name: string): string
  {
    SwapChar(UcWords(LowerStr(SwapChar(name, '_', ' '))), ' ', '-')
  }

  /** A word starts at the beginning and after '_', ' ' or another ucwords separator. */
  predicate WordStart(name: string, i: nat)
    requires i < |name|
  {
    i == 0 || name[i - 1] == '_' || WordDelim(name[i - 1])
  }

  /**
   * Byte by byte: '_' and ' ' become '-', the first letter of each word is
   * upper-case and every other letter lower-case; the length is kept.
   */
  lemma NormalizeHeaderNameAt(name: string)
    ensures var r := NormalizeHeaderName(name);
            && |r| == |name|
            && forall i :: 0 <= i < |name| ==>
                 r[i] == if name[i] == '_' || name[i] == ' ' then '-'
                         else if WordStart(name, i) then Upper(Lower(name[i])) else Lower(name[i])
  {
    var a := SwapChar(name, '_', ' ');
    var b := LowerStr(a);
    forall j | 0 <= j < |name|
      ensures WordDelim(b[j]) <==> name[j] == '_' || WordDelim(name[j])
    {
    }
  }

  /** A normalised header name holds no '_' and no ' '. */
  lemma NormalizedHasNoSeparator(name: string)
    ensures '_' !in NormalizeHeaderName(name) && ' ' !in NormalizeHeaderName(name)
  {
    var r := NormalizeHeaderName(name);
    NormalizeHeaderNameAt(name);
    forall i | 0 <= i < |r|
      ensures r[i] != '_' && r[i] != ' '
    {
    }
  }

  // ---------------------------------------------------------------------------
  // normalizeHeaders

  /**
   * The header a server variable gives, if any: REDIRECT_X is read as X
   * unless X itself is set; then HTTP_X gives X and CONTENT_X gives
   * CONTENT_X, normalised; integer keys and other names give none.
   */
  function HeaderFor(server: Server, key: ServerKey): Option<string>
  {
    match key
    case Index(_) => None
    case Name(name) =>
      var redirect := "REDIRECT_" <= name;
      var n := if redirect then name[9..] else name;
      if redirect && ServerLookup(server, n).Some? then None
      else if "HTTP_" <= n then Some(NormalizeHeaderName(n[5..]))
      else if "CONTENT_" <= n then Some(NormalizeHeaderName(n))
      else None
  }

  /** Each server variable with the header it gives, if any, and its value. */
  function Tagged(server: Server): (ps: seq<(Option<string>, string)>)
    ensures |ps| == |server|
    ensures forall j :: 0 <= j < |server| ==> ps[j] == (HeaderFor(server, server[j].0), server[j].1)
  {
    seq(|server|, j requires 0 <= j < |server| => (HeaderFor(server, server[j].0), server[j].1))
  }

  /** $headers after the variables ps: each header given is set, in place or appended. */
  function Collect(ps: seq<(Option<string>, string)>): seq<(string, string)>
    decreases |ps|
  {
    if ps == [] then []
    else
      var h := Collect(ps[..|ps| - 1]);
      match ps[|ps| - 1].0
      case None => h
      case Some(k) => Put(h, k, ps[|ps| - 1].1)
  }

  /** The foreach over $_SERVER. */
  method NormalizeHeaders(server: Server) returns (headers: seq<(string, string)>)
    ensures headers == Collect(Tagged(server))
  {
    headers := [];
    ghost var ps := Tagged(server);
    for i := 0 to |server|
      invariant headers == Collect(ps[..i])
    {
      assert ps[..i + 1][..i] == ps[..i];
      var h := HeaderFor(server, server[i].0);
      if h.Some? {
        headers := Put(headers, h.value, server[i].1);
      }
    }
    assert ps[..|server|] == ps;
  }

  /** Variable j gives header k, and no later one does. */
  predicate LastGiving(ps: seq<(Option<string>, string)>, k: string, j: nat)
  {
    j < |ps| && ps[j].0 == Some(k) && forall j' :: j < j' < |ps| ==> ps[j'].0 != Some(k)
  }

  /** A header is present exactly when some server variable gives it. */
  lemma {:induction false} HeadersPresent(ps: seq<(Option<string>, string)>, k: string)
    ensures Lookup(Collect(ps), k).Some? <==> exists j :: 0 <= j < |ps| && ps[j].0 == Some(k)
    decreases |ps|
  {
    if ps != [] {
      var init := ps[..|ps| - 1];
      HeadersPresent(init, k);
      if ps[|ps| - 1].0.Some? {
        PutLookup(Collect(init), ps[|ps| - 1].0.value, ps[|ps| - 1].1, k);
      }
      if exists j :: 0 <= j < |init| && init[j].0 == Some(k) {
        var j :| 0 <= j < |init| && init[j].0 == Some(k);
        assert ps[j].0 == Some(k);
      }
      if exists j :: 0 <= j < |ps| && ps[j].0 == Some(k) {
        var j :| 0 <= j < |ps| && ps[j].0 == Some(k);
        if j < |init| {
          assert init[j].0 == Some(k);
        }
      }
    }
  }

  /** The header's value is that of the last server variable giving it: later ones win. */
  lemma {:induction false} HeadersLast(ps: seq<(Option<string>, string)>, k: string, j: nat)
    requires LastGiving(ps, k, j)
    ensures Lookup(Collect(ps), k) == Some(ps[j].1)
    decreases |ps|
  {
    var init, last := ps[..|ps| - 1], ps[|ps| - 1];
    if j == |init| {
      PutLookup(Collect(init), k, last.1, k);
    } else {
      assert init[j] == ps[j];
      assert LastGiving(init, k, j) by {
        forall j' | j < j' < |init|
          ensures init[j'].0 != Some(k)
        {
          assert init[j'] == ps[j'];
        }
      }
      HeadersLast(init, k, j);
      assert last.0 != Some(k);
      if last.0.Some? {
        PutLookup(Collect(init), last.0.value, last.1, k);
      }
    }
  }

  /** Header names are unique, and each is one some server variable gives. */
  lemma {:induction false} HeadersKeys(ps: seq<(Option<string>, string)>)
    ensures NoDuplicates(Keys(Collect(ps)))
    ensures forall k :: k in Keys(Collect(ps)) ==> Some(k) in Heads(ps)
    decreases |ps|
  {
    if ps != [] {
      var init := ps[..|ps| - 1];
      HeadersKeys(init);
      assert Heads(ps) == Heads(init) + [ps[|ps| - 1].0];
      if ps[|ps| - 1].0.Some? {
        PutFacts(Collect(init), ps[|ps| - 1].0.value, ps[|ps| - 1].1);
      }
    }
  }

  /** The headers the variables give, in order. */
  function Heads(ps: seq<(Option<string>, string)>): (gs: seq<Option<string>>)
    ensures |gs| == |ps| && forall j :: 0 <= j < |ps| ==> gs[j] == ps[j].0
  {
    seq(|ps|, j requires 0 <= j < |ps| => ps[j].0)
  }

  /** Every header a server variable gives is a normalised name. */
  lemma HeaderForNormal(server: Server, key: ServerKey)
    requires HeaderFor(server, key).Some?
    ensures '_' !in HeaderFor(server, key).value && ' ' !in HeaderFor(server, key).value
  {
    var name := key.name;
    var m := if "REDIRECT_" <= name then name[9..] else name;
    if "HTTP_" <= m {
      NormalizedHasNoSeparator(m[5..]);
    } else {
      NormalizedHasNoSeparator(m);
    }
  }

  /** Every header name in the map is normalised: no '_' and no ' '. */
  lemma HeaderNamesNormal(server: Server)
    ensures forall k :: k in Keys(Collect(Tagged(server))) ==> '_' !in k && ' ' !in k
  {
    var ps := Tagged(server);
    HeadersKeys(ps);
    forall k | k in Keys(Collect(ps))
      ensures '_' !in k && ' ' !in k
    {
      var j :| 0 <= j < |ps| && Heads(ps)[j] == Some(k);
      HeaderForNormal(server, server[j].0);
    }
  }

  // ---------------------------------------------------------------------------
  // normalizeIp

  /** The client address sources, in the order they are tried. */
  const IpSources: seq<string> := ["HTTP_CLIENT_IP", "HTTP_X_FORWARDED_FOR", "HTTP_CF_CONNECTING_IP", "REMOTE_ADDR"]

  /** The address returned when no source is set and valid. */
  const NoIp: string := "0.0.0.0"

  /** Source k is set and filter_var accepts it as an IPv4 or IPv6 address. */
  predicate Usable(server: Server, validIp: string -> bool, k: nat)
    requires k < |IpSources|
  {
    ServerLookup(server, IpSources[k]).Some? && validIp(ServerLookup(server, IpSources[k]).value)
  }

  /** The address from the sources from k on. */
  function IpFrom(server: Server, validIp: string -> bool, k: nat): string
    requires k <= |IpSources|
    decreases |IpSources| - k
  {
    if k == |IpSources| then NoIp
    else if Usable(server, validIp, k) then ServerLookup(server, IpSources[k]).value
    else IpFrom(server, validIp, k + 1)
  }

  /** The foreach with its early return. */
  method NormalizeIp(server: Server, validIp: string -> bool) returns (ip: string)
    ensures ip == IpFrom(server, validIp, 0)
  {
    for k := 0 to |IpSources|
      invariant IpFrom(server, validIp, 0) == IpFrom(server, validIp, k)
    {
      var v := ServerLookup(server, IpSources[k]);
      if v.Some? && validIp(v.value) {
        return v.value;
      }
    }
    return NoIp;
  }

  /**
   * The address is that of the first usable source, in the fixed order;
   * 0.0.0.0 when none is usable.
   */
  lemma {:induction false} IpChoice(server: Server, validIp: string -> bool, k: nat)
    requires k <= |IpSources|
    ensures var ip := IpFrom(server, validIp, k);
            || (ip == NoIp && forall j :: k <= j < |IpSources| ==> !Usable(server, validIp, j))
            || exists j :: k <= j < |IpSources| && Usable(server, validIp, j)
                           && ServerLookup(server, IpSources[j]) == Some(ip)
                           && forall j' :: k <= j' < j ==> !Usable(server, validIp, j')
    decreases |IpSources| - k
  {
    if k < |IpSources| && !Usable(server, validIp, k) {
      IpChoice(server, validIp, k + 1);
    }
  }

  // ---------------------------------------------------------------------------
  // The memoised getters

  /** A memo slot that is either empty or holds the value it stands for. */
  ghost predicate Cached<T>(slot: Option<T>, value: T)
  {
    slot.Some? ==> slot.value == value
  }

  /** A value cached from a server variable: that variable is set and the value is computed from it. */
  ghost predicate CachedFrom(slot: Option<string>, v: Option<string>, f: string -> string)
  {
    slot.Some? ==> v.Some? && slot.value == f(v.value)
  }

  /**
   * What getHost and getPath throw when their server variable is missing:
   * explode then receives null, which strict_types turns into a TypeError.
   */
  datatype Thrown = TypeError

  /** The request state: the server variables and what the getters have cached. */
  class Request {
    const server: Server
    /** filter_var($v, FILTER_VALIDATE_IP) as a truth value. */
    const validIp: string -> bool
    var host: Option<string>
    var path: Option<string>
    var headers: Option<seq<(string, string)>>
    var ip: Option<string>

    /** A cached value is the value computed from the server variables. */
    ghost predicate Valid()
      reads this
    {
      && CachedFrom(host, ServerLookup(server, "HTTP_HOST"), HostOf)
      && CachedFrom(path, ServerLookup(server, "REQUEST_URI"), PathOf)
      && Cached(headers, Collect(Tagged(server)))
      && Cached(ip, IpFrom(server, validIp, 0))
    }

    constructor(server: Server, validIp: string -> bool)
      ensures Valid() && this.server == server && this.validIp == validIp
      ensures host == None && path == None && headers == None && ip == None
    {
      this.server := server;
      this.validIp := validIp;
      host, path, headers, ip := None, None, None, None;
    }

    /**
     * getHost: computed on the first call, the cached value afterwards; a
     * missing HTTP_HOST throws and caches nothing.
     */
    method GetHost() returns (r: Result<string, Thrown>)
      requires Valid()
      modifies this
      ensures Valid()
      ensures ServerLookup(server, "HTTP_HOST").None? ==> r == Err(TypeError) && host == old(host)
      ensures ServerLookup(server, "HTTP_HOST").Some? ==>
                r == Ok(HostOf(ServerLookup(server, "HTTP_HOST").value)) && host == Some(r.value)
      ensures path == old(path) && headers == old(headers) && ip == old(ip)
    {
      if host.Some? {
        return Ok(host.value);
      }
      var v := ServerLookup(server, "HTTP_HOST");
      if v.None? {
        return Err(TypeError);
      }
      r := Ok(HostOf(v.value));
      ghost var p, h, i := path, headers, ip;
      host := Some(r.value);
      assert path == p && headers == h && ip == i;
    }

    /**
     * getPath: computed on the first call, the cached value afterwards; a
     * missing REQUEST_URI throws and caches nothing.
     */
    method GetPath() returns (r: Result<string, Thrown>)
      requires Valid()
      modifies this
      ensures Valid()
      ensures ServerLookup(server, "REQUEST_URI").None? ==> r == Err(TypeError) && path == old(path)
      ensures ServerLookup(server, "REQUEST_URI").Some? ==>
                r == Ok(PathOf(ServerLookup(server, "REQUEST_URI").value)) && path == Some(r.value)
      ensures host == old(host) && headers == old(headers) && ip == old(ip)
    {
      if path.Some? {
        return Ok(path.value);
      }
      var v := ServerLookup(server, "REQUEST_URI");
      if v.None? {
        return Err(TypeError);
      }
      r := Ok(PathOf(v.value));
      ghost var o, h, i := host, headers, ip;
      path := Some(r.value);
      assert host == o && headers == h && ip == i;
    }

    /** getHeaders: the header map, built on the first use. */
    method GetHeaders() returns (r: seq<(string, string)>)
      requires Valid()
      modifies this
      ensures Valid() && r == Collect(Tagged(server)) && headers == Some(r)
      ensures host == old(host) && path == old(path) && ip == old(ip)
    {
      if headers.None? {
        var h := NormalizeHeaders(server);
        ghost var o, p, i := host, path, ip;
        headers := Some(h);
        assert host == o && path == p && ip == i;
      }
      r := headers.value;
    }

    /** getHeader: the header's value, null when absent. */
    method GetHeader(name: string) returns (r: Option<string>)
      requires Valid()
      modifies this
      ensures Valid() && r == Lookup(Collect(Tagged(server)), name)
      ensures headers == Some(Collect(Tagged(server)))
      ensures host == old(host) && path == old(path) && ip == old(ip)
    {
      var h := GetHeaders();
      r := Lookup(h, name);
    }

    /** getContentType, getContentLength, getUserAgent, getLanguages, getAcceptEncoding, getReferer: '' when absent. */
    method GetHeaderText(name: string) returns (r: string)
      requires Valid()
      modifies this
      ensures Valid()
      ensures Lookup(Collect(Tagged(server)), name).None? ==> r == ""
      ensures Lookup(Collect(Tagged(server)), name).Some? ==> r == Lookup(Collect(Tagged(server)), name).value
      ensures headers == Some(Collect(Tagged(server)))
      ensures host == old(host) && path == old(path) && ip == old(ip)
    {
      var h := GetHeader(name);
      r := if h.Some? then h.value else "";
    }

    /** getIp: the client address, chosen on the first call. */
    method GetIp() returns (r: string)
      requires Valid()
      modifies this
      ensures Valid() && r == IpFrom(server, validIp, 0) && ip == Some(r)
      ensures host == old(host) && path == old(path) && headers == old(headers)
    {
      if ip.None? {
        var a := NormalizeIp(server, validIp);
        ghost var o, p, h := host, path, headers;
        ip := Some(a);
        assert host == o && path == p && headers == h;
      }
      r := ip.value;
    }

    /** getQueryString: QUERY_STRING, '' when absent. */
    function QueryString(): (r: string)
      reads this
      ensures ServerLookup(server, "QUERY_STRING").Some? ==> r == ServerLookup(server, "QUERY_STRING").value
      ensures ServerLookup(server, "QUERY_STRING").None? ==> r == ""
    {
      ServerText(server, "QUERY_STRING")
    }
  }

  /** The header names the text accessors read. */
  const ContentType: string := "Content-Type"
  const ContentLength: string := "Content-Length"
  const UserAgent: string := "User-Agent"
  const AcceptLanguage: string := "Accept-Language"
  const AcceptEncoding: string := "Accept-Encoding"
  const Referer: string := "Referer"
}
