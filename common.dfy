/**
 * Values shared by the whole model: failure-carrying results, the handful of
 * PHP string built-ins the router relies on (strpos, str_replace, explode,
 * strtolower, strval), and PHP's ordered arrays with string keys.
 *
 * Strings are byte strings: every char of a `string` stands for one byte.
 */
module Common {

  datatype Option<+T> = None | Some(value: T)

  datatype Result<+T, +E> = Ok(value: T) | Err(error: E)

  // ---------------------------------------------------------------------------
  // Characters (PHP 8 string functions are ASCII-only, whatever the locale)

  predicate IsDigit(c: char) { '0' <= c <= '9' }

  predicate IsUpper(c: char) { 'A' <= c <= 'Z' }

  predicate IsLower(c: char) { 'a' <= c <= 'z' }

  /** strtolower on one byte. */
  function Lower(c: char): char
  {
    if IsUpper(c) then (c as int + 32) as char else c
  }

  /** strtoupper on one byte. */
  function Upper(c: char): char
  {
    if IsLower(c) then (c as int - 32) as char else c
  }

  /** strtolower. */
  function LowerStr(s: string): (r: string)
    ensures |r| == |s|
    ensures forall i :: 0 <= i < |s| ==> r[i] == Lower(s[i])
  {
    if s == [] then [] else [Lower(s[0])] + LowerStr(s[1..])
  }

  lemma {:induction false} LowerStrAppend(a: string, b: string)
    ensures LowerStr(a + b) == LowerStr(a) + LowerStr(b)
  {
    var l, r := LowerStr(a + b), LowerStr(a) + LowerStr(b);
    assert |l| == |r|;
    forall i | 0 <= i < |l| ensures l[i] == r[i] {
      if i < |a| { assert (a + b)[i] == a[i]; } else { assert (a + b)[i] == b[i - |a|]; }
    }
  }

  // ---------------------------------------------------------------------------
  // Decimal rendering of a non-negative integer (strval)

  function DigitChar(d: nat): (c: char)
    requires d < 10
    ensures IsDigit(c)
  {
    ('0' as int + d) as char
  }

  /** The decimal digits of n, most significant first. */
  function Decimal(n: nat): (s: string)
    ensures |s| >= 1
    ensures forall i :: 0 <= i < |s| ==> IsDigit(s[i])
  {
    if n < 10 then [DigitChar(n)] else Decimal(n / 10) + [DigitChar(n % 10)]
  }

  /** strval(n) for a non-negative integer n. */
  function Digits(n: nat): (s: string)
    ensures |s| >= 1
    ensures forall i :: 0 <= i < |s| ==> IsDigit(s[i])
  {
    Decimal(n)
  }

  /** A prefix one element longer. */
  lemma TakeSnoc<T>(s: seq<T>, i: nat)
    requires i < |s|
    ensures s[..i + 1] == s[..i] + [s[i]]
  {
  }

  lemma AppendAssoc<T>(a: seq<T>, b: seq<T>, c: seq<T>)
    ensures a + b + c == a + (b + c)
  {
  }

  lemma DropAppend<T>(a: seq<T>, b: seq<T>)
    ensures (a + b)[|a|..] == b
  {
  }

  lemma AppendNil<T>(a: seq<T>)
    ensures a + [] == a && [] + a == a
  {
  }

  lemma TailAppend<T>(a: seq<T>, b: seq<T>)
    requires a != []
    ensures (a + b)[0] == a[0] && (a + b)[1..] == a[1..] + b
  {
  }

  lemma ConsTail<T>(a: seq<T>, b: seq<T>)
    requires a != []
    ensures [a[0]] + (a[1..] + b) == a + b
  {
  }

  lemma PrefixTrans<T>(a: seq<T>, b: seq<T>, c: seq<T>)
    requires |a| <= |b| && b[..|a|] == a && |b| <= |c| && c[..|b|] == b
    ensures c[..|a|] == a
  {
    assert c[..|a|] == c[..|b|][..|a|];
  }

  lemma PrefixAppend<T>(a: seq<T>, b: seq<T>)
    ensures a <= a + b
  {
    assert (a + b)[..|a|] == a;
  }

  lemma PrefixOrder<T>(a: seq<T>, b: seq<T>, c: seq<T>)
    requires a <= b && b <= c
    ensures a <= c
  {
    assert c[..|a|] == c[..|b|][..|a|];
  }

  lemma InitLast<T>(s: seq<T>)
    requires s != []
    ensures s == s[..|s| - 1] + [s[|s| - 1]]
  {
  }

  lemma SplitAt<T>(s: seq<T>, i: nat)
    requires i <= |s|
    ensures s == s[..i] + s[i..]
  {
  }

  /** A sequence around its element i. */
  lemma SplitAround<T>(s: seq<T>, i: nat)
    requires i < |s|
    ensures s == s[..i] + [s[i]] + s[i + 1..]
  {
  }

  lemma DropNone<T>(a: seq<T>)
    ensures a[0..] == a
  {
  }

  // ---------------------------------------------------------------------------
  // Searching and rewriting strings

  /** strpos($s, $c, $from) for a one-byte needle; `from` at most |s| (PHP 8 throws otherwise). */
  function Find(s: string, c: char, from: nat): (r: Option<nat>)
    requires from <= |s|
    ensures r.Some? ==> from <= r.value < |s| && s[r.value] == c
    decreases |s| - from
  {
    if from == |s| then None
    else if s[from] == c then Some(from)
    else Find(s, c, from + 1)
  }

  /** Nothing before the position Find returns is the searched byte. */
  lemma {:induction false} FindSkipped(s: string, c: char, from: nat)
    requires from <= |s|
    ensures Find(s, c, from).Some? ==> forall k :: from <= k < Find(s, c, from).value ==> s[k] != c
    ensures Find(s, c, from).None? ==> forall k :: from <= k < |s| ==> s[k] != c
    decreases |s| - from
  {
    if from < |s| && s[from] != c {
      FindSkipped(s, c, from + 1);
    }
  }

  /** Find returns the first occurrence at or after `from`. */
  lemma {:induction false} FindFirst(s: string, c: char, from: nat, at: nat)
    requires from <= at < |s| && s[at] == c
    requires forall k :: from <= k < at ==> s[k] != c
    ensures Find(s, c, from) == Some(at)
    decreases at - from
  {
    if from < at {
      FindFirst(s, c, from + 1, at);
    }
  }

  /** str_replace($pat, $rep, $s): every non-overlapping occurrence, scanning left to right. */
  function ReplaceAll(s: string, pat: string, rep: string): (r: string)
    requires |pat| > 0
    ensures |rep| <= |pat| ==> |r| <= |s|
    decreases |s|
  {
    if |s| < |pat| then s
    else if s[..|pat|] == pat then rep + ReplaceAll(s[|pat|..], pat, rep)
    else [s[0]] + ReplaceAll(s[1..], pat, rep)
  }

  /** The text before the first `sep` (explode($sep, $s)[0]). */
  function Before(s: string, sep: char): (r: string)
    ensures |r| <= |s|
    ensures |r| < |s| ==> s[|r|] == sep
  {
    if s == [] then []
    else if s[0] == sep then []
    else [s[0]] + Before(s[1..], sep)
  }

  /** The text before the first separator is a prefix without separator. */
  lemma {:induction false} BeforePrefix(s: string, sep: char)
    ensures Before(s, sep) <= s && sep !in Before(s, sep)
  {
    if s != [] && s[0] != sep {
      BeforePrefix(s[1..], sep);
    }
  }

  /** explode($sep, $s): the pieces between occurrences of `sep`. */
  function Explode(s: string, sep: char): (r: seq<string>)
    ensures |r| >= 1 && r[0] == Before(s, sep)
    decreases |s|
  {
    var head := Before(s, sep);
    if |head| == |s| then [head] else [head] + Explode(s[|head| + 1..], sep)
  }

  /** Two pieces when the separator occurs once. */
  lemma ExplodeTwo(a: string, b: string, sep: char)
    requires sep !in a && sep !in b
    ensures Explode(a + [sep] + b, sep) == [a, b]
  {
    AppendAssoc(a, [sep], b);
    BeforeNoSep(a, [sep] + b, sep);
    DropAppend(a + [sep], b);
    AppendNil(b);
    BeforeNoSep(b, [], sep);
    ExplodeWhole(b, sep);
  }

  lemma ExplodeWhole(s: string, sep: char)
    requires Before(s, sep) == s
    ensures Explode(s, sep) == [s]
  {
  }

  lemma {:induction false} BeforeNoSep(a: string, rest: string, sep: char)
    requires sep !in a && (rest == [] || rest[0] == sep)
    ensures Before(a + rest, sep) == a
  {
    if a != [] {
      assert (a + rest)[1..] == a[1..] + rest;
      BeforeNoSep(a[1..], rest, sep);
    } else {
      assert a + rest == rest;
    }
  }

  /** substr_replace($s, $rep, $start, $len) with the replaced range inside `s`. */
  function Splice(s: string, start: nat, len: nat, rep: string): (r: string)
    requires start + len <= |s|
    ensures |r| == |s| - len + |rep|
  {
    s[..start] + rep + s[start + len..]
  }

  // ---------------------------------------------------------------------------
  // PHP arrays with string keys: ordered maps, keys unique

  function Keys<V>(m: seq<(string, V)>): (ks: seq<string>)
    ensures |ks| == |m| && forall i :: 0 <= i < |m| ==> ks[i] == m[i].0
  {
    if m == [] then [] else [m[0].0] + Keys(m[1..])
  }

  predicate NoDuplicates<K(==)>(s: seq<K>)
  {
    forall i, j :: 0 <= i < j < |s| ==> s[i] != s[j]
  }

  lemma NoDuplicatesSnoc<K>(s: seq<K>, k: K)
    requires NoDuplicates(s) && k !in s
    ensures NoDuplicates(s + [k])
  {
  }

  /** $m[$k] ?? null. */
  function Lookup<V>(m: seq<(string, V)>, k: string): Option<V>
  {
    if m == [] then None
    else if m[0].0 == k then Some(m[0].1)
    else Lookup(m[1..], k)
  }

  lemma {:induction false} LookupKeys<V>(m: seq<(string, V)>, k: string)
    ensures Lookup(m, k).Some? <==> k in Keys(m)
  {
    if m != [] {
      LookupKeys(m[1..], k);
      assert Keys(m) == [m[0].0] + Keys(m[1..]);
    }
  }

  /** $m[$k] = $v: overwrite in place when the key exists, append otherwise. */
  function Put<V>(m: seq<(string, V)>, k: string, v: V): (r: seq<(string, V)>)
    ensures k in Keys(m) ==> Keys(r) == Keys(m)
    ensures k !in Keys(m) ==> Keys(r) == Keys(m) + [k]
  {
    if m == [] then [(k, v)]
    else if m[0].0 == k then [(k, v)] + m[1..]
    else
      assert Keys(m) == [m[0].0] + Keys(m[1..]);
      [m[0]] + Put(m[1..], k, v)
  }

  lemma {:induction false} PutLookup<V>(m: seq<(string, V)>, k: string, v: V, j: string)
    ensures Lookup(Put(m, k, v), j) == if j == k then Some(v) else Lookup(m, j)
  {
    if m != [] && m[0].0 != k {
      PutLookup(m[1..], k, v, j);
      assert Put(m, k, v)[1..] == Put(m[1..], k, v);
    }
  }

  lemma PutFacts<V>(m: seq<(string, V)>, k: string, v: V)
    ensures NoDuplicates(Keys(m)) ==> NoDuplicates(Keys(Put(m, k, v)))
    ensures forall i :: 0 <= i < |Put(m, k, v)| ==> Put(m, k, v)[i] == (k, v) || Put(m, k, v)[i] in m
  {
    var r := Put(m, k, v);
    if k in Keys(m) {
      assert Keys(r) == Keys(m);
    }
    PutMembers(m, k, v);
  }

  lemma {:induction false} PutMembers<V>(m: seq<(string, V)>, k: string, v: V)
    ensures forall i :: 0 <= i < |Put(m, k, v)| ==> Put(m, k, v)[i] == (k, v) || Put(m, k, v)[i] in m
  {
    if m != [] && m[0].0 != k {
      PutMembers(m[1..], k, v);
      assert Put(m, k, v) == [m[0]] + Put(m[1..], k, v);
      forall i | 1 <= i < |Put(m, k, v)| ensures Put(m, k, v)[i] == (k, v) || Put(m, k, v)[i] in m {
        assert Put(m, k, v)[i] == Put(m[1..], k, v)[i - 1];
      }
    }
  }

  /** array_merge($a, $b) for string keys: later values win, first positions are kept. */
  function Merge<V>(a: seq<(string, V)>, b: seq<(string, V)>): seq<(string, V)>
    decreases |b|
  {
    if b == [] then a else Merge(Put(a, b[0].0, b[0].1), b[1..])
  }

  lemma {:induction false} MergeLookup<V>(a: seq<(string, V)>, b: seq<(string, V)>, k: string)
    requires NoDuplicates(Keys(b))
    ensures Lookup(Merge(a, b), k) == if k in Keys(b) then Lookup(b, k) else Lookup(a, k)
    decreases |b|
  {
    if b != [] {
      var a' := Put(a, b[0].0, b[0].1);
      assert Keys(b) == [b[0].0] + Keys(b[1..]);
      MergeLookup(a', b[1..], k);
      PutLookup(a, b[0].0, b[0].1, k);
      LookupKeys(b[1..], k);
      LookupKeys(b, k);
    }
  }

  lemma {:induction false} MergeKeysOrder<V>(a: seq<(string, V)>, b: seq<(string, V)>)
    ensures Keys(a) <= Keys(Merge(a, b))
    decreases |b|
  {
    if b != [] {
      var a' := Put(a, b[0].0, b[0].1);
      MergeKeysOrder(a', b[1..]);
    }
  }

  /** $acc += array_flip($ks): add the keys not yet present, in order. */
  function AddMissing(acc: seq<string>, ks: seq<string>): (r: seq<string>)
    ensures acc <= r
    ensures forall k :: k in r <==> k in acc || k in ks
    ensures NoDuplicates(acc) ==> NoDuplicates(r)
    decreases |ks|
  {
    if ks == [] then acc
    else if ks[0] in acc then AddMissing(acc, ks[1..])
    else AddMissing(acc + [ks[0]], ks[1..])
  }

  /**
   * The members of ks that acc lacks, each once, in the order of their first
   * occurrence in ks: defined from the last element backwards.
   */
  function Missing(acc: seq<string>, ks: seq<string>): seq<string>
    decreases |ks|
  {
    if ks == [] then []
    else
      var x, init := ks[|ks| - 1], ks[..|ks| - 1];
      Missing(acc, init) + (if x in acc || x in init then [] else [x])
  }

  lemma {:induction false} AddMissingSnoc(acc: seq<string>, ks: seq<string>, x: string)
    ensures AddMissing(acc, ks + [x]) == AddMissing(AddMissing(acc, ks), [x])
    decreases |ks|
  {
    if ks == [] {
      assert ks + [x] == [x];
    } else {
      assert (ks + [x])[0] == ks[0] && (ks + [x])[1..] == ks[1..] + [x];
      if ks[0] in acc {
        AddMissingSnoc(acc, ks[1..], x);
      } else {
        AddMissingSnoc(acc + [ks[0]], ks[1..], x);
      }
    }
  }

  lemma {:induction false} AddMissingAppend(acc: seq<string>, ks: seq<string>, ls: seq<string>)
    ensures AddMissing(acc, ks + ls) == AddMissing(AddMissing(acc, ks), ls)
    decreases |ks|
  {
    if ks == [] {
      assert ks + ls == ls;
    } else {
      assert (ks + ls)[0] == ks[0] && (ks + ls)[1..] == ks[1..] + ls;
      if ks[0] in acc {
        AddMissingAppend(acc, ks[1..], ls);
      } else {
        AddMissingAppend(acc + [ks[0]], ks[1..], ls);
      }
    }
  }

  /** `$allow += array_flip($ks)` appends exactly the missing keys, in first-seen order. */
  lemma {:induction false} AddMissingOrder(acc: seq<string>, ks: seq<string>)
    ensures AddMissing(acc, ks) == acc + Missing(acc, ks)
    decreases |ks|
  {
    if ks != [] {
      var x, init := ks[|ks| - 1], ks[..|ks| - 1];
      assert ks == init + [x];
      AddMissingOrder(acc, init);
      AddMissingSnoc(acc, init, x);
      var mid := AddMissing(acc, init);
      assert x in mid <==> x in acc || x in init;
      assert AddMissing(mid, [x]) == mid + (if x in acc || x in init then [] else [x]);
    }
  }
}
