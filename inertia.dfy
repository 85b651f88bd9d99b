/**
 * The Inertia plugin: which page props a response carries (evaluateProps),
 * the shared-props and view-data maps, and the decisions render takes before
 * it writes anything: whether the request is partial, which props it asks
 * for, and whether the page is answered with HTML, a version redirect or
 * JSON.
 *
 * PHP values are opaque here: a `Datum` stands for any value, and a closure
 * is a `Thunk` whose result the parameter `call` gives.
 */
module Inertia {
  import opened Common

  /** Any PHP value carried through untouched. */
  type Datum = string

  /** A closure, known by identity. */
  type Thunk = nat

  /** What an AlwaysProp wraps: a closure (called by getData) or a value. */
  datatype Payload = Deferred(fn: Thunk) | Given(data: Datum)

  /** A page prop: an AlwaysProp, a LazyProp, a bare Closure, or any other value. */
  datatype Prop = Always(payload: Payload) | Lazy(fn: Thunk) | Closure(fn: Thunk) | Plain(data: Datum)

  /** AlwaysProp::getData. */
  function Unwrap(p: Payload, call: Thunk -> Datum): Datum
  {
    match p
    case Deferred(f) => call(f)
    case Given(d) => d
  }

  // ---------------------------------------------------------------------------
  // evaluateProps

  /**
   * One iteration of the foreach: the value the key ends with, or None when
   * it is unset.
   */
  function Decide(p: Prop, key: string, isPartial: bool, only: set<string>, except: set<string>,
                  call: Thunk -> Datum): Option<Datum>
  {
    if p.Always? then Some(Unwrap(p.payload, call))
    else if isPartial && key in except then None
    else if isPartial && key !in only then None
    else match p
      case Lazy(f) => if isPartial then Some(call(f)) else None
      case Closure(f) => Some(call(f))
      case Plain(d) => Some(d)
  }

  /** The props evaluateProps returns: each key in order, with its decision; unset keys are gone. */
  function Evaluated(props: seq<(string, Prop)>, isPartial: bool, only: set<string>, except: set<string>,
                     call: Thunk -> Datum): seq<(string, Datum)>
    decreases |props|
  {
    if props == [] then []
    else
      var rest := Evaluated(props[..|props| - 1], isPartial, only, except, call);
      var (k, p) := props[|props| - 1];
      match Decide(p, k, isPartial, only, except, call)
      case None => rest
      case Some(d) => rest + [(k, d)]
  }

  /**
   * The foreach over the props: a kept key is overwritten in place with its
   * value, a dropped one is unset; keys are unique, so the result keeps the
   * kept keys in their order.
   */
  method EvaluateProps(props: seq<(string, Prop)>, isPartial: bool, only: set<string>, except: set<string>,
                       call: Thunk -> Datum) returns (out: seq<(string, Datum)>)
    ensures out == Evaluated(props, isPartial, only, except, call)
  {
    out := [];
    for i := 0 to |props|
      invariant out == Evaluated(props[..i], isPartial, only, except, call)
    {
      assert props[..i + 1][..i] == props[..i];
      var (key, value) := props[i];
      if value.Always? {
        out := out + [(key, Unwrap(value.payload, call))];
        continue;
      }
      if isPartial {
        if key in except {
          continue;
        }
        if key in only {
          if value.Lazy? {
            out := out + [(key, call(value.fn))];
            continue;
          }
        } else {
          continue;
        }
      } else {
        if value.Lazy? {
          continue;
        }
      }
      if value.Closure? {
        out := out + [(key, call(value.fn))];
        continue;
      }
      out := out + [(key, value.data)];
    }
    assert props[..|props|] == props;
  }

  /** a is b with some elements left out, the rest in the same order. */
  predicate Subsequence(a: seq<string>, b: seq<string>)
    decreases |b|
  {
    if a == [] then true
    else if b == [] then false
    else if a[|a| - 1] == b[|b| - 1] then Subsequence(a[..|a| - 1], b[..|b| - 1])
    else Subsequence(a, b[..|b| - 1])
  }

  /** The keys of an array with one more entry at the end. */
  lemma KeysSnoc<V>(m: seq<(string, V)>, k: string, v: V)
    ensures Keys(m + [(k, v)]) == Keys(m) + [k]
  {
  }

  /** Appending the same element to both keeps a subsequence. */
  lemma SubsequenceSnoc(a: seq<string>, b: seq<string>, x: string)
    requires Subsequence(a, b)
    ensures Subsequence(a + [x], b + [x])
  {
    assert (a + [x])[..|a|] == a && (b + [x])[..|b|] == b;
  }

  /** The output keys are some of the input keys, in their input order. */
  lemma {:induction false} EvaluatedKeysOrdered(props: seq<(string, Prop)>, isPartial: bool, only: set<string>,
                                                except: set<string>, call: Thunk -> Datum)
    ensures Subsequence(Keys(Evaluated(props, isPartial, only, except, call)), Keys(props))
    decreases |props|
  {
    if props != [] {
      var init := props[..|props| - 1];
      var rest := Evaluated(init, isPartial, only, except, call);
      EvaluatedKeysOrdered(init, isPartial, only, except, call);
      var (k, p) := props[|props| - 1];
      assert props == init + [(k, p)];
      KeysSnoc(init, k, p);
      var d := Decide(p, k, isPartial, only, except, call);
      if d.Some? {
        KeysSnoc(rest, k, d.value);
        SubsequenceSnoc(Keys(rest), Keys(init), k);
      } else {
        assert (Keys(init) + [k])[..|Keys(init)|] == Keys(init);
        SubsequenceDropLast(Keys(rest), Keys(init) + [k]);
      }
    }
  }

  /** Leaving out the last element of b keeps a subsequence of b. */
  lemma {:induction false} SubsequenceDropLast(a: seq<string>, b: seq<string>)
    requires b != [] && Subsequence(a, b[..|b| - 1])
    ensures Subsequence(a, b)
    decreases |b|, 1
  {
    if a != [] && a[|a| - 1] == b[|b| - 1] {
      SubsequenceInit(a, b[..|b| - 1]);
    }
  }

  /** Leaving out the last element of a keeps a subsequence of c. */
  lemma {:induction false} SubsequenceInit(a: seq<string>, c: seq<string>)
    requires a != [] && Subsequence(a, c)
    ensures Subsequence(a[..|a| - 1], c)
    decreases |c|, 2
  {
    var a' := a[..|a| - 1];
    if a[|a| - 1] == c[|c| - 1] {
      SubsequenceDropLast(a', c);
    } else {
      SubsequenceInit(a, c[..|c| - 1]);
      SubsequenceDropLast(a', c);
    }
  }

  /** With unique keys, the value a key ends with is its own decision, or absent when dropped. */
  lemma {:induction false} EvaluatedAt(props: seq<(string, Prop)>, isPartial: bool, only: set<string>,
                                       except: set<string>, call: Thunk -> Datum, key: string)
    requires NoDuplicates(Keys(props))
    ensures Lookup(Evaluated(props, isPartial, only, except, call), key)
            == match Lookup(props, key)
               case None => None
               case Some(p) => Decide(p, key, isPartial, only, except, call)
    decreases |props|
  {
    if props != [] {
      var init := props[..|props| - 1];
      var rest := Evaluated(init, isPartial, only, except, call);
      var (k, p) := props[|props| - 1];
      assert props == init + [(k, p)];
      KeysSnoc(init, k, p);
      assert NoDuplicates(Keys(init)) by {
        assert Keys(init) == Keys(props)[..|init|];
      }
      EvaluatedAt(init, isPartial, only, except, call, key);
      LookupSnoc(init, k, p, key);
      var d := Decide(p, k, isPartial, only, except, call);
      if d.Some? {
        LookupSnoc(rest, k, d.value, key);
      }
      if key == k {
        assert key !in Keys(init);
        LookupKeys(init, key);
        EvaluatedKeysIn(init, isPartial, only, except, call, key);
      }
    }
  }

  /** A key the output holds is a key of the input. */
  lemma {:induction false} EvaluatedKeysIn(props: seq<(string, Prop)>, isPartial: bool, only: set<string>,
                                           except: set<string>, call: Thunk -> Datum, key: string)
    requires key !in Keys(props)
    ensures Lookup(Evaluated(props, isPartial, only, except, call), key) == None
    decreases |props|
  {
    if props != [] {
      var init := props[..|props| - 1];
      var rest := Evaluated(init, isPartial, only, except, call);
      assert Keys(props)[..|props| - 1] == Keys(init);
      assert Keys(props)[|props| - 1] == props[|props| - 1].0;
      EvaluatedKeysIn(init, isPartial, only, except, call, key);
      var (k, p) := props[|props| - 1];
      var d := Decide(p, k, isPartial, only, except, call);
      if d.Some? {
        LookupSnoc(rest, k, d.value, key);
      }
    }
  }

  /** Looking up in an array with one more entry at the end. */
  lemma {:induction false} LookupSnoc<V>(m: seq<(string, V)>, k: string, v: V, key: string)
    ensures Lookup(m + [(k, v)], key) == match Lookup(m, key) case Some(x) => Some(x) case None => if key == k then Some(v) else None
    decreases |m|
  {
    if m != [] {
      assert (m + [(k, v)])[1..] == m[1..] + [(k, v)];
      LookupSnoc(m[1..], k, v, key);
    }
  }

  /** An AlwaysProp is always sent, unwrapped, whatever the partial request asks. */
  lemma AlwaysKept(props: seq<(string, Prop)>, isPartial: bool, only: set<string>, except: set<string>,
                   call: Thunk -> Datum, key: string, p: Payload)
    requires NoDuplicates(Keys(props)) && Lookup(props, key) == Some(Always(p))
    ensures Lookup(Evaluated(props, isPartial, only, except, call), key) == Some(Unwrap(p, call))
  {
    EvaluatedAt(props, isPartial, only, except, call, key);
  }

  /** A full request drops lazy props, calls closures and keeps other values as they are. */
  lemma FullRequest(props: seq<(string, Prop)>, only: set<string>, except: set<string>,
                    call: Thunk -> Datum, key: string)
    requires NoDuplicates(Keys(props)) && Lookup(props, key).Some? && !Lookup(props, key).value.Always?
    ensures var out, p := Lookup(Evaluated(props, false, only, except, call), key), Lookup(props, key).value;
            && (p.Lazy? ==> out == None)
            && (p.Closure? ==> out == Some(call(p.fn)))
            && (p.Plain? ==> out == Some(p.data))
  {
    EvaluatedAt(props, false, only, except, call, key);
  }

  /**
   * In a partial request a prop that is not an AlwaysProp is dropped when
   * listed in except, even if also in only, and when not listed in only;
   * a listed one has its lazy prop or closure evaluated and a plain value
   * kept.
   */
  lemma PartialRequest(props: seq<(string, Prop)>, only: set<string>, except: set<string>,
                       call: Thunk -> Datum, key: string)
    requires NoDuplicates(Keys(props)) && Lookup(props, key).Some? && !Lookup(props, key).value.Always?
    ensures var out, p := Lookup(Evaluated(props, true, only, except, call), key), Lookup(props, key).value;
            && (key in except || key !in only ==> out == None)
            && (key !in except && key in only ==>
                  out == Some(match p case Lazy(f) => call(f) case Closure(f) => call(f) case Plain(d) => d case Always(_) => ""))
  {
    EvaluatedAt(props, true, only, except, call, key);
  }

  /** A partial request that lists nothing in only gets its AlwaysProps and nothing else. */
  lemma EmptyOnlyKeepsAlways(props: seq<(string, Prop)>, except: set<string>, call: Thunk -> Datum, key: string)
    requires NoDuplicates(Keys(props))
    ensures Lookup(Evaluated(props, true, {}, except, call), key).Some?
            <==> Lookup(props, key).Some? && Lookup(props, key).value.Always?
  {
    EvaluatedAt(props, true, {}, except, call, key);
  }

  // ---------------------------------------------------------------------------
  // The shared props and the view data

  /** The first argument of share and viewData: one key with the data, or an array merged in. */
  datatype KeyArg<V> = One(key: string) | Many(entries: seq<(string, V)>)

  /** $m[$key] = $data, or array_merge($m, $key). */
  function Assign<V>(m: seq<(string, V)>, key: KeyArg<V>, data: V): seq<(string, V)>
  {
    match key
    case One(k) => Put(m, k, data)
    case Many(entries) => Merge(m, entries)
  }

  /**
   * One key is set to the data; an array's keys take its values, later
   * ones winning; every other key keeps its value.
   */
  lemma AssignLookup<V>(m: seq<(string, V)>, key: KeyArg<V>, data: V, j: string)
    requires key.Many? ==> NoDuplicates(Keys(key.entries))
    ensures key.One? ==> Lookup(Assign(m, key, data), j) == if j == key.key then Some(data) else Lookup(m, j)
    ensures key.Many? ==> Lookup(Assign(m, key, data), j)
                          == if j in Keys(key.entries) then Lookup(key.entries, j) else Lookup(m, j)
  {
    if key.One? {
      PutLookup(m, key.key, data, j);
    } else {
      MergeLookup(m, key.entries, j);
    }
  }

  /** Merging keeps keys unique. */
  lemma {:induction false} MergeUnique<V>(a: seq<(string, V)>, b: seq<(string, V)>)
    requires NoDuplicates(Keys(a))
    ensures NoDuplicates(Keys(Merge(a, b)))
    decreases |b|
  {
    if b != [] {
      PutFacts(a, b[0].0, b[0].1);
      MergeUnique(Put(a, b[0].0, b[0].1), b[1..]);
    }
  }

  /** The static state of the plugin. */
  class InertiaState {
    var version: string
    var viewData: seq<(string, Datum)>
    var sharedProps: seq<(string, Prop)>

    /** Keys of both maps are unique, as in any PHP array. */
    ghost predicate Valid()
      reads this
    {
      NoDuplicates(Keys(viewData)) && NoDuplicates(Keys(sharedProps))
    }

    constructor(version: string)
      ensures Valid() && this.version == version && viewData == [] && sharedProps == []
    {
      this.version := version;
      viewData, sharedProps := [], [];
    }

    /** viewData. */
    method ViewData(key: KeyArg<Datum>, data: Datum)
      requires Valid()
      modifies this
      ensures Valid() && viewData == Assign(old(viewData), key, data)
      ensures sharedProps == old(sharedProps) && version == old(version)
    {
      if key.One? {
        PutFacts(viewData, key.key, data);
      } else {
        MergeUnique(viewData, key.entries);
      }
      viewData := Assign(viewData, key, data);
    }

    /** share. */
    method Share(key: KeyArg<Prop>, data: Prop)
      requires Valid()
      modifies this
      ensures Valid() && sharedProps == Assign(old(sharedProps), key, data)
      ensures viewData == old(viewData) && version == old(version)
    {
      if key.One? {
        PutFacts(sharedProps, key.key, data);
      } else {
        MergeUnique(sharedProps, key.entries);
      }
      sharedProps := Assign(sharedProps, key, data);
    }

    /** flushViewData. */
    method FlushViewData()
      requires Valid()
      modifies this
      ensures Valid() && viewData == [] && sharedProps == old(sharedProps) && version == old(version)
    {
      viewData := [];
    }

    /** flushShared. */
    method FlushShared()
      requires Valid()
      modifies this
      ensures Valid() && sharedProps == [] && viewData == old(viewData) && version == old(version)
    {
      sharedProps := [];
    }

    /**
     * The props of the page render builds: the page props merged with the
     * shared ones, then evaluated.
     */
    method PageProps(props: seq<(string, Prop)>, isPartial: bool, only: set<string>, except: set<string>,
                     call: Thunk -> Datum) returns (out: seq<(string, Datum)>)
      requires Valid()
      ensures out == Evaluated(Merge(props, sharedProps), isPartial, only, except, call)
    {
      out := EvaluateProps(Merge(props, sharedProps), isPartial, only, except, call);
    }
  }

  /** A shared prop overrides the page prop of the same name. */
  lemma SharedOverrides(props: seq<(string, Prop)>, shared: seq<(string, Prop)>, key: string)
    requires NoDuplicates(Keys(shared))
    ensures key in Keys(shared) ==> Lookup(Merge(props, shared), key) == Lookup(shared, key)
    ensures key !in Keys(shared) ==> Lookup(Merge(props, shared), key) == Lookup(props, key)
  {
    MergeLookup(props, shared, key);
  }

  // ---------------------------------------------------------------------------
  // The decisions of render

  /**
   * How PHP reads a numeric string (optional surrounding whitespace, sign,
   * digits, fraction, exponent): the number it compares, None for a string
   * that is not numeric.
   */
  type Numeric = string -> Option<real>

  /** Both strings are numeric and read as the same number. */
  predicate SameNumber(a: string, b: string, num: Numeric)
  {
    num(a).Some? && num(b).Some? && num(a).value == num(b).value
  }

  /**
   * PHP 8's == between a header (null when absent) and a string: null equals
   * only ''; two strings are equal when they are the same bytes or both
   * numeric with the same value.
   */
  predicate LooseEquals(header: Option<string>, s: string, num: Numeric)
  {
    match header
    case None => s == ""
    case Some(h) => h == s || SameNumber(h, s, num)
  }

  /** The request is partial when the partial-component header names the component. */
  predicate IsPartial(partialComponent: Option<string>, component: string, num: Numeric)
  {
    LooseEquals(partialComponent, component, num)
  }

  /** array_flip(array_filter(explode(',', $header))): the listed names; '' and '0' are filtered out as falsy. */
  function Listed(header: string): (r: set<string>)
    ensures "" !in r && "0" !in r
    ensures forall x :: x in r <==> x in Explode(header, ',') && x != "" && x != "0"
  {
    var pieces := Explode(header, ',');
    set x | x in pieces && x != "" && x != "0"
  }

  /** What render throws before it answers: explode given a missing header, under strict_types. */
  datatype Thrown = TypeError

  /** How render answers. */
  datatype Answer = Html | Location(url: string) | Json

  /**
   * Without the X-Inertia header the HTML view is sent; otherwise a GET
   * whose version header differs from the version is redirected to the
   * page's URL; otherwise the page is sent as JSON.
   */
  function RenderAnswer(hasInertia: bool, requestMethod: string, versionHeader: Option<string>, version: string,
                        url: string, num: Numeric): (a: Answer)
    ensures a.Location? ==> a.url == url
    ensures a.Html? <==> !hasInertia
  {
    if !hasInertia then Html
    else if requestMethod == "GET" && !LooseEquals(versionHeader, version, num) then Location(url)
    else Json
  }

  /**
   * A redirect happens exactly for an Inertia GET whose version header is
   * not the version: absent while the version is not '', or present, not
   * the same bytes and not the same number.
   */
  lemma RedirectWhen(hasInertia: bool, requestMethod: string, versionHeader: Option<string>, version: string,
                     url: string, num: Numeric)
    ensures RenderAnswer(hasInertia, requestMethod, versionHeader, version, url, num).Location?
            <==> && hasInertia && requestMethod == "GET"
                 && (versionHeader.None? ==> version != "")
                 && (versionHeader.Some? ==> versionHeader.value != version && !SameNumber(versionHeader.value, version, num))
  {
  }

  /** Version "01" against "1": both read as the number 1, so PHP sends JSON instead of redirecting. */
  lemma NumericVersionsMatch(num: Numeric, url: string)
    requires num("01") == Some(1.0) && num("1") == Some(1.0)
    ensures RenderAnswer(true, "GET", Some("01"), "1", url, num) == Json
  {
    assert SameNumber("01", "1", num);
  }

  /**
   * The props of render: only and except come from their headers on a
   * partial request, and a partial request missing either header throws.
   */
  function PartialProps(props: seq<(string, Prop)>, shared: seq<(string, Prop)>, component: string,
                        partialComponent: Option<string>, onlyHeader: Option<string>, exceptHeader: Option<string>,
                        call: Thunk -> Datum, num: Numeric): (r: Result<seq<(string, Datum)>, Thrown>)
    ensures r.Err? <==> IsPartial(partialComponent, component, num) && (onlyHeader.None? || exceptHeader.None?)
    ensures !IsPartial(partialComponent, component, num) ==> r == Ok(Evaluated(Merge(props, shared), false, {}, {}, call))
  {
    if !IsPartial(partialComponent, component, num) then Ok(Evaluated(Merge(props, shared), false, {}, {}, call))
    else if onlyHeader.None? || exceptHeader.None? then Err(TypeError)
    else Ok(Evaluated(Merge(props, shared), true, Listed(onlyHeader.value), Listed(exceptHeader.value), call))
  }

  /** A request for another component is answered like a full request, whatever only and except say. */
  lemma OtherComponentIsFull(props: seq<(string, Prop)>, shared: seq<(string, Prop)>, component: string,
                             partialComponent: string, onlyHeader: Option<string>, exceptHeader: Option<string>,
                             call: Thunk -> Datum, num: Numeric, key: string)
    requires partialComponent != component && !SameNumber(partialComponent, component, num) && NoDuplicates(Keys(props))
    requires Lookup(Merge(props, shared), key).Some? && Lookup(Merge(props, shared), key).value.Lazy?
    ensures var r := PartialProps(props, shared, component, Some(partialComponent), onlyHeader, exceptHeader, call, num);
            r.Ok? && Lookup(r.value, key) == None
  {
    MergeUnique(props, shared);
    EvaluatedAt(Merge(props, shared), false, {}, {}, call, key);
  }
}
