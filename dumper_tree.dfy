/**
 * compileStaticPrefixCollection as a function on values: how one chunk's
 * static-prefix tree is spelled into the chunk regex, and where its marks
 * and route lists go.
 *
 * The tree itself comes from StaticPrefixCollection, which is not part of
 * this model. It is an ordered tree: leaves in insertion order, every node
 * non-empty, a child's prefix extending its parent's, and a leaf's regex
 * starting with the prefix of the node that holds it (WellFormed).
 */
module DumperTree {
  import opened Common
  import opened RouteTable
  import opened RoutesDumper

  /** A leaf is [$regex, $vars, $route]; a node has a prefix and its children in order. */
  datatype Item = Leaf(regex: string, vars: seq<string>, route: RouteInfo) | Node(prefix: string, items: seq<Item>)

  /** The shape StaticPrefixCollection guarantees, below a node whose prefix is `prefix`. */
  predicate WellFormed(items: seq<Item>, prefix: string)
    decreases items
  {
    forall i :: 0 <= i < |items| ==>
      match items[i]
      case Leaf(rx, _, _) => prefix <= rx
      case Node(p, ch) => prefix <= p && ch != [] && WellFormed(ch, p)
  }

  lemma WellFormedTail(items: seq<Item>, prefix: string)
    requires items != [] && WellFormed(items, prefix)
    ensures WellFormed(items[1..], prefix)
  {
    forall i | 0 <= i < |items| - 1
      ensures items[1..][i] == items[i + 1]
    {
    }
  }

  /** The leaves of a tree, left to right. */
  function Leaves(items: seq<Item>): seq<Item>
    decreases items
  {
    if items == [] then []
    else
      match items[0]
      case Leaf(_, _, _) => [items[0]] + Leaves(items[1..])
      case Node(_, ch) => Leaves(ch) + Leaves(items[1..])
  }

  lemma LeavesStep(items: seq<Item>)
    requires items != []
    ensures Leaves(items) == match items[0]
                             case Leaf(_, _, _) => [items[0]] + Leaves(items[1..])
                             case Node(_, ch) => Leaves(ch) + Leaves(items[1..])
  {
  }

  /** The route list a leaf contributes: compileRoute with the leaf's variable names. */
  function EntryOfLeaf(it: Item): Option<Entry>
  {
    match it
    case Leaf(_, vars, r) => Some(EntryOf(r, Some(vars)))
    case Node(_, _) => None
  }

  /** The entries of a list of leaves, in order. */
  function Entries(leaves: seq<Item>): (es: seq<Option<Entry>>)
    ensures |es| == |leaves| && forall k :: 0 <= k < |leaves| ==> es[k] == EntryOfLeaf(leaves[k])
  {
    seq(|leaves|, k requires 0 <= k < |leaves| => EntryOfLeaf(leaves[k]))
  }

  // ---------------------------------------------------------------------------
  // The dumper's $state while a chunk is spelled

  /**
   * The alternatives spelled so far, the text after the last verb, the
   * running mark and markTail, and the route lists per mark.
   */
  datatype Emission = Emission(alts: seq<Alt>, pending: string, mark: nat, markTail: nat,
                               routes: map<nat, seq<Option<Entry>>>)

  /** $state->routes[$m][] = $x. */
  function AppendAt(routes: map<nat, seq<Option<Entry>>>, m: nat, x: Option<Entry>): (r: map<nat, seq<Option<Entry>>>)
    ensures r.Keys == routes.Keys + {m} && RoutesAt(r, m) == RoutesAt(routes, m) + [x]
    ensures forall k :: k != m ==> RoutesAt(r, k) == RoutesAt(routes, k)
  {
    routes[m := RoutesAt(routes, m) + [x]]
  }

  /** The text "|" + prefix + "(?" that opens a node, after the parent's prefix. */
  function NodeOpen(p: string, prefix: string): string
    requires prefix <= p
  {
    "|" + p[|prefix|..] + "(?"
  }

  /** Entering a node: its opening text is spelled and counted in the mark. */
  function Open(e: Emission, p: string, prefix: string): (e': Emission)
    requires prefix <= p
    ensures e' == e.(pending := e.pending + NodeOpen(p, prefix), mark := e.mark + |NodeOpen(p, prefix)|)
  {
    e.(pending := e.pending + NodeOpen(p, prefix), mark := e.mark + |NodeOpen(p, prefix)|)
  }

  /** Leaving a node: its ")" is spelled and counted in markTail. */
  function Close(e: Emission): (e': Emission)
    ensures e' == e.(pending := e.pending + ")", markTail := e.markTail + 1)
  {
    e.(pending := e.pending + ")", markTail := e.markTail + 1)
  }

  /** A leaf with the same regex as the previous one: its entry joins the previous mark's list. */
  function Share(e: Emission, x: Option<Entry>): (e': Emission)
    ensures e' == e.(routes := AppendAt(e.routes, e.mark, x))
  {
    e.(routes := AppendAt(e.routes, e.mark, x))
  }

  /**
   * The state after spelling `items` under a node of prefix `prefix`, where
   * `prev` is the full regex of the leaf spelled just before at this level
   * (none at the start of a level and after a node).
   */
  function Emit(items: seq<Item>, prefix: string, prev: Option<string>, e: Emission): Emission
    requires WellFormed(items, prefix)
    decreases items
  {
    if items == [] then e
    else
      WellFormedTail(items, prefix);
      match items[0]
      case Node(p, ch) =>
        Emit(items[1..], prefix, None, Close(Emit(ch, p, None, Open(e, p, prefix))))
      case Leaf(rx, vars, r) =>
        if prev == Some(r.compiled.regex) then
          Emit(items[1..], prefix, prev, Share(e, EntryOfLeaf(items[0])))
        else
          Emit(items[1..], prefix, Some(r.compiled.regex), NewLeaf(e, rx, prefix, EntryOfLeaf(items[0])))
  }

  /**
   * A leaf whose regex differs from the previous one: its mark moves past
   * "|" + suffix + "(*:" and the tail of the last verb, the alternative is
   * spelled, and the mark gets a fresh list.
   */
  function NewLeaf(e: Emission, rx: string, prefix: string, x: Option<Entry>): (e': Emission)
    requires prefix <= rx
    ensures e'.mark == e.mark + 3 + e.markTail + |rx| - |prefix| && e'.pending == ""
    ensures e'.alts == e.alts + [Alt(e.pending + "|" + rx[|prefix|..], e'.mark, true)]
    ensures e'.markTail == 2 + |Digits(e'.mark)| && e'.routes == e.routes[e'.mark := [x]]
  {
    var m := e.mark + 3 + e.markTail + |rx| - |prefix|;
    Emission(e.alts + [Alt(e.pending + "|" + rx[|prefix|..], m, true)], "", m, 2 + |Digits(m)|, e.routes[m := [x]])
  }

  // ---------------------------------------------------------------------------
  // The mark invariant

  /**
   * The counters agree with the text: mark + markTail is the length of the
   * chunk spelled so far, measured from `key`, and every alternative's mark
   * is the index of its ':' plus `key`.
   */
  predicate Tracks(key: nat, e: Emission)
  {
    e.mark + e.markTail == key + |Render(e.alts)| + |e.pending| && WellMarked(key, e.alts)
  }

  /** When the previous leaf at this level is remembered, the running mark is the last alternative's. */
  predicate Sharing(prev: Option<string>, e: Emission)
  {
    prev.Some? ==> e.alts != [] && e.alts[|e.alts| - 1].mark == e.mark
  }

  lemma PosSnoc(alts: seq<Alt>, a: Alt, i: nat)
    requires i < |alts|
    ensures Pos(alts + [a], i) == Pos(alts, i)
  {
    assert (alts + [a])[..i] == alts[..i];
  }

  /** A new leaf keeps the invariant: its mark is the index of its own ':'. */
  lemma NewLeafTracks(key: nat, e: Emission, rx: string, prefix: string, x: Option<Entry>)
    requires Tracks(key, e) && prefix <= rx
    ensures Tracks(key, NewLeaf(e, rx, prefix, x)) && Sharing(Some(rx), NewLeaf(e, rx, prefix, x))
  {
    var e' := NewLeaf(e, rx, prefix, x);
    var a := e'.alts[|e.alts|];
    RenderSnoc(e.alts, a);
    assert Pos(e'.alts, |e.alts|) == |Render(e.alts)| + |a.pre| + 2 by {
      assert e'.alts[..|e.alts|] == e.alts;
    }
    forall i | 0 <= i < |e.alts|
      ensures e'.alts[i].enabled && e'.alts[i].mark == key + Pos(e'.alts, i)
    {
      PosSnoc(e.alts, a, i);
    }
  }

  /** Emit on a non-empty list, one item at a time. */
  lemma EmitStep(items: seq<Item>, prefix: string, prev: Option<string>, e: Emission)
    requires items != [] && WellFormed(items, prefix)
    ensures WellFormed(items[1..], prefix)
    ensures match items[0]
            case Node(p, ch) =>
              prefix <= p && ch != [] && WellFormed(ch, p)
              && Emit(items, prefix, prev, e) == Emit(items[1..], prefix, None, Close(Emit(ch, p, None, Open(e, p, prefix))))
            case Leaf(rx, _, r) =>
              prefix <= rx
              && Emit(items, prefix, prev, e)
                 == if prev == Some(r.compiled.regex) then Emit(items[1..], prefix, prev, Share(e, EntryOfLeaf(items[0])))
                    else Emit(items[1..], prefix, Some(r.compiled.regex), NewLeaf(e, rx, prefix, EntryOfLeaf(items[0])))
  {
    WellFormedTail(items, prefix);
  }

  lemma OpenCloseTracks(key: nat, e: Emission, p: string, prefix: string)
    requires Tracks(key, e) && prefix <= p
    ensures Tracks(key, Open(e, p, prefix)) && Tracks(key, Close(e))
  {
  }

  /** Spelling a tree keeps the mark invariant. */
  lemma {:induction false} EmitTracks(items: seq<Item>, prefix: string, prev: Option<string>, e: Emission, key: nat)
    requires WellFormed(items, prefix) && Tracks(key, e)
    ensures Tracks(key, Emit(items, prefix, prev, e))
    decreases items
  {
    if items != [] {
      EmitStep(items, prefix, prev, e);
      match items[0]
      case Node(p, ch) =>
        OpenCloseTracks(key, e, p, prefix);
        EmitTracks(ch, p, None, Open(e, p, prefix), key);
        var e2 := Emit(ch, p, None, Open(e, p, prefix));
        OpenCloseTracks(key, e2, p, prefix);
        EmitTracks(items[1..], prefix, None, Close(e2), key);
      case Leaf(rx, vars, r) =>
        if prev == Some(r.compiled.regex) {
          EmitTracks(items[1..], prefix, prev, Share(e, EntryOfLeaf(items[0])), key);
        } else {
          NewLeafTracks(key, e, rx, prefix, EntryOfLeaf(items[0]));
          EmitTracks(items[1..], prefix, Some(r.compiled.regex), NewLeaf(e, rx, prefix, EntryOfLeaf(items[0])), key);
        }
    }
  }

  /** A non-empty tree ends with the running mark on its last alternative. */
  lemma {:induction false} EmitEndsOnMark(items: seq<Item>, prefix: string, prev: Option<string>, e: Emission)
    requires WellFormed(items, prefix) && Sharing(prev, e)
    ensures var r := Emit(items, prefix, prev, e);
            items != [] ==> r.alts != [] && r.alts[|r.alts| - 1].mark == r.mark
    decreases items
  {
    if items != [] {
      EmitStep(items, prefix, prev, e);
      match items[0]
      case Node(p, ch) =>
        EmitEndsOnMark(ch, p, None, Open(e, p, prefix));
        EmitEndsOnMark(items[1..], prefix, None, Close(Emit(ch, p, None, Open(e, p, prefix))));
      case Leaf(rx, vars, r) =>
        if prev == Some(r.compiled.regex) {
          EmitEndsOnMark(items[1..], prefix, prev, Share(e, EntryOfLeaf(items[0])));
        } else {
          EmitEndsOnMark(items[1..], prefix, Some(r.compiled.regex), NewLeaf(e, rx, prefix, EntryOfLeaf(items[0])));
        }
    }
  }

  /** Spelling a tree only appends alternatives. */
  lemma {:induction false} EmitExtends(items: seq<Item>, prefix: string, prev: Option<string>, e: Emission)
    requires WellFormed(items, prefix)
    ensures var r := Emit(items, prefix, prev, e);
            |e.alts| <= |r.alts| && r.alts[..|e.alts|] == e.alts
    decreases items
  {
    if items != [] {
      EmitStep(items, prefix, prev, e);
      match items[0]
      case Node(p, ch) =>
        EmitExtends(ch, p, None, Open(e, p, prefix));
        var e2 := Emit(ch, p, None, Open(e, p, prefix));
        EmitExtends(items[1..], prefix, None, Close(e2));
        PrefixTrans(e.alts, e2.alts, Emit(items, prefix, prev, e).alts);
      case Leaf(rx, vars, r) =>
        if prev == Some(r.compiled.regex) {
          EmitExtends(items[1..], prefix, prev, Share(e, EntryOfLeaf(items[0])));
        } else {
          var e' := NewLeaf(e, rx, prefix, EntryOfLeaf(items[0]));
          EmitExtends(items[1..], prefix, Some(r.compiled.regex), e');
          assert e'.alts[..|e.alts|] == e.alts;
          PrefixTrans(e.alts, e'.alts, Emit(items, prefix, prev, e).alts);
        }
    }
  }

  // ---------------------------------------------------------------------------
  // Where the route lists go

  /** The lists stored under the marks of `alts`, one after the other. */
  function Stored(routes: map<nat, seq<Option<Entry>>>, alts: seq<Alt>): seq<Option<Entry>>
    decreases |alts|
  {
    if alts == [] then [] else Stored(routes, alts[..|alts| - 1]) + RoutesAt(routes, alts[|alts| - 1].mark)
  }

  lemma StoredSnoc(routes: map<nat, seq<Option<Entry>>>, alts: seq<Alt>, a: Alt)
    ensures Stored(routes, alts + [a]) == Stored(routes, alts) + RoutesAt(routes, a.mark)
  {
    assert (alts + [a])[..|alts|] == alts;
  }

  /** Changing lists under other marks does not change what `alts` stores. */
  lemma {:induction false} StoredElsewhere(routes: map<nat, seq<Option<Entry>>>, routes': map<nat, seq<Option<Entry>>>, alts: seq<Alt>)
    requires forall i :: 0 <= i < |alts| ==> RoutesAt(routes', alts[i].mark) == RoutesAt(routes, alts[i].mark)
    ensures Stored(routes', alts) == Stored(routes, alts)
    decreases |alts|
  {
    if alts != [] {
      StoredElsewhere(routes, routes', alts[..|alts| - 1]);
    }
  }

  lemma EntriesAppend(a: seq<Item>, b: seq<Item>)
    ensures Entries(a + b) == Entries(a) + Entries(b)
  {
  }

  /** The entries of a leaf-headed sequence: the leaf's own entry, then those of the rest. */
  lemma LeafEntries(items: seq<Item>)
    requires items != [] && items[0].Leaf?
    ensures Entries(Leaves(items)) == [EntryOfLeaf(items[0])] + Entries(Leaves(items[1..]))
  {
    LeavesStep(items);
    EntriesAppend([items[0]], Leaves(items[1..]));
  }

  /** A new leaf's mark is above every earlier one, so its fresh list lands after all earlier lists. */
  lemma NewLeafStores(key: nat, e: Emission, rx: string, prefix: string, x: Option<Entry>)
    requires Tracks(key, e) && prefix <= rx
    ensures var e' := NewLeaf(e, rx, prefix, x);
            Stored(e'.routes, e'.alts) == Stored(e.routes, e.alts) + [x]
  {
    var e' := NewLeaf(e, rx, prefix, x);
    NewLeafTracks(key, e, rx, prefix, x);
    var n := |e.alts|;
    forall i | 0 <= i < n
      ensures RoutesAt(e'.routes, e.alts[i].mark) == RoutesAt(e.routes, e.alts[i].mark)
    {
      MarksIncrease(key, e'.alts, i, n);
    }
    StoredElsewhere(e.routes, e'.routes, e.alts);
    StoredSnoc(e'.routes, e.alts, e'.alts[n]);
  }

  /** A shared leaf's entry goes at the end of the last alternative's list. */
  lemma ShareStores(key: nat, e: Emission, x: Option<Entry>)
    requires Tracks(key, e) && e.alts != [] && e.alts[|e.alts| - 1].mark == e.mark
    ensures Stored(Share(e, x).routes, e.alts) == Stored(e.routes, e.alts) + [x]
  {
    var n := |e.alts| - 1;
    var init := e.alts[..n];
    var routes' := Share(e, x).routes;
    forall i | 0 <= i < n
      ensures RoutesAt(routes', init[i].mark) == RoutesAt(e.routes, init[i].mark)
    {
      MarksIncrease(key, e.alts, i, n);
    }
    StoredElsewhere(e.routes, routes', init);
    AppendAssoc(Stored(e.routes, init), RoutesAt(e.routes, e.mark), [x]);
  }

  /**
   * Spelling a tree stores its leaves' entries, in leaf order, under the
   * marks of the alternatives it spells: consecutive leaves with the same
   * regex share one mark, and every other leaf opens a mark of its own.
   */
  lemma {:induction false} EmitStores(items: seq<Item>, prefix: string, prev: Option<string>, e: Emission, key: nat)
    requires WellFormed(items, prefix) && Tracks(key, e) && Sharing(prev, e)
    ensures var r := Emit(items, prefix, prev, e);
            Stored(r.routes, r.alts) == Stored(e.routes, e.alts) + Entries(Leaves(items))
    decreases items, 1
  {
    if items == [] {
      AppendNil(Stored(e.routes, e.alts));
    } else if items[0].Node? {
      NodeStores(items, prefix, prev, e, key);
    } else {
      LeafStores(items, prefix, prev, e, key);
    }
  }

  lemma {:induction false} NodeStores(items: seq<Item>, prefix: string, prev: Option<string>, e: Emission, key: nat)
    requires WellFormed(items, prefix) && Tracks(key, e) && items != [] && items[0].Node?
    ensures var r := Emit(items, prefix, prev, e);
            Stored(r.routes, r.alts) == Stored(e.routes, e.alts) + Entries(Leaves(items))
    decreases items, 0
  {
    EmitStep(items, prefix, prev, e);
    LeavesStep(items);
    var rest := items[1..];
    var p, ch := items[0].prefix, items[0].items;
    OpenCloseTracks(key, e, p, prefix);
    EmitStores(ch, p, None, Open(e, p, prefix), key);
    EmitTracks(ch, p, None, Open(e, p, prefix), key);
    var e2 := Emit(ch, p, None, Open(e, p, prefix));
    OpenCloseTracks(key, e2, p, prefix);
    EmitStores(rest, prefix, None, Close(e2), key);
    EntriesAppend(Leaves(ch), Leaves(rest));
    AppendAssoc(Stored(e.routes, e.alts), Entries(Leaves(ch)), Entries(Leaves(rest)));
  }

  lemma {:induction false} LeafStores(items: seq<Item>, prefix: string, prev: Option<string>, e: Emission, key: nat)
    requires WellFormed(items, prefix) && Tracks(key, e) && Sharing(prev, e) && items != [] && items[0].Leaf?
    ensures var r := Emit(items, prefix, prev, e);
            Stored(r.routes, r.alts) == Stored(e.routes, e.alts) + Entries(Leaves(items))
    decreases items, 0
  {
    EmitStep(items, prefix, prev, e);
    var rest := items[1..];
    var rx, r := items[0].regex, items[0].route;
    var x := EntryOfLeaf(items[0]);
    var shared := prev == Some(r.compiled.regex);
    var e' := if shared then Share(e, x) else NewLeaf(e, rx, prefix, x);
    var prev' := if shared then prev else Some(r.compiled.regex);
    if shared {
      ShareStores(key, e, x);
    } else {
      NewLeafStores(key, e, rx, prefix, x);
      NewLeafTracks(key, e, rx, prefix, x);
    }
    assert Emit(items, prefix, prev, e) == Emit(rest, prefix, prev', e');
    EmitStores(rest, prefix, prev', e', key);
    LeafEntries(items);
    AppendAssoc(Stored(e.routes, e.alts), [x], Entries(Leaves(rest)));
  }

  /** The running mark never decreases, and no list below the starting mark is touched. */
  lemma {:induction false} EmitAbove(items: seq<Item>, prefix: string, prev: Option<string>, e: Emission)
    requires WellFormed(items, prefix)
    ensures var r := Emit(items, prefix, prev, e);
            e.mark <= r.mark && forall k: nat :: k < e.mark ==> RoutesAt(r.routes, k) == RoutesAt(e.routes, k)
    decreases items
  {
    if items != [] {
      EmitStep(items, prefix, prev, e);
      match items[0]
      case Node(p, ch) =>
        EmitAbove(ch, p, None, Open(e, p, prefix));
        EmitAbove(items[1..], prefix, None, Close(Emit(ch, p, None, Open(e, p, prefix))));
      case Leaf(rx, vars, r) =>
        if prev == Some(r.compiled.regex) {
          EmitAbove(items[1..], prefix, prev, Share(e, EntryOfLeaf(items[0])));
        } else {
          EmitAbove(items[1..], prefix, Some(r.compiled.regex), NewLeaf(e, rx, prefix, EntryOfLeaf(items[0])));
        }
    }
  }

  // ---------------------------------------------------------------------------
  // The text spelled so far

  /** $state->regex in the chunk being spelled: the alternatives, then the text after the last verb. */
  function Text(e: Emission): string
  {
    Render(e.alts) + e.pending
  }

  lemma TextSteps(e: Emission, p: string, prefix: string, rx: string, x: Option<Entry>)
    requires prefix <= p && prefix <= rx
    ensures Text(Open(e, p, prefix)) == Text(e) + NodeOpen(p, prefix)
    ensures Text(Close(e)) == Text(e) + ")"
    ensures Text(Share(e, x)) == Text(e)
    ensures var e' := NewLeaf(e, rx, prefix, x);
            Text(e') == Text(e) + ("|" + rx[|prefix|..]) + Verb(e'.alts[|e.alts|])
  {
    AppendAssoc(Render(e.alts), e.pending, NodeOpen(p, prefix));
    AppendAssoc(Render(e.alts), e.pending, ")");
    TextNewLeaf(e, rx, prefix, x);
  }

  lemma TextNewLeaf(e: Emission, rx: string, prefix: string, x: Option<Entry>)
    requires prefix <= rx
    ensures var e' := NewLeaf(e, rx, prefix, x);
            Text(e') == Text(e) + ("|" + rx[|prefix|..]) + Verb(e'.alts[|e.alts|])
  {
    var e' := NewLeaf(e, rx, prefix, x);
    var a := e'.alts[|e.alts|];
    var sub := "|" + rx[|prefix|..];
    assert e'.alts == e.alts + [a];
    RenderSnoc(e.alts, a);
    assert a.pre == e.pending + sub by {
      AppendAssoc(e.pending, "|", rx[|prefix|..]);
    }
    AppendNil(Render(e'.alts));
    AppendAssoc(Render(e.alts), e.pending, sub);
  }

  /** Spelling only ever appends to the text: the regex grows at its end. */
  lemma {:induction false} EmitAppendsText(items: seq<Item>, prefix: string, prev: Option<string>, e: Emission)
    requires WellFormed(items, prefix)
    ensures Text(e) <= Text(Emit(items, prefix, prev, e))
    decreases items
  {
    if items != [] {
      EmitStep(items, prefix, prev, e);
      var r := Emit(items, prefix, prev, e);
      match items[0]
      case Node(p, ch) =>
        var e1 := Open(e, p, prefix);
        TextSteps(e, p, prefix, p, None);
        PrefixAppend(Text(e), NodeOpen(p, prefix));
        EmitAppendsText(ch, p, None, e1);
        var e2 := Emit(ch, p, None, e1);
        TextSteps(e2, p, prefix, p, None);
        PrefixAppend(Text(e2), ")");
        EmitAppendsText(items[1..], prefix, None, Close(e2));
        PrefixOrder(Text(e), Text(e1), Text(e2));
        PrefixOrder(Text(e), Text(e2), Text(Close(e2)));
        PrefixOrder(Text(e), Text(Close(e2)), Text(r));
      case Leaf(rx, vars, rt) =>
        var x := EntryOfLeaf(items[0]);
        TextSteps(e, rx, prefix, rx, x);
        if prev == Some(rt.compiled.regex) {
          EmitAppendsText(items[1..], prefix, prev, Share(e, x));
        } else {
          var e' := NewLeaf(e, rx, prefix, x);
          PrefixAppend(Text(e), "|" + rx[|prefix|..]);
          PrefixAppend(Text(e) + ("|" + rx[|prefix|..]), Verb(e'.alts[|e.alts|]));
          PrefixOrder(Text(e), Text(e) + ("|" + rx[|prefix|..]), Text(e'));
          EmitAppendsText(items[1..], prefix, Some(rt.compiled.regex), e');
          PrefixOrder(Text(e), Text(e'), Text(r));
        }
    }
  }
}
