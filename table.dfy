/**
 * The compiled route table that the dumper builds and the matcher reads.
 *
 * Each dynamic chunk is one regex string. Its alternatives end in a
 * "(*:mark)" verb, which tells the matcher which routes to try. The model
 * keeps, next to the string, the ordered list of those alternatives: the
 * text before each verb, its mark, and whether the verb is still "(*:mark)"
 * or has been disabled to "(*F)". Render spells the list back as the string.
 */
module RouteTable {
  import opened Common

  /**
   * compileRoute: the route's action and the set of methods it accepts
   * (array_flip of the method list, so membership is what counts); a
   * dynamic route also carries its variable names, in group order.
   */
  datatype Entry = Entry(action: seq<string>, methods: seq<string>, vars: Option<seq<string>>)

  /** One alternative: the text before its verb, its mark, and whether the verb still reads "(*:mark)". */
  datatype Alt = Alt(pre: string, mark: nat, enabled: bool)

  /** The verb closing an alternative. */
  function Verb(a: Alt): (v: string)
    ensures |v| >= 4 && v[0] == '(' && v[1] == '*' && v[|v| - 1] == ')'
    ensures !a.enabled ==> v == "(*F)"
  {
    if a.enabled then "(*:" + Digits(a.mark) + ")" else "(*F)"
  }

  /** The alternatives spelled out, in order. */
  function Render(alts: seq<Alt>): string
    decreases |alts|
  {
    if alts == [] then "" else Render(alts[..|alts| - 1]) + alts[|alts| - 1].pre + Verb(alts[|alts| - 1])
  }

  lemma RenderSnoc(alts: seq<Alt>, a: Alt)
    ensures Render(alts + [a]) == Render(alts) + a.pre + Verb(a)
  {
    assert (alts + [a])[..|alts|] == alts;
  }

  lemma {:induction false} RenderAppend(a: seq<Alt>, b: seq<Alt>)
    ensures Render(a + b) == Render(a) + Render(b)
    decreases |b|
  {
    if b == [] {
      AppendNil(a);
      AppendNil(Render(a));
    } else {
      var init, last := b[..|b| - 1], b[|b| - 1];
      assert a + b == (a + init) + [last];
      RenderSnoc(a + init, last);
      RenderAppend(a, init);
      RenderSnoc(init, last);
      assert b == init + [last];
      AppendAssoc(Render(a), Render(init), last.pre + Verb(last));
      AppendAssoc(Render(a) + Render(init), last.pre, Verb(last));
      AppendAssoc(Render(init), last.pre, Verb(last));
    }
  }

  /** The index of alternative i's ':' (or of the 'F' of a disabled verb) inside Render(alts). */
  function Pos(alts: seq<Alt>, i: nat): nat
    requires i < |alts|
  {
    |Render(alts[..i])| + |alts[i].pre| + 2
  }

  /** Every alternative is enabled, and its mark minus the chunk key is the index of its ':'. */
  predicate WellMarked(key: nat, alts: seq<Alt>)
  {
    && (forall i :: 0 <= i < |alts| ==> alts[i].enabled)
    && (forall i {:trigger Pos(alts, i)} :: 0 <= i < |alts| ==> alts[i].mark == key + Pos(alts, i))
  }

  /** Render around alternative i: the text before it, its own text, and the rest. */
  lemma RenderAround(alts: seq<Alt>, i: nat)
    requires i < |alts|
    ensures Render(alts) == Render(alts[..i]) + alts[i].pre + Verb(alts[i]) + Render(alts[i + 1..])
  {
    assert alts == alts[..i + 1] + alts[i + 1..];
    RenderAppend(alts[..i + 1], alts[i + 1..]);
    TakeSnoc(alts, i);
    RenderSnoc(alts[..i], alts[i]);
  }

  /** The verb of alternative i sits in Render(alts) two bytes before Pos; with WellMarked, ':' is at mark - key. */
  lemma VerbAt(alts: seq<Alt>, i: nat)
    requires i < |alts|
    ensures var p := Pos(alts, i);
            p + |Verb(alts[i])| - 2 <= |Render(alts)|
            && Render(alts)[p - 2..p - 2 + |Verb(alts[i])|] == Verb(alts[i])
  {
    RenderAround(alts, i);
    var before := Render(alts[..i]) + alts[i].pre;
    AppendAssoc(before, Verb(alts[i]), Render(alts[i + 1..]));
    assert |before| == Pos(alts, i) - 2;
  }

  /** Positions grow by at least the verb's length from one alternative to the next. */
  lemma PosNext(alts: seq<Alt>, i: nat)
    requires i + 1 < |alts|
    ensures Pos(alts, i) + |Verb(alts[i])| - 2 + |alts[i + 1].pre| + 2 == Pos(alts, i + 1)
  {
    TakeSnoc(alts, i);
    RenderSnoc(alts[..i], alts[i]);
  }

  lemma {:induction false} PosIncreasing(alts: seq<Alt>, i: nat, j: nat)
    requires i < j < |alts|
    ensures Pos(alts, i) + |Verb(alts[i])| <= Pos(alts, j)
    decreases j - i
  {
    PosNext(alts, i);
    if i + 1 < j {
      PosIncreasing(alts, i + 1, j);
    }
  }

  /** Marks strictly increase along a well-marked chunk. */
  lemma MarksIncrease(key: nat, alts: seq<Alt>, i: nat, j: nat)
    requires WellMarked(key, alts) && i < j < |alts|
    ensures alts[i].mark < alts[j].mark
  {
    PosIncreasing(alts, i, j);
  }

  /** A chunk: its key (the mark reached before it), its regex, and the alternatives that regex spells. */
  datatype Chunk = Chunk(key: nat, regex: string, alts: seq<Alt>)

  /** The regex starts with the spelled alternatives, and each mark addresses its verb's ':' from the key. */
  predicate Addressed(c: Chunk)
  {
    Render(c.alts) <= c.regex && WellMarked(c.key, c.alts)
  }

  predicate AllAddressed(cs: seq<Chunk>)
    decreases |cs|
  {
    cs != [] ==> AllAddressed(cs[..|cs| - 1]) && Addressed(cs[|cs| - 1])
  }

  lemma {:induction false} AllAddressedAt(cs: seq<Chunk>, k: nat)
    requires AllAddressed(cs) && k < |cs|
    ensures Addressed(cs[k])
    decreases |cs|
  {
    if k < |cs| - 1 {
      AllAddressedAt(cs[..|cs| - 1], k);
    }
  }

  /** The list stored under a mark; none is the empty list. */
  function RoutesAt(routes: map<nat, seq<Option<Entry>>>, m: nat): seq<Option<Entry>>
  {
    if m in routes then routes[m] else []
  }

  /**
   * The table: per-URL static entries, the dynamic chunks in key order, and
   * per mark the entries to try; a None entry is the sentinel that ends the
   * last chunk.
   */
  datatype Table = Table(statics: map<string, seq<Entry>>, chunks: seq<Chunk>, routes: map<nat, seq<Option<Entry>>>)
}
