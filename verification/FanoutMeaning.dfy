/** What a request body asks for, in terms of the names and values written in it. */
module FanoutMeaning {
  import opened Machine
  import opened JsonGrammar
  import opened TpsShape
  import opened TpsFanout

  // ---------- names and literals as characters ----------

  function Spelled(s: string): (bytes: seq<Byte>)
    ensures |bytes| == |s|
  {
    seq(|s|, i requires 0 <= i < |s| => if s[i] as int < 128 then s[i] as int else 0)
  }

  /** Every byte and word the grammar and the parser speak of. */
  lemma Alphabet()
    ensures [QUOTE, COMMA, COLON, BACKSLASH, MINUS, PLUS, POINT, ZERO, NINE] == Spelled("\",:\\-+.09")
    ensures [OPEN_ARRAY, CLOSE_ARRAY, OPEN_OBJECT, CLOSE_OBJECT] == Spelled("[]{}")
    ensures TRUE == Spelled("true") && FALSE == Spelled("false") && NULL == Spelled("null")
    ensures N == Spelled("n") && BEST_OF == Spelled("best_of") && PROMPT == Spelled("prompt") && STREAM == Spelled("stream")
  {
  }

  lemma ByteClasses(b: Byte)
    ensures SpaceByte(b) <==> b in Spelled(" \t\n\r")
    ensures Digit(b) <==> b in Spelled("0123456789")
    ensures Hex(b) <==> b in Spelled("0123456789abcdefABCDEF")
    ensures SimpleEscape(b) <==> b in Spelled("\"\\/bfnrt")
    ensures StringSpace(b) <==> b in Spelled(" \t\n\r") + [11, 12]
  {
    assert Spelled(" \t\n\r") == [32, 9, 10, 13];
    assert Spelled("0123456789") == [48, 49, 50, 51, 52, 53, 54, 55, 56, 57];
    assert Spelled("0123456789abcdefABCDEF")
        == [48, 49, 50, 51, 52, 53, 54, 55, 56, 57, 97, 98, 99, 100, 101, 102, 65, 66, 67, 68, 69, 70];
    assert Spelled("\"\\/bfnrt") == [34, 92, 47, 98, 102, 110, 114, 116];
  }

  /** A hex digit is worth its place among the sixteen, in either case. */
  lemma HexExactly(b: Byte, k: int)
    ensures HexValue(b) == Option.Some(k) <==>
              0 <= k < 16 && (b == Spelled("0123456789abcdef")[k] || b == Spelled("0123456789ABCDEF")[k])
  {
    assert Spelled("0123456789abcdef") == [48, 49, 50, 51, 52, 53, 54, 55, 56, 57, 97, 98, 99, 100, 101, 102];
    assert Spelled("0123456789ABCDEF") == [48, 49, 50, 51, 52, 53, 54, 55, 56, 57, 65, 66, 67, 68, 69, 70];
  }

  /** What the two-character escapes stand for: themselves, backspace, form feed, and the three line controls. */
  lemma ShortEscapesExactly(raw: seq<Byte>, i: nat, k: nat)
    requires i + 1 < |raw| && raw[i] == BACKSLASH && k < 8 && raw[i + 1] == Spelled("\"\\/bfnrt")[k]
    ensures NextAscii(raw, i) == Option.Some((([34, 92, 47, 8, 12] + Spelled("\n\r\t"))[k], i + 2))
  {
    assert Spelled("\"\\/bfnrt") == [34, 92, 47, 98, 102, 110, 114, 116];
    assert [34, 92, 47, 8, 12] + Spelled("\n\r\t") == [34, 92, 47, 8, 12, 10, 13, 9];
  }

  /** An escape by number is the character with that number, read from four hex digits, if it is ASCII. */
  lemma LongEscapeExactly(raw: seq<Byte>, i: nat, c: Byte, end: nat, h: nat, l: nat)
    requires i + 5 < |raw| && raw[i] == BACKSLASH && raw[i + 1] == Spelled("u")[0]
    requires HexValue(raw[i + 4]) == Option.Some(h) && HexValue(raw[i + 5]) == Option.Some(l)
    ensures NextAscii(raw, i) == Option.Some((c, end)) <==>
              && HexValue(raw[i + 2]) == Option.Some(0) && HexValue(raw[i + 3]) == Option.Some(0)
              && h < 8 && c == h * 16 + l && end == i + 6
  {
  }

  /** Every other character stands for itself if it is ASCII. */
  lemma PlainExactly(raw: seq<Byte>, i: nat)
    requires i < |raw| && raw[i] != BACKSLASH
    ensures NextAscii(raw, i) == if raw[i] < 128 then Option.Some((raw[i], i + 1)) else None
  {
  }

  // ---------- what the fields say ----------

  /** The values of all members of that name, in order; a name may be written with escapes. */
  function Named(ms: Members, name: string): seq<Json> {
    if ms.NoMember? then []
    else (if Decode(ms.name, 0) == Option.Some(Spelled(name)) then [ms.value] else []) + Named(ms.tail, name)
  }

  lemma {:induction false} NamedIsValues(ms: Members, name: string)
    ensures Named(ms, name) == Values(ms, Spelled(name))
  {
    if ms.Member? { NamedIsValues(ms.tail, name); }
  }

  function ItemsOf(items: Items): seq<Json> {
    if items.NoItem? then [] else [items.value] + ItemsOf(items.tail)
  }

  predicate TokenNumber(t: Json) {
    Text(t) != [] && Digits(Text(t)) && Decimal(Text(t)) <= 0x7FFF_FFFF_FFFF_FFFF
  }

  predicate AllStrings(xs: seq<Json>) { forall i :: 0 <= i < |xs| ==> xs[i].Str? }

  predicate AllNumbers(xs: seq<Json>) { forall i :: 0 <= i < |xs| ==> TokenNumber(xs[i]) }

  predicate AllNumberLists(xs: seq<Json>) { forall i :: 0 <= i < |xs| ==> xs[i].Arr? && AllNumbers(ItemsOf(xs[i].items)) }

  /** A prompt value that holds `count` prompts: one string, one list of tokens, or a list of strings or of
      token lists. */
  predicate HoldsPrompts(t: Json, count: int) {
    || (t.Str? && count == 1)
    || (t.Arr? && AllNumbers(ItemsOf(t.items)) && count == 1)
    || (t.Arr? && t.items.Item? && count == |ItemsOf(t.items)|
        && (AllStrings(ItemsOf(t.items)) || AllNumberLists(ItemsOf(t.items))))
  }

  /** What holds of all values holds of the first and of the rest. */
  lemma FirstAndRest<T>(x: T, rest: seq<T>, p: T -> bool)
    ensures (forall i :: 0 <= i < |[x] + rest| ==> p(([x] + rest)[i])) <==>
              p(x) && forall i :: 0 <= i < |rest| ==> p(rest[i])
  {
    var xs := [x] + rest;
    if forall i :: 0 <= i < |xs| ==> p(xs[i]) {
      assert p(xs[0]);
      forall i | 0 <= i < |rest| ensures p(rest[i]) { assert p(xs[i + 1]); }
    }
  }

  lemma {:induction false} TokensExactly(items: Items)
    ensures AllTokens(items) <==> AllNumbers(ItemsOf(items))
  {
    if items.Item? {
      TokensExactly(items.tail);
      FirstAndRest(items.value, ItemsOf(items.tail), (t: Json) => TokenNumber(t));
    }
  }

  lemma KindExactly(t: Json)
    ensures KindOf(t) == KindString <==> t.Str?
    ensures KindOf(t) == KindTokenArray <==> t.Arr? && AllNumbers(ItemsOf(t.items))
    ensures KindOf(t) == KindToken <==> TokenNumber(t)
  {
    if t.Arr? { TokensExactly(t.items); }
    if t.Str? || t.Arr? { BracketIsNoToken(t); }
  }

  lemma BracketIsNoToken(t: Json)
    requires t.Str? || t.Arr?
    ensures !TokenNumber(t)
  {
    assert Text(t)[0] == if t.Str? then QUOTE else OPEN_ARRAY;
  }

  predicate EachOfKind(xs: seq<Json>, kind: Kind) { forall i :: 0 <= i < |xs| ==> KindOf(xs[i]) == kind }

  lemma {:induction false} OfKindExactly(items: Items, kind: Kind)
    ensures AllOfKind(items, kind) <==> EachOfKind(ItemsOf(items), kind)
    ensures Count(items) == |ItemsOf(items)|
  {
    if items.Item? {
      OfKindExactly(items.tail, kind);
      FirstAndRest(items.value, ItemsOf(items.tail), (t: Json) => KindOf(t) == kind);
    }
  }

  /** A nonempty list of one kind of prompt. */
  lemma ListExactly(items: Items)
    requires items.Item?
    ensures OneKind(items) && KindOf(items.value) == KindToken <==> AllNumbers(ItemsOf(items))
    ensures OneKind(items) && KindOf(items.value) != KindToken <==>
              AllStrings(ItemsOf(items)) || AllNumberLists(ItemsOf(items))
    ensures Count(items) == |ItemsOf(items)| > 0
  {
    var xs := ItemsOf(items);
    assert xs[0] == items.value;
    forall i | 0 <= i < |xs|
      ensures KindOf(xs[i]) == KindString <==> xs[i].Str?
      ensures KindOf(xs[i]) == KindTokenArray <==> xs[i].Arr? && AllNumbers(ItemsOf(xs[i].items))
      ensures KindOf(xs[i]) == KindToken <==> TokenNumber(xs[i])
    {
      KindExactly(xs[i]);
    }
    OfKindExactly(items, KindOf(items.value));
  }

  lemma PromptsExactly(t: Json, count: int)
    ensures PromptCount(t) == Option.Some(count) <==> HoldsPrompts(t, count)
  {
    if t.Arr? && t.items.Item? { ListExactly(t.items); }
  }

  // ---------- what the request asks for ----------

  /** Every value is the number k, bare or in a string; without values k is 1. */
  ghost predicate AllSay(vs: seq<Json>, k: int) {
    (vs == [] ==> k == 1) && forall i :: 0 <= i < |vs| ==> Positive(Text(vs[i])) == Option.Some(k)
  }

  predicate AllAre(vs: seq<Json>, word: string) {
    forall i :: 0 <= i < |vs| ==> Text(vs[i]) == Spelled(word)
  }

  /** n counts for chat completions and completions, best_of and prompt for completions alone. */
  function NValues(t: Json, e: Endpoint): seq<Json>
    requires t.Obj?
  {
    if e == ChatCompletions || e == Completions then Named(t.members, "n") else []
  }

  function BestOfValues(t: Json, e: Endpoint): seq<Json>
    requires t.Obj?
  {
    if e == Completions then Named(t.members, "best_of") else []
  }

  function PromptValues(t: Json, e: Endpoint): seq<Json>
    requires t.Obj?
  {
    if e == Completions then Named(t.members, "prompt") else []
  }

  /** The request says n, best_of and how many prompts, each at most one way. */
  ghost predicate Says(t: Json, e: Endpoint, n: int, bestOf: int, count: int)
    requires t.Obj?
  {
    && AllSay(NValues(t, e), n)
    && (AllSay(BestOfValues(t, e), bestOf) || (AllAre(BestOfValues(t, e), "null") && bestOf == 1))
    && |PromptValues(t, e)| <= 1
    && (if PromptValues(t, e) == [] then count == 1 else HoldsPrompts(PromptValues(t, e)[0], count))
  }

  function Product(n: int, bestOf: int, count: int): int {
    count * (if bestOf > n then bestOf else n)
  }

  /** Supported exactly when the request says its numbers and their product fits an int64: it then asks for
      that many sequences, and for none otherwise. Streaming is known when all its values are one boolean. */
  ghost predicate AsksFor(t: Json, e: Endpoint, s: Shape)
    requires t.Obj?
  {
    && (s.supported <==> exists n, bestOf, count :: Says(t, e, n, bestOf, count) && Product(n, bestOf, count) <= 0x7FFF_FFFF_FFFF_FFFF)
    && (forall n, bestOf, count :: s.supported && Says(t, e, n, bestOf, count) ==>
          s.decodeSequences == Product(n, bestOf, count) && s.basePromptCount == count)
    && (!s.supported ==> s.decodeSequences == 0)
    && (s.streaming.present <==> Named(t.members, "stream") != [])
    && (s.streaming.known && s.streaming.value <==>
          Named(t.members, "stream") != [] && AllAre(Named(t.members, "stream"), "true"))
    && (s.streaming.known && !s.streaming.value <==>
          Named(t.members, "stream") != [] && AllAre(Named(t.members, "stream"), "false"))
  }

  lemma SayingOne(vs: seq<Json>, k: int)
    ensures AllSay(vs, k) <==> SamePositive(vs) && Chosen(vs) == k
  {
  }

  lemma SaysExactly(t: Json, e: Endpoint, n: int, bestOf: int, count: int)
    requires t.Obj?
    ensures var ns, bests, prompts := NValues(t, e), BestOfValues(t, e), PromptValues(t, e);
            Says(t, e, n, bestOf, count) <==>
              && Understood(ns, bests, prompts) && Chosen(ns) == n && Chosen(bests) == bestOf
              && count == if prompts == [] then 1 else PromptCount(prompts[0]).value
  {
    var ns, bests, prompts := NValues(t, e), BestOfValues(t, e), PromptValues(t, e);
    Alphabet();
    NullIsNotPositive();
    SayingOne(ns, n);
    SayingOne(bests, bestOf);
    if prompts != [] {
      PromptsExactly(prompts[0], count);
    }
  }

  lemma StreamExactly(vs: seq<Json>)
    ensures var r := FoldStream(NO_STREAM, vs);
            && (r.present <==> vs != [])
            && (r.known && r.value <==> vs != [] && AllAre(vs, "true"))
            && (r.known && !r.value <==> vs != [] && AllAre(vs, "false"))
  {
    Alphabet();
    FoldStreamMeaning(vs);
  }

  /** The shape the parser gives a request is the one its fields ask for. */
  lemma ShapeExactly(t: Json, e: Endpoint)
    requires t.Obj?
    ensures AsksFor(t, e, ShapeOf(t, e))
  {
    Alphabet();
    NamedIsValues(t.members, "n");
    NamedIsValues(t.members, "best_of");
    NamedIsValues(t.members, "prompt");
    NamedIsValues(t.members, "stream");
    ShapeMeaning(t, e);
    StreamExactly(Named(t.members, "stream"));
    var ns, bests, prompts := NValues(t, e), BestOfValues(t, e), PromptValues(t, e);
    var count := if prompts == [] || PromptCount(prompts[0]).None? then 1 else PromptCount(prompts[0]).value;
    forall n, bestOf, c ensures Says(t, e, n, bestOf, c) <==>
              && Understood(ns, bests, prompts) && Chosen(ns) == n && Chosen(bests) == bestOf
              && c == if prompts == [] then 1 else PromptCount(prompts[0]).value
    {
      SaysExactly(t, e, n, bestOf, c);
    }
    if Understood(ns, bests, prompts) {
      assert Says(t, e, Chosen(ns), Chosen(bests), count);
      assert Product(Chosen(ns), Chosen(bests), count) == Asked(ns, bests, prompts);
    }
  }
}
