/** Everything grammatical is accepted, with its own syntax tree, unless it is nested too deep: then the
    scanner says so. */
module JsonComplete {
  import opened Machine
  import opened JsonGrammar
  import opened JsonScan
  import opened JsonSound

  /** Taking a text apart: x first, then y. */
  lemma Cut(b: seq<Byte>, i: nat, e: nat, x: seq<Byte>, y: seq<Byte>) returns (m: nat)
    requires i <= e <= |b| && b[i..e] == x + y
    ensures i <= m <= e && b[i..m] == x && b[m..e] == y && m == i + |x|
  {
    m := i + |x|;
    assert b[i..m] == b[i..e][..|x|];
    assert b[m..e] == b[i..e][|x|..];
  }

  /** One byte first, then y. */
  lemma CutByte(b: seq<Byte>, i: nat, e: nat, x: Byte, y: seq<Byte>)
    requires i <= e <= |b| && b[i..e] == [x] + y
    ensures i < e && b[i] == x && b[i + 1..e] == y
  {
    assert b[i] == b[i..e][0];
    assert b[i + 1..e] == b[i..e][1..];
  }

  /** x first, then one byte. */
  lemma CutLast(b: seq<Byte>, i: nat, e: nat, x: seq<Byte>, y: Byte)
    requires i <= e <= |b| && b[i..e] == x + [y]
    ensures i < e && b[i..e - 1] == x && b[e - 1] == y
  {
    assert b[e - 1] == b[i..e][|x|];
    assert b[i..e - 1] == b[i..e][..|x|];
  }

  // ---------- lexical pieces ----------

  lemma {:induction false} SpaceStops(b: seq<Byte>, i: nat, e: nat)
    requires i <= e <= |b| && Space(b[i..e]) && (e == |b| || !SpaceByte(b[e]))
    ensures SkipSpace(b, i) == e
    decreases e - i
  {
    if i < e {
      assert b[i] == b[i..e][0];
      assert b[i + 1..e] == b[i..e][1..];
      SpaceStops(b, i + 1, e);
    }
  }

  lemma {:induction false} DigitsStop(b: seq<Byte>, i: nat, e: nat)
    requires i <= e <= |b| && Digits(b[i..e]) && (e == |b| || !Digit(b[e]))
    ensures SkipDigits(b, i) == e
    decreases e - i
  {
    if i < e {
      assert b[i] == b[i..e][0];
      assert b[i + 1..e] == b[i..e][1..];
      DigitsStop(b, i + 1, e);
    }
  }

  lemma {:induction false} StringComplete(b: seq<Byte>, i: nat, q: nat)
    requires i <= q < |b| && StringBody(b[i..q]) && b[q] == QUOTE
    ensures ClosingQuote(b, i) == Some(q)
    decreases q - i
  {
    if i < q {
      var s := b[i..q];
      assert s[0] == b[i];
      var k := if s[0] != BACKSLASH then 1 else if s[1] == 0x75 then 6 else 2;
      assert forall j :: 0 <= j < k ==> s[j] == b[i + j];
      assert s[k..] == b[i + k..q];
      StringComplete(b, i + k, q);
    }
  }

  /** What may follow a value: the end, a space, a comma or a closing bracket. */
  predicate Boundary(b: seq<Byte>, e: nat) {
    e >= |b| || SpaceByte(b[e]) || b[e] == COMMA || b[e] == CLOSE_ARRAY || b[e] == CLOSE_OBJECT
  }

  lemma WholeComplete(b: seq<Byte>, i: nat, e: nat)
    requires i <= e <= |b| && WholePart(b[i..e]) && (e == |b| || !Digit(b[e]))
    ensures ScanWhole(b, i) == Some(e)
  {
    assert b[i] == b[i..e][0];
    if b[i..e] != [ZERO] {
      assert b[i + 1..e] == b[i..e][1..];
      DigitsStop(b, i + 1, e);
    }
  }

  lemma FractionComplete(b: seq<Byte>, i: nat, e: nat)
    requires i <= e <= |b| && FractionPart(b[i..e]) && (e == |b| || (!Digit(b[e]) && b[e] != POINT))
    ensures ScanFraction(b, i) == Some(e)
  {
    if i < e {
      assert b[i] == b[i..e][0];
      assert b[i + 1] == b[i..e][1..][0];
      assert b[i + 2..e] == b[i..e][1..][1..];
      DigitsStop(b, i + 2, e);
    }
  }

  lemma ExponentComplete(b: seq<Byte>, i: nat, e: nat)
    requires i <= e <= |b| && ExponentPart(b[i..e]) && Boundary(b, e)
    ensures ScanExponent(b, i) == Some(e)
  {
    if i < e {
      assert b[i] == b[i..e][0] && b[i + 1] == b[i..e][1];
      var k := if b[i + 1] == PLUS || b[i + 1] == MINUS then 2 else 1;
      assert b[i + k] == b[i..e][k..][0];
      assert b[i + k + 1..e] == b[i..e][k..][1..];
      DigitsStop(b, i + k + 1, e);
    }
  }

  /** The byte a part of a number starts with, or the boundary after the number. */
  lemma NumberComplete(b: seq<Byte>, i: nat, s: nat, w: nat, f: nat, e: nat)
    requires i <= s <= w <= f <= e <= |b| && Boundary(b, e)
    requires (b[i..s] == [] || b[i..s] == [MINUS]) && WholePart(b[s..w])
    requires FractionPart(b[w..f]) && ExponentPart(b[f..e])
    ensures ScanNumber(b, i) == Good(Num(b[i..s], b[s..w], b[w..f], b[f..e]), e)
  {
    if i < s { assert b[i] == b[i..s][0]; }
    assert b[s] == b[s..w][0];
    if w < f { assert b[w] == b[w..f][0]; }
    if f < e { assert b[f] == b[f..e][0]; }
    ExponentComplete(b, f, e);
    FractionComplete(b, w, f);
    WholeComplete(b, s, w);
  }

  // ---------- values ----------

  /** A value starts with none of the bytes that may follow one. */
  lemma FirstByte(t: Json)
    requires WellFormed(t)
    ensures Text(t) != []
    ensures var f := Text(t)[0];
            !SpaceByte(f) && f != COMMA && f != CLOSE_ARRAY && f != CLOSE_OBJECT && (t.Num? ==> f == MINUS || Digit(f))
  {
    if t.Num? {
      assert t.whole != [];
      if t.sign == [] { assert Text(t)[0] == t.whole[0]; } else { assert Text(t)[0] == MINUS; }
    }
  }

  lemma FirstByteAt(b: seq<Byte>, i: nat, e: nat, t: Json)
    requires i <= e <= |b| && WellFormed(t) && b[i..e] == Text(t)
    ensures i < e && !SpaceByte(b[i]) && b[i] != COMMA && b[i] != CLOSE_ARRAY && b[i] != CLOSE_OBJECT
    ensures t.Num? ==> b[i] == MINUS || Digit(b[i])
  {
    FirstByte(t);
    assert b[i] == b[i..e][0];
  }

  function Expected<T>(t: T, e: nat, needed: nat, depth: nat): Scan<T> {
    if needed <= depth then Good(t, e) else TooDeep
  }

  lemma NumberAt(b: seq<Byte>, i: nat, e: nat, t: Json)
    requires i <= e <= |b| && t.Num? && WellFormed(t) && b[i..e] == Text(t) && Boundary(b, e)
    ensures ScanNumber(b, i) == Good(t, e)
  {
    var f := Cut(b, i, e, t.sign + t.whole + t.fraction, t.exponent);
    var w := Cut(b, i, f, t.sign + t.whole, t.fraction);
    var s := Cut(b, i, w, t.sign, t.whole);
    NumberComplete(b, i, s, w, f, e);
  }

  lemma StringAt(b: seq<Byte>, i: nat, e: nat, body: seq<Byte>)
    requires i <= e <= |b| && StringBody(body) && b[i..e] == Quoted(body)
    ensures i + 1 < e && b[i] == QUOTE && b[i + 1..e - 1] == body
    ensures ScanString(b, i) == Some(e - 1)
  {
    CutLast(b, i, e, [QUOTE] + body, QUOTE);
    CutByte(b, i, e - 1, QUOTE, body);
    StringComplete(b, i + 1, e - 1);
  }

  lemma LiteralAt(b: seq<Byte>, i: nat, e: nat, word: seq<Byte>, depth: nat)
    requires i <= e <= |b| && b[i..e] == word && (word == TRUE || word == FALSE || word == NULL)
    ensures ScanValue(b, i, depth) == Good(Lit(word), e)
  {
    assert b[i] == b[i..e][0];
  }

  /** A grammatical value followed by a boundary is scanned back as itself, or reported as too deep. */
  lemma {:induction false} ValueComplete(b: seq<Byte>, i: nat, e: nat, t: Json, depth: nat)
    requires i <= e <= |b| && WellFormed(t) && b[i..e] == Text(t) && Boundary(b, e)
    ensures ScanValue(b, i, depth) == Expected(t, e, Depth(t), depth)
    decreases t, 0
  {
    FirstByteAt(b, i, e, t);
    match t
    case Str(body) => StringAt(b, i, e, body);
    case Num(_, _, _, _) => NumberAt(b, i, e, t);
    case Lit(word) => LiteralAt(b, i, e, word, depth);
    case Arr(open, items) => ArrayComplete(b, i, e, open, items, depth);
    case Obj(open, members) => ObjectComplete(b, i, e, open, members, depth);
  }

  /** Taking a bracketed text apart. */
  lemma Unbracket(b: seq<Byte>, i: nat, e: nat, left: Byte, open: seq<Byte>, inner: seq<Byte>, right: Byte)
      returns (k: nat)
    requires i <= e <= |b| && b[i..e] == [left] + open + inner + [right]
    ensures i < k < e && b[i] == left && b[i + 1..k] == open && b[k..e - 1] == inner && b[e - 1] == right
  {
    CutLast(b, i, e, [left] + open + inner, right);
    assert [left] + open + inner == [left] + (open + inner);
    CutByte(b, i, e - 1, left, open + inner);
    k := Cut(b, i + 1, e - 1, open, inner);
  }

  /** Past the opening space stand the items, or the closing bracket of an empty array. */
  predicate ItemsRead(b: seq<Byte>, i: nat, k: nat, e: nat, items: Items, depth: nat)
    requires i < k <= e < |b|
  {
    && SkipSpace(b, i + 1) == k
    && (if items.NoItem? then k == e else b[k] != CLOSE_ARRAY)
    && (items.Item? && depth > 0 ==> ScanItems(b, k, depth - 1) == Expected(items, e, ItemsDepth(items), depth - 1))
  }

  predicate MembersRead(b: seq<Byte>, i: nat, k: nat, e: nat, members: Members, depth: nat)
    requires i < k <= e < |b|
  {
    && SkipSpace(b, i + 1) == k
    && (if members.NoMember? then k == e else b[k] != CLOSE_OBJECT)
    && (members.Member? && depth > 0 ==>
          ScanMembers(b, k, depth - 1) == Expected(members, e, MembersDepth(members), depth - 1))
  }

  /** An array whose first byte past the opening space is at k and whose closing bracket is at e. */
  lemma ArrayFrom(b: seq<Byte>, i: nat, k: nat, e: nat, items: Items, depth: nat)
    requires i < k <= e < |b| && b[i] == OPEN_ARRAY && b[e] == CLOSE_ARRAY && ItemsRead(b, i, k, e, items, depth)
    ensures ScanArray(b, i, depth) == Expected(Arr(b[i + 1..k], items), e + 1, 1 + ItemsDepth(items), depth)
  {
  }

  lemma ObjectFrom(b: seq<Byte>, i: nat, k: nat, e: nat, members: Members, depth: nat)
    requires i < k <= e < |b| && b[i] == OPEN_OBJECT && b[e] == CLOSE_OBJECT && MembersRead(b, i, k, e, members, depth)
    ensures ScanObject(b, i, depth) == Expected(Obj(b[i + 1..k], members), e + 1, 1 + MembersDepth(members), depth)
  {
  }

  lemma {:induction false} ArrayComplete(b: seq<Byte>, i: nat, e: nat, open: seq<Byte>, items: Items, depth: nat)
    requires i <= e <= |b| && Space(open) && ItemsWellFormed(items) && b[i..e] == Text(Arr(open, items))
    ensures i < |b| && b[i] == OPEN_ARRAY
    ensures ScanArray(b, i, depth) == Expected(Arr(open, items), e, 1 + ItemsDepth(items), depth)
    decreases items, 3
  {
    var k := Unbracket(b, i, e, OPEN_ARRAY, open, ItemsText(items), CLOSE_ARRAY);
    ArrayInside(b, i, k, e - 1, items, depth);
    ArrayFrom(b, i, k, e - 1, items, depth);
  }

  /** The opening space ends at the first item, or at the closing bracket of an empty array. */
  lemma ItemsOpen(b: seq<Byte>, i: nat, k: nat, e: nat, items: Items)
    requires i < k <= e < |b| && Space(b[i + 1..k]) && b[e] == CLOSE_ARRAY
    requires ItemsWellFormed(items) && b[k..e] == ItemsText(items)
    ensures SkipSpace(b, i + 1) == k
    ensures if items.NoItem? then k == e else b[k] != CLOSE_ARRAY
  {
    if items.Item? { ItemsStart(b, k, e, items); } else { assert |b[k..e]| == 0; }
    SpaceStops(b, i + 1, k);
  }

  lemma MembersOpen(b: seq<Byte>, i: nat, k: nat, e: nat, members: Members)
    requires i < k <= e < |b| && Space(b[i + 1..k]) && b[e] == CLOSE_OBJECT && b[k..e] == MembersText(members)
    ensures SkipSpace(b, i + 1) == k
    ensures if members.NoMember? then k == e else b[k] != CLOSE_OBJECT
  {
    if members.Member? { MembersStart(b, k, e, members); } else { assert |b[k..e]| == 0; }
    SpaceStops(b, i + 1, k);
  }

  lemma {:induction false} ArrayInside(b: seq<Byte>, i: nat, k: nat, e: nat, items: Items, depth: nat)
    requires i < k <= e < |b| && Space(b[i + 1..k]) && b[e] == CLOSE_ARRAY
    requires ItemsWellFormed(items) && b[k..e] == ItemsText(items)
    ensures ItemsRead(b, i, k, e, items, depth)
    decreases items, 2
  {
    ItemsOpen(b, i, k, e, items);
    if items.Item? && depth > 0 { ItemsComplete(b, k, e, items, depth - 1); }
  }

  lemma {:induction false} ObjectInside(b: seq<Byte>, i: nat, k: nat, e: nat, members: Members, depth: nat)
    requires i < k <= e < |b| && Space(b[i + 1..k]) && b[e] == CLOSE_OBJECT
    requires MembersWellFormed(members) && b[k..e] == MembersText(members)
    ensures MembersRead(b, i, k, e, members, depth)
    decreases members, 2
  {
    MembersOpen(b, i, k, e, members);
    if members.Member? && depth > 0 { MembersComplete(b, k, e, members, depth - 1); }
  }

  lemma {:induction false} ObjectComplete(b: seq<Byte>, i: nat, e: nat, open: seq<Byte>, members: Members, depth: nat)
    requires i <= e <= |b| && Space(open) && MembersWellFormed(members) && b[i..e] == Text(Obj(open, members))
    ensures i < |b| && b[i] == OPEN_OBJECT
    ensures ScanObject(b, i, depth) == Expected(Obj(open, members), e, 1 + MembersDepth(members), depth)
    decreases members, 3
  {
    var k := Unbracket(b, i, e, OPEN_OBJECT, open, MembersText(members), CLOSE_OBJECT);
    ObjectInside(b, i, k, e - 1, members, depth);
    ObjectFrom(b, i, k, e - 1, members, depth);
  }

  lemma ItemsStart(b: seq<Byte>, i: nat, e: nat, items: Items)
    requires i <= e <= |b| && items.Item? && ItemsWellFormed(items) && b[i..e] == ItemsText(items)
    ensures i < e && !SpaceByte(b[i]) && b[i] != CLOSE_ARRAY
  {
    var n, a, c := ItemCut(b, i, e, items);
    FirstByteAt(b, i, n, items.value);
  }

  lemma MembersStart(b: seq<Byte>, i: nat, e: nat, members: Members)
    requires i <= e <= |b| && members.Member? && b[i..e] == MembersText(members)
    ensures i < e && b[i] == QUOTE
  {
    assert b[i] == b[i..e][0];
  }

  /** After the last value come its space and the closing bracket. */
  lemma ClosingComplete(b: seq<Byte>, n: nat, a: nat, close: Byte)
    requires n <= a < |b| && Space(b[n..a]) && b[a] == close && (close == CLOSE_ARRAY || close == CLOSE_OBJECT)
    ensures Boundary(b, n) && ScanSeparator(b, n, close) == Closing(a)
  {
    if n < a { assert b[n] == b[n..a][0]; }
    SpaceStops(b, n, a);
  }

  /** After another value come its space, a comma, and the space before the next one. */
  lemma CommaComplete(b: seq<Byte>, n: nat, a: nat, c: nat, close: Byte)
    requires n <= a < c < |b| && Space(b[n..a]) && b[a] == COMMA && Space(b[a + 1..c])
    requires !SpaceByte(b[c]) && b[c] != close && (close == CLOSE_ARRAY || close == CLOSE_OBJECT)
    ensures Boundary(b, n) && ScanSeparator(b, n, close) == Comma(a, c)
  {
    if n < a { assert b[n] == b[n..a][0]; }
    SpaceStops(b, n, a);
    SpaceStops(b, a + 1, c);
  }

  /** A separator: comma, space, and the text that follows. */
  lemma CommaCut(b: seq<Byte>, a: nat, e: nat, before: seq<Byte>, tail: seq<Byte>) returns (c: nat)
    requires a <= e <= |b| && b[a..e] == [COMMA] + before + tail
    ensures a < c <= e && b[a] == COMMA && b[a + 1..c] == before && b[c..e] == tail
  {
    assert [COMMA] + before + tail == [COMMA] + (before + tail);
    CutByte(b, a, e, COMMA, before + tail);
    c := Cut(b, a + 1, e, before, tail);
  }

  /** Where the first value ends, its space ends, and the next item starts. */
  lemma ItemCut(b: seq<Byte>, i: nat, e: nat, items: Items) returns (n: nat, a: nat, c: nat)
    requires i <= e <= |b| && items.Item? && b[i..e] == ItemsText(items)
    ensures i <= n <= a <= e && b[i..n] == Text(items.value) && b[n..a] == items.after
    ensures items.tail.NoItem? ==> a == e
    ensures items.tail.Item? ==>
              && a < c <= e && b[a] == COMMA && b[a + 1..c] == items.before && b[c..e] == ItemsText(items.tail)
  {
    var Item(value, after, before, tail) := items;
    var more := if tail.NoItem? then [] else [COMMA] + before + ItemsText(tail);
    a := Cut(b, i, e, Text(value) + after, more);
    n := Cut(b, i, a, Text(value), after);
    c := a;
    if tail.Item? { c := CommaCut(b, a, e, before, ItemsText(tail)); }
  }

  lemma ItemsLast(b: seq<Byte>, i: nat, value: Json, n: nat, a: nat, depth: nat)
    requires i <= n <= |b| && ScanValue(b, i, depth) == Expected(value, n, Depth(value), depth)
    requires ScanSeparator(b, n, CLOSE_ARRAY) == Closing(a)
    ensures ScanItems(b, i, depth) == Expected(Item(value, b[n..a], [], NoItem), a, Depth(value), depth)
  {
  }

  lemma ItemsMore(b: seq<Byte>, i: nat, value: Json, n: nat, a: nat, c: nat, e: nat, tail: Items, depth: nat)
    requires i <= n <= |b| && ScanValue(b, i, depth) == Expected(value, n, Depth(value), depth)
    requires ScanSeparator(b, n, CLOSE_ARRAY) == Comma(a, c)
    requires ScanItems(b, c, depth) == Expected(tail, e, ItemsDepth(tail), depth)
    ensures ScanItems(b, i, depth)
         == Expected(Item(value, b[n..a], b[a + 1..c], tail), e, Max(Depth(value), ItemsDepth(tail)), depth)
  {
    if Depth(value) <= depth {
      ItemsFromValue(b, i, value, n, depth);
      ItemsAfterComma(b, value, n, a, c, depth);
    }
  }

  lemma ItemsFromValue(b: seq<Byte>, i: nat, value: Json, n: nat, depth: nat)
    requires i <= n <= |b| && ScanValue(b, i, depth) == Good(value, n)
    ensures ScanItems(b, i, depth) == ScanItemsAfter(b, n, depth, value)
  {
  }

  lemma ItemsAfterComma(b: seq<Byte>, value: Json, n: nat, a: nat, c: nat, depth: nat)
    requires n <= |b| && ScanSeparator(b, n, CLOSE_ARRAY) == Comma(a, c)
    ensures ScanItemsAfter(b, n, depth, value) == PrependedItem(value, b[n..a], b[a + 1..c], ScanItems(b, c, depth))
  {
  }

  lemma {:induction false} ItemsComplete(b: seq<Byte>, i: nat, e: nat, items: Items, depth: nat)
    requires i <= e < |b| && items.Item? && ItemsWellFormed(items) && b[i..e] == ItemsText(items)
    requires b[e] == CLOSE_ARRAY
    ensures ScanItems(b, i, depth) == Expected(items, e, ItemsDepth(items), depth)
    decreases items, 1
  {
    var n, a, c := ItemCut(b, i, e, items);
    if items.tail.NoItem? {
      ClosingComplete(b, n, a, CLOSE_ARRAY);
      ValueComplete(b, i, n, items.value, depth);
      ItemsLast(b, i, items.value, n, a, depth);
    } else {
      ItemsStart(b, c, e, items.tail);
      CommaComplete(b, n, a, c, CLOSE_ARRAY);
      ValueComplete(b, i, n, items.value, depth);
      ItemsComplete(b, c, e, items.tail, depth);
      ItemsMore(b, i, items.value, n, a, c, e, items.tail, depth);
    }
  }

  function PairBytes(p: Pair): seq<Byte> {
    Quoted(p.name) + p.nameAfter + [COLON] + p.colonAfter + Text(p.value)
  }

  predicate PairWellFormed(p: Pair) {
    StringBody(p.name) && Space(p.nameAfter) && Space(p.colonAfter) && WellFormed(p.value)
  }

  lemma PairCut(b: seq<Byte>, i: nat, e: nat, p: Pair) returns (k: nat, colon: nat, v: nat)
    requires i <= e <= |b| && b[i..e] == PairBytes(p)
    ensures i <= k <= colon < v <= e && b[i..k] == Quoted(p.name) && b[k..colon] == p.nameAfter && b[colon] == COLON
    ensures b[colon + 1..v] == p.colonAfter && b[v..e] == Text(p.value)
  {
    v := Cut(b, i, e, Quoted(p.name) + p.nameAfter + [COLON] + p.colonAfter, Text(p.value));
    var after := Cut(b, i, v, Quoted(p.name) + p.nameAfter + [COLON], p.colonAfter);
    CutLast(b, i, after, Quoted(p.name) + p.nameAfter, COLON);
    colon := after - 1;
    k := Cut(b, i, colon, Quoted(p.name), p.nameAfter);
  }

  lemma HeadComplete(b: seq<Byte>, i: nat, k: nat, colon: nat, v: nat, e: nat, p: Pair)
    requires i <= k <= colon < v <= e <= |b| && PairWellFormed(p) && b[i..k] == Quoted(p.name)
    requires b[k..colon] == p.nameAfter && b[colon] == COLON && b[colon + 1..v] == p.colonAfter && b[v..e] == Text(p.value)
    ensures i + 1 < k && ScanHead(b, i) == Some(Head(k - 1, colon, v)) && b[i + 1..k - 1] == p.name
  {
    StringAt(b, i, k, p.name);
    SpaceStops(b, k, colon);
    FirstByteAt(b, v, e, p.value);
    SpaceStops(b, colon + 1, v);
    HeadFrom(b, i, Head(k - 1, colon, v));
  }

  lemma HeadFrom(b: seq<Byte>, i: nat, h: Head)
    requires i <= |b| && h.quote < h.colon < |b| && ScanString(b, i) == Some(h.quote)
    requires SkipSpace(b, h.quote + 1) == h.colon && b[h.colon] == COLON && SkipSpace(b, h.colon + 1) == h.value
    ensures ScanHead(b, i) == Some(h)
  {
  }

  lemma PairFrom(b: seq<Byte>, i: nat, e: nat, p: Pair, h: Head, depth: nat)
    requires i <= |b| && ScanHead(b, i) == Some(h)
    requires p == Pair(b[i + 1..h.quote], b[h.quote + 1..h.colon], b[h.colon + 1..h.value], p.value)
    requires ScanValue(b, h.value, depth) == Expected(p.value, e, Depth(p.value), depth)
    ensures ScanPair(b, i, depth) == Expected(p, e, Depth(p.value), depth)
  {
  }

  lemma {:induction false} PairComplete(b: seq<Byte>, i: nat, e: nat, p: Pair, depth: nat)
    requires i <= e <= |b| && PairWellFormed(p) && b[i..e] == PairBytes(p) && Boundary(b, e)
    ensures ScanPair(b, i, depth) == Expected(p, e, Depth(p.value), depth)
    decreases p.value, 1
  {
    var k, colon, v := PairCut(b, i, e, p);
    HeadComplete(b, i, k, colon, v, e, p);
    ValueComplete(b, v, e, p.value, depth);
    PairFrom(b, i, e, p, Head(k - 1, colon, v), depth);
  }

  function PairOf(m: Members): Pair
    requires m.Member?
  {
    Pair(m.name, m.nameAfter, m.colonAfter, m.value)
  }

  lemma MemberCut(b: seq<Byte>, i: nat, e: nat, members: Members) returns (n: nat, a: nat, c: nat)
    requires i <= e <= |b| && members.Member? && b[i..e] == MembersText(members)
    ensures i <= n <= a <= e && b[i..n] == PairBytes(PairOf(members)) && b[n..a] == members.after
    ensures members.tail.NoMember? ==> a == e
    ensures members.tail.Member? ==>
              && a < c <= e && b[a] == COMMA && b[a + 1..c] == members.before && b[c..e] == MembersText(members.tail)
  {
    var p, after, before, tail := PairOf(members), members.after, members.before, members.tail;
    var more := if tail.NoMember? then [] else [COMMA] + before + MembersText(tail);
    assert MembersText(members) == PairBytes(p) + after + more;
    a := Cut(b, i, e, PairBytes(p) + after, more);
    n := Cut(b, i, a, PairBytes(p), after);
    c := a;
    if tail.Member? { c := CommaCut(b, a, e, before, MembersText(tail)); }
  }

  lemma MembersLast(b: seq<Byte>, i: nat, p: Pair, n: nat, a: nat, depth: nat)
    requires i <= n <= |b| && ScanPair(b, i, depth) == Expected(p, n, Depth(p.value), depth)
    requires ScanSeparator(b, n, CLOSE_OBJECT) == Closing(a)
    ensures ScanMembers(b, i, depth) == Expected(MemberOf(p, b[n..a], [], NoMember), a, Depth(p.value), depth)
  {
  }

  lemma MembersMore(b: seq<Byte>, i: nat, p: Pair, n: nat, a: nat, c: nat, e: nat, tail: Members, depth: nat)
    requires i <= n <= |b| && ScanPair(b, i, depth) == Expected(p, n, Depth(p.value), depth)
    requires ScanSeparator(b, n, CLOSE_OBJECT) == Comma(a, c)
    requires ScanMembers(b, c, depth) == Expected(tail, e, MembersDepth(tail), depth)
    ensures ScanMembers(b, i, depth)
         == Expected(MemberOf(p, b[n..a], b[a + 1..c], tail), e, Max(Depth(p.value), MembersDepth(tail)), depth)
  {
    if Depth(p.value) <= depth {
      MembersFromPair(b, i, p, n, depth);
      MembersAfterComma(b, p, n, a, c, depth);
    }
  }

  lemma MembersFromPair(b: seq<Byte>, i: nat, p: Pair, n: nat, depth: nat)
    requires i <= n <= |b| && ScanPair(b, i, depth) == Good(p, n)
    ensures ScanMembers(b, i, depth) == ScanMembersAfter(b, n, depth, p)
  {
  }

  lemma MembersAfterComma(b: seq<Byte>, p: Pair, n: nat, a: nat, c: nat, depth: nat)
    requires n <= |b| && ScanSeparator(b, n, CLOSE_OBJECT) == Comma(a, c)
    ensures ScanMembersAfter(b, n, depth, p) == Prepended(p, b[n..a], b[a + 1..c], ScanMembers(b, c, depth))
  {
  }

  lemma {:induction false} MembersComplete(b: seq<Byte>, i: nat, e: nat, members: Members, depth: nat)
    requires i <= e < |b| && members.Member? && MembersWellFormed(members) && b[i..e] == MembersText(members)
    requires b[e] == CLOSE_OBJECT
    ensures ScanMembers(b, i, depth) == Expected(members, e, MembersDepth(members), depth)
    decreases members, 1
  {
    var n, a, c := MemberCut(b, i, e, members);
    if members.tail.NoMember? {
      ClosingComplete(b, n, a, CLOSE_OBJECT);
      PairComplete(b, i, n, PairOf(members), depth);
      MembersLast(b, i, PairOf(members), n, a, depth);
    } else {
      MembersStart(b, c, e, members.tail);
      CommaComplete(b, n, a, c, CLOSE_OBJECT);
      PairComplete(b, i, n, PairOf(members), depth);
      MembersComplete(b, c, e, members.tail, depth);
      MembersMore(b, i, PairOf(members), n, a, c, e, members.tail, depth);
    }
  }

  // ---------- whole bodies ----------

  /** The body is the text of t with nothing but space around it. */
  ghost predicate Document(b: seq<Byte>, t: Json) {
    t.Obj? && WellFormed(t) &&
    exists i: nat, e: nat :: i <= e <= |b| && Space(b[..i]) && b[i..e] == Text(t) && Space(b[e..])
  }

  /** A well-formed document is scanned back to its own tree, or reported as nested too deep. */
  lemma DocumentScanned(b: seq<Byte>, t: Json)
    requires Document(b, t)
    ensures ScanBody(b) == Expected(t, |b|, Depth(t), MAXIMUM_DEPTH)
  {
    var i: nat, e: nat :| i <= e <= |b| && Space(b[..i]) && b[i..e] == Text(t) && Space(b[e..]);
    FirstByteAt(b, i, e, t);
    assert b[0..i] == b[..i];
    SpaceStops(b, 0, i);
    ObjectComplete(b, i, e, t.open, t.members, MAXIMUM_DEPTH);
    assert b[e..|b|] == b[e..];
    SpaceStops(b, e, |b|);
  }

  lemma AcceptedIsDocument(b: seq<Byte>)
    requires ScanBody(b).Good?
    ensures Document(b, ScanBody(b).tree) && Depth(ScanBody(b).tree) <= MAXIMUM_DEPTH
  {
    var lead := SkipSpace(b, 0);
    ObjectSound(b, lead, MAXIMUM_DEPTH);
    var r := ScanObject(b, lead, MAXIMUM_DEPTH);
    assert b[..lead] == b[0..lead] && b[r.end..] == b[r.end..SkipSpace(b, r.end)];
  }

  /** The scanner accepts a body exactly when it is a grammatical object nested at most 128 deep; the tree
      it stands for is then unique. */
  lemma AcceptsExactly(b: seq<Byte>)
    ensures ScanBody(b).Good? <==> exists t :: Document(b, t) && Depth(t) <= 128
    ensures forall t, u :: Document(b, t) && Document(b, u) && Depth(t) <= 128 ==> t == u
    ensures (exists t :: Document(b, t) && Depth(t) > 128) ==> ScanBody(b).TooDeep?
  {
    if ScanBody(b).Good? { AcceptedIsDocument(b); }
    forall t | Document(b, t) ensures ScanBody(b) == Expected(t, |b|, Depth(t), MAXIMUM_DEPTH) {
      DocumentScanned(b, t);
    }
  }
}
