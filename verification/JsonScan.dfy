/** The request-shape scanner as functions of the body and a position, returning the syntax tree they
    recognise and the position after it. */
module JsonScan {
  import opened Machine
  import opened JsonGrammar

  const MAXIMUM_DEPTH: nat := 128

  datatype Scan<T> = Good(tree: T, end: nat) | Bad | TooDeep

  // ---------- lexical pieces ----------

  function SkipSpace(b: seq<Byte>, i: nat): (e: nat)
    requires i <= |b|
    ensures i <= e <= |b| && Space(b[i..e])
    ensures e < |b| ==> !SpaceByte(b[e])
    decreases |b| - i
  {
    if i == |b| || !SpaceByte(b[i]) then i else SkipSpace(b, i + 1)
  }

  function SkipDigits(b: seq<Byte>, i: nat): (e: nat)
    requires i <= |b|
    ensures i <= e <= |b| && Digits(b[i..e])
    ensures e < |b| ==> !Digit(b[e])
    decreases |b| - i
  {
    if i == |b| || !Digit(b[i]) then i else SkipDigits(b, i + 1)
  }

  /** The closing quote of the string whose characters start at i. */
  function ClosingQuote(b: seq<Byte>, i: nat): (q: Option<nat>)
    requires i <= |b|
    ensures q.Some? ==> i <= q.value < |b| && b[q.value] == QUOTE
    decreases |b| - i
  {
    if i == |b| then None
    else if b[i] == QUOTE then Some(i)
    else if b[i] == BACKSLASH then
      if i + 1 >= |b| then None
      else if b[i + 1] == 0x75 then
        if i + 5 < |b| && Hex(b[i + 2]) && Hex(b[i + 3]) && Hex(b[i + 4]) && Hex(b[i + 5]) then ClosingQuote(b, i + 6)
        else None
      else if SimpleEscape(b[i + 1]) then ClosingQuote(b, i + 2)
      else None
    else if b[i] < 0x20 then None
    else ClosingQuote(b, i + 1)
  }

  /** The closing quote of the string that starts at i. */
  function ScanString(b: seq<Byte>, i: nat): (q: Option<nat>)
    requires i <= |b|
    ensures q.Some? ==> i < q.value < |b|
  {
    if i == |b| || b[i] != QUOTE then None else ClosingQuote(b, i + 1)
  }

  function ScanWhole(b: seq<Byte>, i: nat): (e: Option<nat>)
    requires i <= |b|
    ensures e.Some? ==> i < e.value <= |b|
  {
    if i == |b| then None
    else if b[i] == ZERO then if i + 1 < |b| && Digit(b[i + 1]) then None else Some(i + 1)
    else if Digit(b[i]) then Some(SkipDigits(b, i + 1))
    else None
  }

  function ScanFraction(b: seq<Byte>, i: nat): (e: Option<nat>)
    requires i <= |b|
    ensures e.Some? ==> i <= e.value <= |b|
  {
    if i == |b| || b[i] != POINT then Some(i)
    else if i + 1 == |b| || !Digit(b[i + 1]) then None
    else Some(SkipDigits(b, i + 2))
  }

  function ScanExponent(b: seq<Byte>, i: nat): (e: Option<nat>)
    requires i <= |b|
    ensures e.Some? ==> i <= e.value <= |b|
  {
    if i == |b| || (b[i] != 0x65 && b[i] != 0x45) then Some(i)
    else
      var k := if i + 1 < |b| && (b[i + 1] == PLUS || b[i + 1] == MINUS) then i + 2 else i + 1;
      if k == |b| || !Digit(b[k]) then None else Some(SkipDigits(b, k + 1))
  }

  function ScanNumber(b: seq<Byte>, i: nat): (r: Scan<Json>)
    requires i <= |b|
    ensures !r.TooDeep?
    ensures r.Good? ==> i < r.end <= |b|
  {
    var s := if i < |b| && b[i] == MINUS then i + 1 else i;
    var w := ScanWhole(b, s);
    if w.None? then Bad
    else
      var f := ScanFraction(b, w.value);
      if f.None? then Bad
      else
        var e := ScanExponent(b, f.value);
        if e.None? then Bad
        else Good(Num(b[i..s], b[s..w.value], b[w.value..f.value], b[f.value..e.value]), e.value)
  }

  function ScanLiteral(b: seq<Byte>, i: nat, word: seq<Byte>): (r: Scan<Json>)
    requires i <= |b| && word != []
    ensures !r.TooDeep?
    ensures r.Good? ==> i < r.end <= |b|
  {
    if i + |word| <= |b| && b[i..i + |word|] == word then Good(Lit(word), i + |word|) else Bad
  }

  // ---------- values ----------

  /** A value; `depth` is how many more arrays and objects may be entered. */
  function ScanValue(b: seq<Byte>, i: nat, depth: nat): (r: Scan<Json>)
    requires i <= |b|
    ensures r.Good? ==> i < r.end <= |b|
    decreases |b| - i, 1
  {
    if i == |b| then Bad
    else if b[i] == OPEN_OBJECT then ScanObject(b, i, depth)
    else if b[i] == OPEN_ARRAY then ScanArray(b, i, depth)
    else if b[i] == QUOTE then
      var q := ScanString(b, i);
      if q.None? then Bad else Good(Str(b[i + 1..q.value]), q.value + 1)
    else if b[i] == 0x74 then ScanLiteral(b, i, TRUE)
    else if b[i] == 0x66 then ScanLiteral(b, i, FALSE)
    else if b[i] == 0x6E then ScanLiteral(b, i, NULL)
    else ScanNumber(b, i)
  }

  function ScanObject(b: seq<Byte>, i: nat, depth: nat): (r: Scan<Json>)
    requires i < |b| && b[i] == OPEN_OBJECT
    ensures r.Good? ==> i < r.end <= |b|
    decreases |b| - i, 0
  {
    if depth == 0 then TooDeep
    else
      var k := SkipSpace(b, i + 1);
      if k < |b| && b[k] == CLOSE_OBJECT then Good(Obj(b[i + 1..k], NoMember), k + 1)
      else Braced(b[i + 1..k], ScanMembers(b, k, depth - 1))
  }

  function ScanArray(b: seq<Byte>, i: nat, depth: nat): (r: Scan<Json>)
    requires i < |b| && b[i] == OPEN_ARRAY
    ensures r.Good? ==> i < r.end <= |b|
    decreases |b| - i, 0
  {
    if depth == 0 then TooDeep
    else
      var k := SkipSpace(b, i + 1);
      if k < |b| && b[k] == CLOSE_ARRAY then Good(Arr(b[i + 1..k], NoItem), k + 1)
      else Bracketed(b[i + 1..k], ScanItems(b, k, depth - 1))
  }

  function Braced(open: seq<Byte>, members: Scan<Members>): (r: Scan<Json>)
    ensures r.Good? ==> members.Good? && r.end == members.end + 1
  {
    match members
    case Bad => Bad
    case TooDeep => TooDeep
    case Good(tree, e) => Good(Obj(open, tree), e + 1)
  }

  function Bracketed(open: seq<Byte>, items: Scan<Items>): (r: Scan<Json>)
    ensures r.Good? ==> items.Good? && r.end == items.end + 1
  {
    match items
    case Bad => Bad
    case TooDeep => TooDeep
    case Good(tree, e) => Good(Arr(open, tree), e + 1)
  }

  /** What follows a value inside brackets: its space and the closing bracket, or its space, a comma, the
      space after it and something other than the closing bracket. */
  datatype Separator = Closing(at: nat) | Comma(at: nat, next: nat) | Broken

  function ScanSeparator(b: seq<Byte>, n: nat, close: Byte): (s: Separator)
    requires n <= |b|
    ensures s.Closing? ==> n <= s.at < |b| && b[s.at] == close
    ensures s.Comma? ==> n <= s.at < s.next < |b|
  {
    var a := SkipSpace(b, n);
    if a == |b| then Broken
    else if b[a] == close then Closing(a)
    else if b[a] == COMMA then
      var c := SkipSpace(b, a + 1);
      if c == |b| || b[c] == close then Broken else Comma(a, c)
    else Broken
  }

  /** At least one item, up to but not including the closing bracket. */
  function ScanItems(b: seq<Byte>, i: nat, depth: nat): (r: Scan<Items>)
    requires i <= |b|
    ensures r.Good? ==> i < r.end < |b| && b[r.end] == CLOSE_ARRAY && r.tree.Item?
    decreases |b| - i, 2
  {
    match ScanValue(b, i, depth)
    case Bad => Bad
    case TooDeep => TooDeep
    case Good(value, n) => ScanItemsAfter(b, n, depth, value)
  }

  /** The rest of the items once a value has ended at n. */
  function ScanItemsAfter(b: seq<Byte>, n: nat, depth: nat, value: Json): (r: Scan<Items>)
    requires n <= |b|
    ensures r.Good? ==> n <= r.end < |b| && b[r.end] == CLOSE_ARRAY && r.tree.Item?
    decreases |b| - n, 3
  {
    match ScanSeparator(b, n, CLOSE_ARRAY)
    case Closing(a) => Good(Item(value, b[n..a], [], NoItem), a)
    case Comma(a, c) => PrependedItem(value, b[n..a], b[a + 1..c], ScanItems(b, c, depth))
    case Broken => Bad
  }

  function PrependedItem(value: Json, after: seq<Byte>, before: seq<Byte>, tail: Scan<Items>): (r: Scan<Items>)
    ensures r.Good? ==> tail.Good? && r.end == tail.end && r.tree.Item?
  {
    match tail
    case Bad => Bad
    case TooDeep => TooDeep
    case Good(items, e) => Good(Item(value, after, before, items), e)
  }

  /** A member so far: its name, the spaces around the colon, and its value. */
  datatype Pair = Pair(name: seq<Byte>, nameAfter: seq<Byte>, colonAfter: seq<Byte>, value: Json)

  /** Where a member's name closes, its colon stands and its value starts. */
  datatype Head = Head(quote: nat, colon: nat, value: nat)

  function ScanHead(b: seq<Byte>, i: nat): (h: Option<Head>)
    requires i <= |b|
    ensures h.Some? ==> i < h.value.quote < h.value.colon < h.value.value <= |b|
  {
    var q := ScanString(b, i);
    if q.None? then None
    else
      var colon := SkipSpace(b, q.value + 1);
      if colon == |b| || b[colon] != COLON then None
      else Some(Head(q.value, colon, SkipSpace(b, colon + 1)))
  }

  function ScanPair(b: seq<Byte>, i: nat, depth: nat): (r: Scan<Pair>)
    requires i <= |b|
    ensures r.Good? ==> i < r.end <= |b|
    decreases |b| - i, 2
  {
    var h := ScanHead(b, i);
    if h.None? then Bad
    else
      var Head(q, colon, v) := h.value;
      Paired(b[i + 1..q], b[q + 1..colon], b[colon + 1..v], ScanValue(b, v, depth))
  }

  function Paired(name: seq<Byte>, nameAfter: seq<Byte>, colonAfter: seq<Byte>, value: Scan<Json>): Scan<Pair> {
    match value
    case Bad => Bad
    case TooDeep => TooDeep
    case Good(tree, e) => Good(Pair(name, nameAfter, colonAfter, tree), e)
  }

  /** At least one member, up to but not including the closing brace. */
  function ScanMembers(b: seq<Byte>, i: nat, depth: nat): (r: Scan<Members>)
    requires i <= |b|
    ensures r.Good? ==> i < r.end < |b| && b[r.end] == CLOSE_OBJECT && r.tree.Member?
    decreases |b| - i, 3
  {
    match ScanPair(b, i, depth)
    case Bad => Bad
    case TooDeep => TooDeep
    case Good(pair, n) => ScanMembersAfter(b, n, depth, pair)
  }

  function ScanMembersAfter(b: seq<Byte>, n: nat, depth: nat, p: Pair): (r: Scan<Members>)
    requires n <= |b|
    ensures r.Good? ==> n <= r.end < |b| && b[r.end] == CLOSE_OBJECT && r.tree.Member?
    decreases |b| - n, 4
  {
    match ScanSeparator(b, n, CLOSE_OBJECT)
    case Closing(a) => Good(MemberOf(p, b[n..a], [], NoMember), a)
    case Comma(a, c) => Prepended(p, b[n..a], b[a + 1..c], ScanMembers(b, c, depth))
    case Broken => Bad
  }

  function Prepended(p: Pair, after: seq<Byte>, before: seq<Byte>, tail: Scan<Members>): (r: Scan<Members>)
    ensures r.Good? ==> tail.Good? && r.end == tail.end && r.tree.Member?
  {
    match tail
    case Bad => Bad
    case TooDeep => TooDeep
    case Good(members, e) => Good(MemberOf(p, after, before, members), e)
  }

  function MemberOf(p: Pair, after: seq<Byte>, before: seq<Byte>, tail: Members): Members {
    Member(p.name, p.nameAfter, p.colonAfter, p.value, after, before, tail)
  }

  /** The whole body: one object with space around it. */
  function ScanBody(b: seq<Byte>): Scan<Json> {
    var lead := SkipSpace(b, 0);
    if lead == |b| || b[lead] != OPEN_OBJECT then Bad
    else match ScanObject(b, lead, MAXIMUM_DEPTH)
      case Good(t, e) => if SkipSpace(b, e) == |b| then Good(t, |b|) else Bad
      case Bad => Bad
      case TooDeep => TooDeep
  }
}
