/** The JSON grammar of RFC 8259, sections 2 to 7, as concrete syntax trees and the bytes they stand for.
    Strings are raw bytes: any byte from 0x20 up may stand in one unescaped, except the quote and backslash. */
module JsonGrammar {

  type Byte = x: int | 0 <= x < 256

  const QUOTE: Byte := 0x22
  const COMMA: Byte := 0x2C
  const COLON: Byte := 0x3A
  const OPEN_ARRAY: Byte := 0x5B
  const BACKSLASH: Byte := 0x5C
  const CLOSE_ARRAY: Byte := 0x5D
  const OPEN_OBJECT: Byte := 0x7B
  const CLOSE_OBJECT: Byte := 0x7D
  const MINUS: Byte := 0x2D
  const PLUS: Byte := 0x2B
  const POINT: Byte := 0x2E
  const ZERO: Byte := 0x30
  const NINE: Byte := 0x39

  const TRUE: seq<Byte> := [0x74, 0x72, 0x75, 0x65]
  const FALSE: seq<Byte> := [0x66, 0x61, 0x6C, 0x73, 0x65]
  const NULL: seq<Byte> := [0x6E, 0x75, 0x6C, 0x6C]

  predicate SpaceByte(b: Byte) { b == 0x20 || b == 0x09 || b == 0x0A || b == 0x0D }

  predicate Space(s: seq<Byte>) { forall i :: 0 <= i < |s| ==> SpaceByte(s[i]) }

  predicate Digit(b: Byte) { ZERO <= b <= NINE }

  predicate Digits(s: seq<Byte>) { forall i :: 0 <= i < |s| ==> Digit(s[i]) }

  predicate Hex(b: Byte) { Digit(b) || 0x61 <= b <= 0x66 || 0x41 <= b <= 0x46 }

  /** What may follow a backslash alone: quote, backslash, solidus, b, f, n, r, t. */
  predicate SimpleEscape(b: Byte) {
    b == QUOTE || b == BACKSLASH || b == 0x2F || b == 0x62 || b == 0x66 || b == 0x6E || b == 0x72 || b == 0x74
  }

  /** Section 7: the characters between the quotes. */
  predicate StringBody(s: seq<Byte>) {
    || s == []
    || (s[0] >= 0x20 && s[0] != QUOTE && s[0] != BACKSLASH && StringBody(s[1..]))
    || (|s| >= 2 && s[0] == BACKSLASH && SimpleEscape(s[1]) && StringBody(s[2..]))
    || (|s| >= 6 && s[0] == BACKSLASH && s[1] == 0x75 && Hex(s[2]) && Hex(s[3]) && Hex(s[4]) && Hex(s[5]) &&
        StringBody(s[6..]))
  }

  /** A value; an array or object starts with the space after its opening bracket. */
  datatype Json =
    | Str(body: seq<Byte>)
    | Num(sign: seq<Byte>, whole: seq<Byte>, fraction: seq<Byte>, exponent: seq<Byte>)
    | Lit(word: seq<Byte>)
    | Arr(open: seq<Byte>, items: Items)
    | Obj(open: seq<Byte>, members: Members)

  /** A value, the space after it, and if items follow, the space after their comma. */
  datatype Items =
    | NoItem
    | Item(value: Json, after: seq<Byte>, before: seq<Byte>, tail: Items)

  /** A name, the spaces on both sides of the colon, then as for items. */
  datatype Members =
    | NoMember
    | Member(name: seq<Byte>, nameAfter: seq<Byte>, colonAfter: seq<Byte>, value: Json,
             after: seq<Byte>, before: seq<Byte>, tail: Members)

  // ---------- the bytes of a tree ----------

  function Text(t: Json): seq<Byte>
  {
    match t
    case Str(body) => Quoted(body)
    case Num(sign, whole, fraction, exponent) => sign + whole + fraction + exponent
    case Lit(word) => word
    case Arr(open, items) => [OPEN_ARRAY] + open + ItemsText(items) + [CLOSE_ARRAY]
    case Obj(open, members) => [OPEN_OBJECT] + open + MembersText(members) + [CLOSE_OBJECT]
  }

  function Quoted(body: seq<Byte>): seq<Byte> {
    [QUOTE] + body + [QUOTE]
  }

  function ItemsText(items: Items): seq<Byte> {
    match items
    case NoItem => []
    case Item(value, after, before, tail) =>
      Text(value) + after + (if tail.NoItem? then [] else [COMMA] + before + ItemsText(tail))
  }

  function MembersText(members: Members): seq<Byte> {
    match members
    case NoMember => []
    case Member(name, nameAfter, colonAfter, value, after, before, tail) =>
      Quoted(name) + nameAfter + [COLON] + colonAfter + Text(value) + after
      + (if tail.NoMember? then [] else [COMMA] + before + MembersText(tail))
  }

  // ---------- which trees are grammatical ----------

  predicate WholePart(s: seq<Byte>) {
    s == [ZERO] || (s != [] && Digits(s) && s[0] != ZERO)
  }

  predicate FractionPart(s: seq<Byte>) {
    s == [] || (|s| >= 2 && s[0] == POINT && Digits(s[1..]))
  }

  predicate ExponentPart(s: seq<Byte>) {
    s == [] ||
    (|s| >= 2 && (s[0] == 0x65 || s[0] == 0x45) &&
     (Digits(s[1..]) || (|s| >= 3 && (s[1] == PLUS || s[1] == MINUS) && Digits(s[2..]))))
  }

  predicate WellFormed(t: Json) {
    match t
    case Str(body) => StringBody(body)
    case Num(sign, whole, fraction, exponent) =>
      (sign == [] || sign == [MINUS]) && WholePart(whole) && FractionPart(fraction) && ExponentPart(exponent)
    case Lit(word) => word == TRUE || word == FALSE || word == NULL
    case Arr(open, items) => Space(open) && ItemsWellFormed(items)
    case Obj(open, members) => Space(open) && MembersWellFormed(members)
  }

  predicate ItemsWellFormed(items: Items) {
    match items
    case NoItem => true
    case Item(value, after, before, tail) =>
      WellFormed(value) && Space(after) && Space(before) && (tail.NoItem? ==> before == []) && ItemsWellFormed(tail)
  }

  predicate MembersWellFormed(members: Members) {
    match members
    case NoMember => true
    case Member(name, nameAfter, colonAfter, value, after, before, tail) =>
      && StringBody(name) && Space(nameAfter) && Space(colonAfter) && WellFormed(value)
      && Space(after) && Space(before) && (tail.NoMember? ==> before == []) && MembersWellFormed(tail)
  }

  // ---------- nesting ----------

  function Max(a: nat, b: nat): nat { if a < b then b else a }

  /** How many arrays and objects enclose the innermost value. */
  function Depth(t: Json): nat {
    match t
    case Arr(_, items) => 1 + ItemsDepth(items)
    case Obj(_, members) => 1 + MembersDepth(members)
    case _ => 0
  }

  function ItemsDepth(items: Items): nat {
    match items
    case NoItem => 0
    case Item(value, _, _, tail) => Max(Depth(value), ItemsDepth(tail))
  }

  function MembersDepth(members: Members): nat {
    match members
    case NoMember => 0
    case Member(_, _, _, value, _, _, tail) => Max(Depth(value), MembersDepth(tail))
  }
}
