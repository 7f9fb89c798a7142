/** What the rewriters write and which bytes they treat as blank, in terms of characters. */
module RewriteMeaning {
  import opened Machine
  import opened JsonGrammar
  import opened TpsShape
  import opened FanoutMeaning
  import opened SchedulingPriority

  /** The member is the name priority, a colon and the number in decimal, without spaces. */
  lemma MemberExactly(value: int) returns (digits: seq<Byte>)
    ensures digits != [] && Digits(digits) && (|digits| > 1 ==> digits[0] != ZERO)
    ensures Decimal(digits) == if value < 0 then -value else value
    ensures PriorityMember(value) == Spelled("\"priority\":") + (if value < 0 then Spelled("-") else []) + digits
  {
    var n := if value < 0 then -value else value;
    digits := DigitsOf(n);
    DigitsOfMeaning(n);
    NameExactly();
    assert Spelled("-") == [MINUS];
    IntegerText(value, digits);
    ThreeParts(Spelled("\"priority\":"), if value < 0 then [MINUS] else [], digits);
  }

  lemma ThreeParts(a: seq<Byte>, b: seq<Byte>, c: seq<Byte>)
    ensures a + (b + c) == a + b + c
  {
  }

  lemma NameExactly()
    ensures Quoted(PRIORITY) + [COLON] == Spelled("\"priority\":")
  {
    assert Spelled("\"priority\":") == [34, 112, 114, 105, 111, 114, 105, 116, 121, 34, 58];
  }

  lemma IntegerText(value: int, digits: seq<Byte>)
    requires digits == DigitsOf(if value < 0 then -value else value)
    ensures Text(Integer(value)) == (if value < 0 then [MINUS] else []) + digits
  {
    assert [MINUS] + digits + [] + [] == [MINUS] + digits;
  }

  /** The white space characters of Unicode. */
  predicate UnicodeSpace(c: int) {
    || 9 <= c <= 13 || c == 32 || c == 0x85 || c == 0xA0 || c == 0x1680 || 0x2000 <= c <= 0x200A
    || c == 0x2028 || c == 0x2029 || c == 0x202F || c == 0x205F || c == 0x3000
  }

  /** The UTF-8 encoding of a character of up to sixteen bits (section 3 of RFC 3629). */
  function Utf8(c: nat): seq<Byte>
    requires c < 0x1_0000
  {
    if c < 0x80 then [c]
    else if c < 0x800 then [0xC0 + c / 64, 0x80 + c % 64]
    else [0xE0 + c / 4096, 0x80 + c / 64 % 64, 0x80 + c % 64]
  }

  ghost predicate StartsWithSpace(s: seq<Byte>, n: nat) {
    exists c: nat :: c < 0x1_0000 && UnicodeSpace(c) && |Utf8(c)| == n && Utf8(c) <= s
  }

  lemma SpaceIsFound(s: seq<Byte>, c: nat)
    requires c < 0x1_0000 && UnicodeSpace(c) && Utf8(c) <= s
    ensures SpaceLength(s) == |Utf8(c)|
  {
    assert forall i :: 0 <= i < |Utf8(c)| ==> Utf8(c)[i] == s[i];
  }

  lemma FoundIsSpace(s: seq<Byte>)
    requires SpaceLength(s) > 0
    ensures StartsWithSpace(s, SpaceLength(s))
  {
    var n := SpaceLength(s);
    var a: int, b: int, d: int := s[0], if n > 1 then s[1] else 0x80, if n > 2 then s[2] else 0x80;
    var c: nat := if n == 1 then a else if n == 2 then b else (a - 0xE0) * 4096 + (b - 0x80) * 64 + (d - 0x80);
    assert Utf8(c) == s[..n];
    assert UnicodeSpace(c);
  }

  /** White space at the start is found exactly when the bytes start with the encoding of one. */
  lemma SpaceExactly(s: seq<Byte>, n: nat)
    requires n > 0
    ensures SpaceLength(s) == n <==> StartsWithSpace(s, n)
  {
    if SpaceLength(s) == n { FoundIsSpace(s); }
    if StartsWithSpace(s, n) {
      var c: nat :| c < 0x1_0000 && UnicodeSpace(c) && |Utf8(c)| == n && Utf8(c) <= s;
      SpaceIsFound(s, c);
    }
  }

  /** From the first opening to the last closing brace, with nothing but white space behind. */
  ghost predicate Braced(b: seq<Byte>, i: int, j: int) {
    && 0 <= i < j < |b| && b[i] == Spelled("{")[0] && b[j] == Spelled("}")[0]
    && (forall k :: 0 <= k < i ==> b[k] != Spelled("{")[0])
    && (forall k :: j < k < |b| ==> b[k] != Spelled("}")[0])
    && Blank(b[j + 1..])
  }

  /** On any bytes the buffered rewriter writes exactly if they are braced: the member, after a comma unless
      there is only white space between the braces, right before the last closing brace. */
  lemma BufferedExactly(b: seq<Byte>, member: seq<Byte>)
    ensures Buffered(b, member).Some? <==> exists i, j :: Braced(b, i, j)
    ensures forall i, j :: Braced(b, i, j) ==>
              Buffered(b, member)
              == Option.Some(b[..j] + (if Blank(b[i + 1..j]) then [] else Spelled(",")) + member + b[j..])
  {
    Alphabet();
    assert Spelled("{") == [OPEN_OBJECT] && Spelled("}") == [CLOSE_OBJECT] && Spelled(",") == [COMMA];
    var first, last := FirstIndex(b, OPEN_OBJECT), LastIndex(b, CLOSE_OBJECT);
    if Buffered(b, member).Some? { assert Braced(b, first.value, last.value); }
    forall i, j | Braced(b, i, j)
      ensures first == Option.Some(i) && last == Option.Some(j)
      ensures Buffered(b, member)
              == Option.Some(b[..j] + (if Blank(b[i + 1..j]) then [] else Spelled(",")) + member + b[j..])
    {
      IndexesAre(b, i, j);
      WrittenAt(b, i, j, member);
    }
  }

  lemma WrittenAt(b: seq<Byte>, i: nat, j: nat, member: seq<Byte>)
    requires i < j < |b| && Blank(b[j + 1..])
    ensures BufferedAt(b, Option.Some(i), Option.Some(j), member)
         == Option.Some(b[..j] + (if Blank(b[i + 1..j]) then [] else [COMMA]) + member + b[j..])
  {
    assert b[..j] + [] + member == b[..j] + member;
    assert b[..j] + ([COMMA] + member) == b[..j] + [COMMA] + member;
  }

  lemma IndexesAre(b: seq<Byte>, i: int, j: int)
    requires 0 <= i < j < |b| && b[i] == OPEN_OBJECT && b[j] == CLOSE_OBJECT
    requires forall k :: 0 <= k < i ==> b[k] != OPEN_OBJECT
    requires forall k :: j < k < |b| ==> b[k] != CLOSE_OBJECT
    ensures FirstIndex(b, OPEN_OBJECT) == Option.Some(i) && LastIndex(b, CLOSE_OBJECT) == Option.Some(j)
  {
  }
}
