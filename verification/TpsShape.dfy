/** What a request body says about its fan-out: how many sequences it asks the backend to decode. */
module TpsShape {
  import opened Machine
  import opened JsonGrammar

  datatype Endpoint = EndpointUnknown | ChatCompletions | Completions | Responses

  const PROMPT: seq<Byte> := [0x70, 0x72, 0x6F, 0x6D, 0x70, 0x74]
  const N: seq<Byte> := [0x6E]
  const BEST_OF: seq<Byte> := [0x62, 0x65, 0x73, 0x74, 0x5F, 0x6F, 0x66]
  const STREAM: seq<Byte> := [0x73, 0x74, 0x72, 0x65, 0x61, 0x6D]

  // ---------- numbers ----------

  function Decimal(s: seq<Byte>): nat
    requires Digits(s)
  {
    if s == [] then 0 else Decimal(s[..|s| - 1]) * 10 + (s[|s| - 1] - ZERO)
  }

  /** A plain run of digits whose value fits an int64. */
  function NonnegativeInt64(s: seq<Byte>): Option<int> {
    if s != [] && Digits(s) && Decimal(s) <= MAX_INT64 then Some(Decimal(s)) else None
  }

  lemma {:induction false} PrefixIsSmaller(s: seq<Byte>, k: nat)
    requires Digits(s) && k <= |s|
    ensures Decimal(s[..k]) <= Decimal(s)
  {
    if k < |s| {
      PrefixIsSmaller(s[..|s| - 1], k);
      assert s[..|s| - 1][..k] == s[..k];
    } else {
      assert s[..k] == s;
    }
  }

  lemma DecimalStep(s: seq<Byte>, k: nat)
    requires Digits(s) && k < |s|
    ensures Digits(s[..k]) && Decimal(s[..k + 1]) == Decimal(s[..k]) * 10 + (s[k] - ZERO)
  {
    assert s[..k + 1][..k] == s[..k];
  }

  method ParseNonnegativeInt64(value: seq<Byte>) returns (r: Option<int>)
    ensures r == NonnegativeInt64(value)
  {
    if |value| == 0 {
      return None;
    }
    var result := 0;
    for i := 0 to |value|
      invariant Digits(value[..i]) && result == Decimal(value[..i]) <= MAX_INT64
    {
      if !Digit(value[i]) {
        return None;
      }
      assert value[..i + 1] == value[..i] + [value[i]];
      DecimalStep(value[..i + 1], i);
      assert value[..i + 1][..i] == value[..i] && value[..i + 1][..i + 1] == value[..i + 1];
      var digit := value[i] - ZERO;
      if result > (MAX_INT64 - digit) / 10 {
        if Digits(value) { PrefixIsSmaller(value, i + 1); }
        return None;
      }
      result := result * 10 + digit;
    }
    assert value[..|value|] == value;
    return Some(result);
  }

  // ---------- strings ----------

  function HexValue(b: Byte): Option<nat> {
    if Digit(b) then Some(b - ZERO)
    else if 0x61 <= b <= 0x66 then Some(b - 0x61 + 10)
    else if 0x41 <= b <= 0x46 then Some(b - 0x41 + 10)
    else None
  }

  /** The next character of a string, if it is ASCII, and the position after it. */
  function NextAscii(raw: seq<Byte>, i: nat): (r: Option<(Byte, nat)>)
    ensures r.Some? ==> i < r.value.1 <= |raw| && r.value.0 < 0x80
  {
    if i >= |raw| then None
    else if raw[i] != BACKSLASH then if raw[i] < 0x80 then Some((raw[i], i + 1)) else None
    else if i + 1 >= |raw| then None
    else
      var e := raw[i + 1];
      if e == QUOTE || e == BACKSLASH || e == 0x2F then Some((e, i + 2))
      else if e == 0x62 then Some((8, i + 2))
      else if e == 0x66 then Some((12, i + 2))
      else if e == 0x6E then Some((10, i + 2))
      else if e == 0x72 then Some((13, i + 2))
      else if e == 0x74 then Some((9, i + 2))
      else if e == 0x75 && i + 5 < |raw| then
        var h0, h1, h2, h3 := HexValue(raw[i + 2]), HexValue(raw[i + 3]), HexValue(raw[i + 4]), HexValue(raw[i + 5]);
        if h0.None? || h1.None? || h2.None? || h3.None? then None
        else
          var unit := ((h0.value * 16 + h1.value) * 16 + h2.value) * 16 + h3.value;
          if unit > 0x7F then None else Some((unit, i + 6))
      else None
  }

  /** The characters of a string from i on, if all are ASCII. */
  function Decode(raw: seq<Byte>, i: nat): Option<seq<Byte>>
    requires i <= |raw|
    decreases |raw| - i
  {
    if i == |raw| then Some([])
    else
      var next := NextAscii(raw, i);
      if next.None? then None
      else
        var rest := Decode(raw, next.value.1);
        if rest.None? then None else Some([next.value.0] + rest.value)
  }

  /** The string with these characters between its quotes spells the candidate. */
  predicate Means(raw: seq<Byte>, candidate: seq<Byte>) {
    Decode(raw, 0) == Some(candidate)
  }

  method EscapedEquals(raw: seq<Byte>, candidate: seq<Byte>) returns (same: bool)
    ensures same == Means(raw, candidate)
  {
    var c, i := 0, 0;
    while i < |raw|
      invariant i <= |raw| && c <= |candidate|
      invariant Means(raw, candidate) <==> Decode(raw, i) == Some(candidate[c..])
      decreases |raw| - i
    {
      var next := NextAscii(raw, i);
      if next.None? || c >= |candidate| || candidate[c] != next.value.0 {
        return false;
      }
      assert candidate[c..] == [next.value.0] + candidate[c + 1..];
      assert candidate[c..][1..] == candidate[c + 1..];
      i := next.value.1;
      c := c + 1;
    }
    return c == |candidate|;
  }

  lemma {:induction false} PlainDecodes(raw: seq<Byte>, i: nat)
    requires i <= |raw| && forall k :: 0 <= k < |raw| ==> raw[k] != BACKSLASH
    ensures Decode(raw, i) == if forall k :: i <= k < |raw| ==> raw[k] < 0x80 then Some(raw[i..]) else None
    decreases |raw| - i
  {
    if i < |raw| {
      PlainDecodes(raw, i + 1);
      assert raw[i..] == [raw[i]] + raw[i + 1..];
    }
  }

  /** The comparison the parser makes: decoded if the string had escapes, byte by byte if not. */
  method SpanEquals(raw: seq<Byte>, escaped: bool, candidate: seq<Byte>) returns (same: bool)
    requires escaped <==> BACKSLASH in raw
    requires forall k :: 0 <= k < |candidate| ==> candidate[k] < 0x80
    ensures same == Means(raw, candidate)
  {
    if escaped {
      same := EscapedEquals(raw, candidate);
      return;
    }
    PlainDecodes(raw, 0);
    assert raw[0..] == raw;
    if |raw| != |candidate| {
      return false;
    }
    for i := 0 to |raw|
      invariant raw[..i] == candidate[..i]
    {
      if raw[i] != candidate[i] {
        return false;
      }
    }
    assert raw == raw[..|raw|] == candidate[..|candidate|] == candidate;
    return true;
  }

  // ---------- positive integers, bare or in a string ----------

  predicate StringSpace(b: Byte) { SpaceByte(b) || b == 0x0B || b == 0x0C }

  /** Digits from i to j with only space around them. */
  predicate SpacedDigits(s: seq<Byte>, i: nat, j: nat) {
    && i < j <= |s| && Digits(s[i..j])
    && (forall k :: 0 <= k < i ==> StringSpace(s[k]))
    && (forall k :: j <= k < |s| ==> StringSpace(s[k]))
  }

  lemma SpacedDigitsUnique(s: seq<Byte>, i: nat, j: nat, k: nat, l: nat)
    requires SpacedDigits(s, i, j) && SpacedDigits(s, k, l)
    ensures i == k && j == l
  {
    assert Digit(s[i]) && Digit(s[k]) by { assert s[i..j][0] == s[i] && s[k..l][0] == s[k]; }
    assert Digit(s[j - 1]) && Digit(s[l - 1]) by {
      assert s[i..j][j - i - 1] == s[j - 1] && s[k..l][l - k - 1] == s[l - 1];
    }
  }

  /** The value of the digits in a string, if it is digits with space around them, positive and an int64. */
  ghost function PositiveText(s: seq<Byte>): Option<int> {
    if exists i: nat, j: nat :: SpacedDigits(s, i, j) then
      var i: nat, j: nat :| SpacedDigits(s, i, j);
      if 0 < Decimal(s[i..j]) <= MAX_INT64 then Some(Decimal(s[i..j])) else None
    else None
  }

  /** The positive int64 in the characters of a string. */
  ghost function QuotedPositive(raw: seq<Byte>): Option<int> {
    if Decode(raw, 0).None? then None else PositiveText(Decode(raw, 0).value)
  }

  lemma PositiveTextIs(s: seq<Byte>, i: nat, j: nat)
    requires SpacedDigits(s, i, j)
    ensures PositiveText(s) == if 0 < Decimal(s[i..j]) <= MAX_INT64 then Some(Decimal(s[i..j])) else None
  {
    var k: nat, l: nat :| SpacedDigits(s, k, l) &&
      PositiveText(s) == if 0 < Decimal(s[k..l]) <= MAX_INT64 then Some(Decimal(s[k..l])) else None;
    SpacedDigitsUnique(s, i, j, k, l);
  }

  lemma DigitInside(s: seq<Byte>, i: nat, j: nat, k: nat)
    requires SpacedDigits(s, i, j) && i <= k < j
    ensures Digit(s[k])
  {
    assert s[i..j][k - i] == s[k];
  }

  /** How far the loop over a string's characters has come: the digits seen so far and the space around them. */
  predicate Seen(text: seq<Byte>, start: nat, stop: nat, digits: bool, trailing: bool) {
    && start <= stop <= |text| && Digits(text[start..stop])
    && (forall k :: 0 <= k < start ==> StringSpace(text[k]))
    && (forall k :: stop <= k < |text| ==> StringSpace(text[k]))
    && (digits <==> start < stop) && (trailing <==> digits && stop < |text|)
    && (!digits ==> stop == |text|)
  }

  /** A character that is neither space nor digit, or a digit after trailing space, spoils the number. */
  lemma Spoiled(text: seq<Byte>, c: Byte, rest: seq<Byte>, start: nat, stop: nat, digits: bool, trailing: bool)
    requires Seen(text, start, stop, digits, trailing) && !StringSpace(c) && (trailing || !Digit(c))
    ensures PositiveText(text + [c] + rest) == None
  {
    var full := text + [c] + rest;
    assert full[|text|] == c;
    if trailing {
      assert full[start] == text[start..stop][0] && StringSpace(full[stop]);
    }
    forall i: nat, j: nat ensures !SpacedDigits(full, i, j) {
      if SpacedDigits(full, i, j) {
        if i <= |text| < j { DigitInside(full, i, j, |text|); }
        if trailing && i <= stop < j { DigitInside(full, i, j, stop); }
      }
    }
  }

  lemma InsideFull(text: seq<Byte>, c: Byte, rest: seq<Byte>, i: nat, j: nat)
    requires i <= |text| < j <= |text + [c] + rest|
    ensures (text + [c] + rest)[i..j][..|text| - i] == text[i..|text|]
    ensures (text + [c] + rest)[i..j][|text| - i] == c
  {
  }

  /** Once the digits seen exceed int64, so does the whole number. */
  lemma TooLarge(text: seq<Byte>, c: Byte, rest: seq<Byte>, start: nat, stop: nat, digits: bool)
    requires Seen(text, start, stop, digits, false) && Digit(c)
    requires Decimal(text[start..stop]) * 10 + (c - ZERO) > MAX_INT64
    ensures PositiveText(text + [c] + rest) == None
  {
    var full, p := text + [c] + rest, |text|;
    if i: nat, j: nat :| SpacedDigits(full, i, j) {
      Aligned(text, c, rest, start, stop, digits, i, j);
      InsideFull(text, c, rest, i, j);
      DecimalStep(full[i..j], p - i);
      PrefixIsSmaller(full[i..j], p + 1 - i);
      PositiveTextIs(full, i, j);
    }
  }

  /** Any number in the whole text starts where the digits seen start, and includes the next one. */
  lemma Aligned(text: seq<Byte>, c: Byte, rest: seq<Byte>, start: nat, stop: nat, digits: bool, i: nat, j: nat)
    requires Seen(text, start, stop, digits, false) && Digit(c)
    requires SpacedDigits(text + [c] + rest, i, j)
    ensures stop == |text| && i == start && |text| < j
  {
    var full, p := text + [c] + rest, |text|;
    assert forall k :: 0 <= k < p ==> full[k] == text[k];
    assert full[p] == c;
    DigitInside(full, i, j, i);
    assert i >= start;
    if start < stop {
      assert Digit(full[start]) by { assert full[start] == text[start..stop][0]; }
      assert i <= start;
    }
  }

  lemma SeenStep(text: seq<Byte>, c: Byte, start: nat, stop: nat, digits: bool, trailing: bool)
    requires Seen(text, start, stop, digits, trailing)
    ensures StringSpace(c) ==>
              Seen(text + [c], if digits then start else |text| + 1, if digits then stop else |text| + 1, digits, digits)
    ensures StringSpace(c) && digits ==> (text + [c])[start..stop] == text[start..stop]
    ensures Digit(c) && !trailing ==> Seen(text + [c], start, |text| + 1, true, false)
    ensures Digit(c) && !trailing ==> (text + [c])[start..|text| + 1] == text[start..stop] + [c]
  {
    if Digit(c) && !trailing {
      assert stop == |text|;
      assert (text + [c])[start..|text| + 1] == text[start..stop] + [c];
    }
    if StringSpace(c) && digits { assert (text + [c])[start..stop] == text[start..stop]; }
  }

  lemma AllSeen(text: seq<Byte>, start: nat, stop: nat, digits: bool, trailing: bool)
    requires Seen(text, start, stop, digits, trailing) && Decimal(text[start..stop]) <= MAX_INT64
    ensures PositiveText(text)
         == if digits && Decimal(text[start..stop]) > 0 then Some(Decimal(text[start..stop])) else None
  {
    if digits {
      PositiveTextIs(text, start, stop);
    } else {
      assert forall i: nat, j: nat :: SpacedDigits(text, i, j) ==> Digit(text[i..j][0]) && StringSpace(text[i]);
    }
  }

  function Join(text: seq<Byte>, rest: Option<seq<Byte>>): Option<seq<Byte>> {
    if rest.None? then None else Some(text + rest.value)
  }

  lemma DecodeStep(raw: seq<Byte>, i: nat, text: seq<Byte>)
    requires i < |raw| && Decode(raw, 0) == Join(text, Decode(raw, i))
    ensures NextAscii(raw, i).None? ==> Decode(raw, 0).None?
    ensures NextAscii(raw, i).Some? ==>
              var (c, next) := NextAscii(raw, i).value;
              Decode(raw, 0) == Join(text + [c], Decode(raw, next))
  {
    if NextAscii(raw, i).Some? {
      var (c, next) := NextAscii(raw, i).value;
      var rest := Decode(raw, next);
      if rest.Some? { assert text + ([c] + rest.value) == text + [c] + rest.value; }
    }
  }

  /** Space keeps the number; a digit right after the others extends it, unless it leaves int64. */
  lemma ResultStep(text: seq<Byte>, c: Byte, start: nat, stop: nat, digits: bool, trailing: bool)
    requires Seen(text, start, stop, digits, trailing)
    ensures StringSpace(c) ==>
              var (i, j) := if digits then (start, stop) else (|text| + 1, |text| + 1);
              Seen(text + [c], i, j, digits, digits) && Decimal((text + [c])[i..j]) == Decimal(text[start..stop])
    ensures Digit(c) && !trailing ==>
              && Seen(text + [c], start, |text| + 1, true, false)
              && Decimal((text + [c])[start..|text| + 1]) == Decimal(text[start..stop]) * 10 + (c - ZERO)
  {
    SeenStep(text, c, start, stop, digits, trailing);
    if StringSpace(c) && !digits {
      assert text[start..stop] == [] && (text + [c])[|text| + 1..|text| + 1] == [];
    }
    if Digit(c) && !trailing { DecimalAppend(text[start..stop], c); }
  }

  lemma DecimalAppend(s: seq<Byte>, c: Byte)
    requires Digits(s) && Digit(c)
    ensures Digits(s + [c]) && Decimal(s + [c]) == Decimal(s) * 10 + (c - ZERO)
  {
    assert (s + [c])[..|s|] == s;
  }

  method ParseQuotedPositive(raw: seq<Byte>) returns (r: Option<int>)
    ensures r == QuotedPositive(raw)
  {
    var result, digits, trailing, index := 0, false, false, 0;
    ghost var text: seq<Byte>, start: nat, stop: nat := [], 0, 0;
    assert Decode(raw, 0).Some? ==> [] + Decode(raw, 0).value == Decode(raw, 0).value;
    while index < |raw|
      invariant index <= |raw| && Seen(text, start, stop, digits, trailing)
      invariant result == Decimal(text[start..stop]) <= MAX_INT64
      invariant Decode(raw, 0) == Join(text, Decode(raw, index))
      decreases |raw| - index
    {
      DecodeStep(raw, index, text);
      var next := NextAscii(raw, index);
      if next.None? {
        return None;
      }
      var current := next.value.0;
      index := next.value.1;
      ghost var rest := Decode(raw, index);
      ResultStep(text, current, start, stop, digits, trailing);
      if StringSpace(current) {
        trailing := digits;
        if !digits { start, stop := |text| + 1, |text| + 1; }
        text := text + [current];
      } else {
        if trailing || !Digit(current) {
          if rest.Some? { Spoiled(text, current, rest.value, start, stop, digits, trailing); }
          return None;
        }
        var digit := current - ZERO;
        if result > (MAX_INT64 - digit) / 10 {
          if rest.Some? { TooLarge(text, current, rest.value, start, stop, digits); }
          return None;
        }
        digits := true;
        result := result * 10 + digit;
        text := text + [current];
        stop := |text|;
      }
    }
    assert text + [] == text;
    AllSeen(text, start, stop, digits, trailing);
    return if digits && result > 0 then Some(result) else None;
  }

  /** The positive int64 a value stands for, as a bare number or as a string. */
  ghost function Positive(value: seq<Byte>): Option<int> {
    if value == [] then None
    else if value[0] != QUOTE then
      if NonnegativeInt64(value).Some? && NonnegativeInt64(value).value > 0 then NonnegativeInt64(value) else None
    else if |value| < 2 || value[|value| - 1] != QUOTE then None
    else QuotedPositive(value[1..|value| - 1])
  }

  method ParsePositive(value: seq<Byte>) returns (r: Option<int>)
    ensures r == Positive(value)
  {
    if |value| == 0 {
      return None;
    }
    if value[0] != QUOTE {
      r := ParseNonnegativeInt64(value);
      return if r.Some? && r.value > 0 then r else None;
    }
    if |value| < 2 || value[|value| - 1] != QUOTE {
      return None;
    }
    r := ParseQuotedPositive(value[1..|value| - 1]);
  }
}
