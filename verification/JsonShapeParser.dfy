/** The recursive-descent parser object: each method advances the index exactly as the scan of the grammar
    does, and the prompt-specialised methods advance it exactly as the generic ones. */
module JsonShapeParserObject {
  import opened Machine
  import opened JsonGrammar
  import opened JsonScan
  import opened JsonSound
  import opened JsonComplete
  import opened TpsShape
  import opened TpsFanout
  import opened FanoutMeaning

  /** Where a scan ends, without the tree. */
  datatype Verdict = Ends(end: nat) | Fails | Exceeds

  function Strip<T>(r: Scan<T>): Verdict {
    match r
    case Good(_, e) => Ends(e)
    case Bad => Fails
    case TooDeep => Exceeds
  }

  function PastClosing(v: Verdict): Verdict {
    if v.Ends? then Ends(v.end + 1) else v
  }

  lemma ItemsUnfold(b: seq<Byte>, i: nat, depth: nat)
    requires i <= |b|
    ensures !Strip(ScanValue(b, i, depth)).Ends? ==> Strip(ScanItems(b, i, depth)) == Strip(ScanValue(b, i, depth))
    ensures Strip(ScanValue(b, i, depth)).Ends? ==>
              Strip(ScanItems(b, i, depth)) == ItemsFrom(b, Strip(ScanValue(b, i, depth)).end, depth)
  {
  }

  /** The verdict on the item loop once a value has ended at n. */
  function ItemsFrom(b: seq<Byte>, n: nat, depth: nat): Verdict
    requires n <= |b|
  {
    match ScanSeparator(b, n, CLOSE_ARRAY)
    case Closing(a) => Ends(a)
    case Comma(_, c) => Strip(ScanItems(b, c, depth))
    case Broken => Fails
  }

  lemma MembersUnfold(b: seq<Byte>, i: nat, depth: nat)
    requires i <= |b|
    ensures !Strip(ScanPair(b, i, depth)).Ends? ==> Strip(ScanMembers(b, i, depth)) == Strip(ScanPair(b, i, depth))
    ensures Strip(ScanPair(b, i, depth)).Ends? ==>
              Strip(ScanMembers(b, i, depth)) == MembersFrom(b, Strip(ScanPair(b, i, depth)).end, depth)
  {
  }

  /** The verdict on the member loop once a value has ended at n. */
  function MembersFrom(b: seq<Byte>, n: nat, depth: nat): Verdict
    requires n <= |b|
  {
    match ScanSeparator(b, n, CLOSE_OBJECT)
    case Closing(a) => Ends(a)
    case Comma(_, c) => Strip(ScanMembers(b, c, depth))
    case Broken => Fails
  }

  lemma PairUnfold(b: seq<Byte>, i: nat, depth: nat)
    requires i <= |b|
    ensures var h := ScanHead(b, i);
            Strip(ScanPair(b, i, depth)) == if h.None? then Fails else Strip(ScanValue(b, h.value.value, depth))
  {
  }

  lemma PairTree(b: seq<Byte>, i: nat, depth: nat)
    requires i <= |b|
    ensures ScanPair(b, i, depth).Good? ==>
              var h, p := ScanHead(b, i).value, ScanPair(b, i, depth).tree;
              && p.name == b[i + 1..h.quote] && ScanValue(b, h.value, depth).Good?
              && p.value == ScanValue(b, h.value, depth).tree
  {
  }

  /** The trees of the item loop: the value just scanned, and the items still ahead. */
  lemma ItemsTree(b: seq<Byte>, i: nat, depth: nat)
    requires i <= |b| && ScanItems(b, i, depth).Good?
    ensures var r, v := ScanItems(b, i, depth), ScanValue(b, i, depth);
            && v.Good? && r.tree.value == v.tree
            && match ScanSeparator(b, v.end, CLOSE_ARRAY)
               case Closing(_) => r.tree.tail == NoItem
               case Comma(_, c) => ScanItems(b, c, depth).Good? && r.tree.tail == ScanItems(b, c, depth).tree
               case Broken => false
  {
  }

  lemma MembersTree(b: seq<Byte>, i: nat, depth: nat)
    requires i <= |b| && ScanMembers(b, i, depth).Good?
    ensures var r, p := ScanMembers(b, i, depth), ScanPair(b, i, depth);
            && p.Good? && r.tree.name == p.tree.name && r.tree.value == p.tree.value
            && match ScanSeparator(b, p.end, CLOSE_OBJECT)
               case Closing(_) => r.tree.tail == NoMember
               case Comma(_, c) => ScanMembers(b, c, depth).Good? && r.tree.tail == ScanMembers(b, c, depth).tree
               case Broken => false
  {
  }

  /** The verdict on an object from just past its opening brace: empty, or members. */
  function Inner(b: seq<Byte>, i: nat, depth: nat): Verdict
    requires i <= |b|
  {
    var k := SkipSpace(b, i);
    if k < |b| && b[k] == CLOSE_OBJECT then Ends(k + 1) else PastClosing(Strip(ScanMembers(b, k, depth)))
  }

  function InnerMembers(b: seq<Byte>, i: nat, depth: nat): Members
    requires i <= |b| && Inner(b, i, depth).Ends?
  {
    var k := SkipSpace(b, i);
    if k < |b| && b[k] == CLOSE_OBJECT then NoMember else ScanMembers(b, k, depth).tree
  }

  lemma ObjectTree(b: seq<Byte>, i: nat, depth: nat)
    requires i < |b| && b[i] == OPEN_OBJECT && depth > 0
    ensures Strip(ScanObject(b, i, depth)) == Inner(b, i + 1, depth - 1)
    ensures ScanObject(b, i, depth).Good? ==> ScanObject(b, i, depth).tree.members == InnerMembers(b, i + 1, depth - 1)
  {
  }

  lemma ScannedText(b: seq<Byte>, i: nat, depth: nat)
    requires i <= |b| && ScanValue(b, i, depth).Good?
    ensures b[i..ScanValue(b, i, depth).end] == Text(ScanValue(b, i, depth).tree)
  {
    ValueSound(b, i, depth);
  }

  /** The kind of a scanned value can be told from its first byte, or from its digits. */
  lemma ScannedKind(b: seq<Byte>, i: nat, depth: nat)
    requires i < |b| && ScanValue(b, i, depth).Good?
    ensures var r := ScanValue(b, i, depth);
            && (b[i] == QUOTE <==> r.tree.Str?) && (b[i] == OPEN_ARRAY <==> r.tree.Arr?)
            && (b[i] != QUOTE && b[i] != OPEN_ARRAY ==>
                  KindOf(r.tree) == (if NonnegativeInt64(b[i..r.end]).Some? then KindToken else KindOther))
  {
    ScannedText(b, i, depth);
  }

  /** The prompt elements so far: all of one kind until something else turned up. */
  predicate Steady(kind: Kind, supported: bool, ahead: Items) {
    supported && if kind == KindOther then ahead.Item? && OneKind(ahead) else AllOfKind(ahead, kind)
  }

  lemma SteadyStep(kind: Kind, supported: bool, ahead: Items)
    requires ahead.Item?
    ensures var element := KindOf(ahead.value);
            var after := supported && element != KindOther && (kind == KindOther || kind == element);
            Steady(kind, supported, ahead) <==> Steady(if kind == KindOther then element else kind, after, ahead.tail)
  {
  }

  predicate Between(b: seq<Byte>, i: nat, j: nat, c: Byte)
    requires i <= j <= |b|
  {
    exists k :: i <= k < j && b[k] == c
  }

  lemma InSlice(b: seq<Byte>, i: nat, j: nat, c: Byte)
    requires i <= j <= |b|
    ensures c in b[i..j] <==> Between(b, i, j, c)
  {
    forall k | i <= k < j ensures b[k] in b[i..j] {
      assert b[i..j][k - i] == b[k];
    }
  }

  datatype ShapeResult = Recognised(shape: Shape) | ScanLimit | Rejected

  class JsonShapeParser {
    const body: seq<Byte>
    var index: nat
    var depth: nat
    var depthLimitExceeded: bool

    ghost predicate Valid()
      reads this
    {
      index <= |body| && depth <= MAXIMUM_DEPTH
    }

    constructor (body: seq<Byte>)
      ensures Valid() && this.body == body && index == 0 && depth == 0 && !depthLimitExceeded
    {
      this.body := body;
      index, depth, depthLimitExceeded := 0, 0, false;
    }

    /** The method returned `ok` and did what the scan `v` says. */
    twostate predicate Follows(v: Verdict, ok: bool)
      reads this
    {
      && Valid() && depth == old(depth)
      && (ok <==> v.Ends?) && (ok ==> index == v.end)
      && depthLimitExceeded == (old(depthLimitExceeded) || v.Exceeds?)
    }

    ghost function Room(): nat
      requires Valid()
      reads this
    {
      MAXIMUM_DEPTH - depth
    }

    method SkipSpaces()
      requires Valid()
      modifies `index
      ensures Valid() && index == SkipSpace(body, old(index))
    {
      while index < |body| && SpaceByte(body[index])
        invariant Valid() && SkipSpace(body, index) == SkipSpace(body, old(index))
        decreases |body| - index
      {
        index := index + 1;
      }
    }

    method Consume(value: Byte) returns (ok: bool)
      requires Valid()
      modifies `index
      ensures Valid() && ok == (old(index) < |body| && body[old(index)] == value)
      ensures index == if ok then old(index) + 1 else old(index)
    {
      if index >= |body| || body[index] != value {
        return false;
      }
      index := index + 1;
      return true;
    }

    method ConsumeLiteral(word: seq<Byte>) returns (ok: bool)
      requires Valid() && word != []
      modifies this
      ensures Follows(Strip(ScanLiteral(body, old(index), word)), ok)
    {
      if |body| - index < |word| {
        return false;
      }
      for offset := 0 to |word|
        invariant index == old(index) && Valid() && depth == old(depth)
        invariant depthLimitExceeded == old(depthLimitExceeded)
        invariant forall k :: 0 <= k < offset ==> body[index..index + |word|][k] == word[k]
      {
        assert body[index..index + |word|][offset] == body[index + offset];
        if body[index + offset] != word[offset] {
          return false;
        }
      }
      assert body[index..index + |word|] == word;
      index := index + |word|;
      return true;
    }

    /** Returns the characters between the quotes, and whether any of them is escaped. */
    method ParseString() returns (ok: bool, raw: seq<Byte>, escaped: bool)
      requires Valid()
      modifies `index
      ensures Valid()
      ensures var q := ScanString(body, old(index));
              ok == q.Some? && (ok ==> index == q.value + 1 && raw == body[old(index) + 1..q.value])
      ensures ok ==> (escaped <==> BACKSLASH in raw)
    {
      raw, escaped := [], false;
      if index >= |body| || body[index] != QUOTE {
        return false, raw, escaped;
      }
      index := index + 1;
      var rawStart := index;
      while index < |body|
        invariant rawStart <= index <= |body|
        invariant ClosingQuote(body, index) == ClosingQuote(body, rawStart)
        invariant escaped <==> Between(body, rawStart, index, BACKSLASH)
        decreases |body| - index
      {
        var value := body[index];
        if value == QUOTE {
          raw := body[rawStart..index];
          InSlice(body, rawStart, index, BACKSLASH);
          index := index + 1;
          return true, raw, escaped;
        } else if value == BACKSLASH {
          escaped := true;
          index := index + 1;
          if index >= |body| {
            return false, raw, escaped;
          }
          var escape := body[index];
          if escape == 0x75 {
            if index + 4 >= |body| {
              return false, raw, escaped;
            }
            for offset := 1 to 5
              invariant forall k :: index < k < index + offset ==> Hex(body[k])
            {
              if !Hex(body[index + offset]) {
                return false, raw, escaped;
              }
            }
            assert Hex(body[index + 1]) && Hex(body[index + 2]) && Hex(body[index + 3]) && Hex(body[index + 4]);
            index := index + 5;
          } else {
            if !SimpleEscape(escape) {
              return false, raw, escaped;
            }
            index := index + 1;
          }
        } else if value < 0x20 {
          return false, raw, escaped;
        } else {
          index := index + 1;
        }
      }
      return false, raw, escaped;
    }

    method SkipDigitRun()
      requires Valid()
      modifies `index
      ensures Valid() && index == SkipDigits(body, old(index))
    {
      while index < |body| && Digit(body[index])
        invariant Valid() && SkipDigits(body, index) == SkipDigits(body, old(index))
        decreases |body| - index
      {
        index := index + 1;
      }
    }

    method ParseWhole() returns (ok: bool)
      requires Valid()
      modifies `index
      ensures Valid() && ok == ScanWhole(body, old(index)).Some?
      ensures ok ==> ScanWhole(body, old(index)) == Some(index)
    {
      var zero := Consume(ZERO);
      if zero {
        return !(index < |body| && Digit(body[index]));
      }
      if index >= |body| || body[index] < 0x31 || body[index] > NINE {
        return false;
      }
      SkipDigitRun();
      return true;
    }

    method ParseFraction() returns (ok: bool)
      requires Valid()
      modifies `index
      ensures Valid() && ok == ScanFraction(body, old(index)).Some?
      ensures ok ==> ScanFraction(body, old(index)) == Some(index)
    {
      var point := Consume(POINT);
      if point {
        if index >= |body| || !Digit(body[index]) {
          return false;
        }
        SkipDigitRun();
      }
      return true;
    }

    method ParseExponent() returns (ok: bool)
      requires Valid()
      modifies `index
      ensures Valid() && ok == ScanExponent(body, old(index)).Some?
      ensures ok ==> ScanExponent(body, old(index)) == Some(index)
    {
      if index < |body| && (body[index] == 0x65 || body[index] == 0x45) {
        index := index + 1;
        if index < |body| && (body[index] == PLUS || body[index] == MINUS) {
          index := index + 1;
        }
        if index >= |body| || !Digit(body[index]) {
          return false;
        }
        SkipDigitRun();
      }
      return true;
    }

    method ParseNumber() returns (ok: bool)
      requires Valid()
      modifies this
      ensures Follows(Strip(ScanNumber(body, old(index))), ok)
    {
      var minus := Consume(MINUS);
      if minus && index >= |body| {
        return false;
      }
      ok := ParseWhole();
      if ok {
        ok := ParseFraction();
      }
      if ok {
        ok := ParseExponent();
      }
    }

    method Enter(opening: Byte) returns (ok: bool)
      requires Valid()
      modifies this
      ensures Valid()
      ensures ok == (old(depth) < MAXIMUM_DEPTH && old(index) < |body| && body[old(index)] == opening)
      ensures ok ==> index == old(index) + 1 && depth == old(depth) + 1 && depthLimitExceeded == old(depthLimitExceeded)
      ensures !ok ==> index == old(index) && depth == old(depth)
      ensures !ok ==> depthLimitExceeded == (old(depthLimitExceeded) || old(depth) >= MAXIMUM_DEPTH)
    {
      if depth >= MAXIMUM_DEPTH {
        depthLimitExceeded := true;
        return false;
      }
      var consumed := Consume(opening);
      if !consumed {
        return false;
      }
      depth := depth + 1;
      return true;
    }

    method Leave()
      requires Valid()
      modifies `depth
      ensures Valid() && depth == if old(depth) > 0 then old(depth) - 1 else 0
    {
      if depth > 0 {
        depth := depth - 1;
      }
    }

    /** The end of one turn of a loop: past the closing bracket, or at the next item after a comma. */
    method Separate(close: Byte) returns (closed: bool, more: bool)
      requires Valid()
      modifies `index
      ensures Valid()
      ensures var s := ScanSeparator(body, old(index), close);
              && closed == s.Closing? && more == s.Comma?
              && (closed ==> index == s.at + 1) && (more ==> index == s.next)
    {
      SkipSpaces();
      closed := Consume(close);
      if closed {
        return true, false;
      }
      var comma := Consume(COMMA);
      if !comma {
        return false, false;
      }
      SkipSpaces();
      return false, !(index >= |body| || body[index] == close);
    }

    method ParseValue() returns (ok: bool)
      requires Valid()
      modifies this
      ensures Follows(Strip(ScanValue(body, SkipSpace(body, old(index)), old(Room()))), ok)
      decreases |body| - index, 1
    {
      SkipSpaces();
      if index >= |body| {
        return false;
      }
      var first := body[index];
      if first == OPEN_OBJECT {
        ok := ParseObject();
      } else if first == OPEN_ARRAY {
        ok := ParseArray();
      } else if first == QUOTE {
        var raw, escaped;
        ok, raw, escaped := ParseString();
      } else if first == 0x74 {
        ok := ConsumeLiteral(TRUE);
      } else if first == 0x66 {
        ok := ConsumeLiteral(FALSE);
      } else if first == 0x6E {
        ok := ConsumeLiteral(NULL);
      } else {
        ok := ParseNumber();
      }
    }

    method ParseObject() returns (ok: bool)
      requires Valid() && index < |body| && body[index] == OPEN_OBJECT
      modifies this
      ensures Follows(Strip(ScanObject(body, old(index), old(Room()))), ok)
      decreases |body| - index, 0
    {
      var entered := Enter(OPEN_OBJECT);
      if !entered {
        return false;
      }
      SkipSpaces();
      var closed := Consume(CLOSE_OBJECT);
      if closed {
        Leave();
        return true;
      }
      ok := ParseMembers();
      Leave();
    }

    /** A name and a colon. */
    method ParseHead() returns (ok: bool, key: seq<Byte>, escaped: bool)
      requires Valid()
      modifies `index
      ensures Valid()
      ensures var h := ScanHead(body, old(index));
              && ok == h.Some?
              && (ok ==> key == body[old(index) + 1..h.value.quote] && (escaped <==> BACKSLASH in key))
              && (ok ==> SkipSpace(body, index) == h.value.value && old(index) < index)
    {
      ok, key, escaped := ParseString();
      if !ok {
        return;
      }
      SkipSpaces();
      ok := Consume(COLON);
    }

    /** A name, a colon and a value. */
    method ParsePair() returns (ok: bool)
      requires Valid()
      modifies this
      ensures Follows(Strip(ScanPair(body, old(index), old(Room()))), ok)
      decreases |body| - index, 0
    {
      PairUnfold(body, index, Room());
      var headed, key, escaped := ParseHead();
      if !headed {
        return false;
      }
      ok := ParseValue();
    }

    /** The member loop, from the first name to past the closing brace. */
    method ParseMembers() returns (ok: bool)
      requires Valid()
      modifies this
      ensures Follows(PastClosing(Strip(ScanMembers(body, old(index), old(Room())))), ok)
      decreases |body| - index, 1
    {
      while true
        invariant old(index) <= index && Valid() && depth == old(depth)
        invariant depthLimitExceeded == old(depthLimitExceeded)
        invariant Strip(ScanMembers(body, index, Room())) == Strip(ScanMembers(body, old(index), old(Room())))
        decreases |body| - index
      {
        MembersUnfold(body, index, Room());
        ok := ParsePair();
        if !ok {
          return false;
        }
        var closed, more := Separate(CLOSE_OBJECT);
        if closed {
          return true;
        }
        if !more {
          return false;
        }
      }
    }

    method ParseArray() returns (ok: bool)
      requires Valid() && index < |body| && body[index] == OPEN_ARRAY
      modifies this
      ensures Follows(Strip(ScanArray(body, old(index), old(Room()))), ok)
      decreases |body| - index, 0
    {
      var entered := Enter(OPEN_ARRAY);
      if !entered {
        return false;
      }
      SkipSpaces();
      var closed := Consume(CLOSE_ARRAY);
      if closed {
        Leave();
        return true;
      }
      ok := ParseItems();
      Leave();
    }

    /** The item loop, from the first value to past the closing bracket. */
    method ParseItems() returns (ok: bool)
      requires Valid() && SkipSpace(body, index) == index
      modifies this
      ensures Follows(PastClosing(Strip(ScanItems(body, old(index), old(Room())))), ok)
      decreases |body| - index, 2
    {
      while true
        invariant old(index) <= index && Valid() && depth == old(depth) && SkipSpace(body, index) == index
        invariant depthLimitExceeded == old(depthLimitExceeded)
        invariant Strip(ScanItems(body, index, Room())) == Strip(ScanItems(body, old(index), old(Room())))
        decreases |body| - index
      {
        ItemsUnfold(body, index, Room());
        ok := ParseValue();
        if !ok {
          return false;
        }
        var closed, more := Separate(CLOSE_ARRAY);
        if closed {
          return true;
        }
        if !more {
          return false;
        }
      }
    }

    // ---------- prompts ----------

    /** Consumes exactly what the generic array scan does. */
    method ParseTokenArray() returns (supported: bool, ok: bool)
      requires Valid() && index < |body| && body[index] == OPEN_ARRAY
      modifies this
      ensures Follows(Strip(ScanArray(body, old(index), old(Room()))), ok)
      ensures ok ==> supported == AllTokens(ScanArray(body, old(index), old(Room())).tree.items)
    {
      var entered := Enter(OPEN_ARRAY);
      if !entered {
        return false, false;
      }
      SkipSpaces();
      var closed := Consume(CLOSE_ARRAY);
      if closed {
        Leave();
        return true, true;
      }
      supported, ok := ParseTokens();
      Leave();
    }

    method ParseTokens() returns (supported: bool, ok: bool)
      requires Valid() && SkipSpace(body, index) == index
      modifies this
      ensures Follows(PastClosing(Strip(ScanItems(body, old(index), old(Room())))), ok)
      ensures ok ==> supported == AllTokens(ScanItems(body, old(index), old(Room())).tree)
    {
      supported := true;
      ghost var whole := ScanItems(body, index, Room());
      while true
        invariant old(index) <= index && Valid() && depth == old(depth) && SkipSpace(body, index) == index
        invariant depthLimitExceeded == old(depthLimitExceeded)
        invariant Strip(ScanItems(body, index, Room())) == Strip(whole)
        invariant whole.Good? ==>
                    (AllTokens(whole.tree) <==> supported && AllTokens(ScanItems(body, index, Room()).tree))
        decreases |body| - index
      {
        ItemsUnfold(body, index, Room());
        if whole.Good? { ItemsTree(body, index, Room()); }
        var start := index;
        ok := ParseValue();
        if !ok {
          return false, false;
        }
        ScannedText(body, start, Room());
        var number := ParseNonnegativeInt64(body[start..index]);
        supported := supported && number.Some?;
        var closed, more := Separate(CLOSE_ARRAY);
        if closed {
          return supported, true;
        }
        if !more {
          return false, false;
        }
      }
    }

    /** Consumes exactly what the generic value scan does. */
    method ParsePromptElement() returns (kind: Kind, ok: bool)
      requires Valid() && SkipSpace(body, index) == index
      modifies this
      ensures Follows(Strip(ScanValue(body, old(index), old(Room()))), ok)
      ensures ok ==> kind == KindOf(ScanValue(body, old(index), old(Room())).tree)
    {
      SkipSpaces();
      if index >= |body| {
        return KindOther, false;
      }
      var start := index;
      ghost var r := ScanValue(body, start, Room());
      if r.Good? { ScannedKind(body, start, Room()); }
      if body[index] == QUOTE {
        var raw, escaped;
        ok, raw, escaped := ParseString();
        return KindString, ok;
      }
      if body[index] == OPEN_ARRAY {
        var supported;
        supported, ok := ParseTokenArray();
        return if supported then KindTokenArray else KindOther, ok;
      }
      ok := ParseValue();
      if !ok {
        return KindOther, false;
      }
      var number := ParseNonnegativeInt64(body[start..index]);
      return if number.Some? then KindToken else KindOther, true;
    }

    /** Consumes exactly what the generic value scan does. */
    method ParseCompletionPrompt() returns (count: int, supported: bool, ok: bool)
      requires Valid() && |body| <= MAX_INT64
      modifies this
      ensures Follows(Strip(ScanValue(body, SkipSpace(body, old(index)), old(Room()))), ok)
      ensures ok ==>
                var prompt := PromptCount(ScanValue(body, SkipSpace(body, old(index)), old(Room())).tree);
                supported == prompt.Some? && (supported ==> count == prompt.value)
    {
      SkipSpaces();
      if index >= |body| {
        return 0, false, false;
      }
      ghost var r := ScanValue(body, index, Room());
      if r.Good? { ScannedKind(body, index, Room()); }
      if body[index] == QUOTE {
        var raw, escaped;
        ok, raw, escaped := ParseString();
        return 1, ok, ok;
      }
      if body[index] != OPEN_ARRAY {
        ok := ParseValue();
        return 1, false, ok;
      }
      count, supported, ok := ParsePromptArray();
    }

    method ParsePromptArray() returns (count: int, supported: bool, ok: bool)
      requires Valid() && index < |body| <= MAX_INT64 && body[index] == OPEN_ARRAY
      modifies this
      ensures Follows(Strip(ScanArray(body, old(index), old(Room()))), ok)
      ensures ok ==>
                var prompt := PromptCount(ScanArray(body, old(index), old(Room())).tree);
                supported == prompt.Some? && (supported ==> count == prompt.value)
    {
      var entered := Enter(OPEN_ARRAY);
      if !entered {
        return 0, false, false;
      }
      SkipSpaces();
      var closed := Consume(CLOSE_ARRAY);
      if closed {
        Leave();
        return 1, true, true;
      }
      count, supported, ok := ParsePromptItems();
      Leave();
    }

    method ParsePromptItems() returns (count: int, supported: bool, ok: bool)
      requires Valid() && SkipSpace(body, index) == index && |body| <= MAX_INT64
      modifies this
      ensures Follows(PastClosing(Strip(ScanItems(body, old(index), old(Room())))), ok)
      ensures ok ==>
                var items := ScanItems(body, old(index), old(Room())).tree;
                && supported == OneKind(items)
                && (supported ==> count == if KindOf(items.value) == KindToken then 1 else Count(items))
    {
      count, supported := 0, true;
      var kind := KindOther;
      ghost var whole := ScanItems(body, index, Room());
      while true
        invariant old(index) + count <= index && Valid() && depth == old(depth) && SkipSpace(body, index) == index
        invariant 0 <= count && depthLimitExceeded == old(depthLimitExceeded)
        invariant Strip(ScanItems(body, index, Room())) == Strip(whole)
        invariant whole.Good? ==>
                    var ahead := ScanItems(body, index, Room()).tree;
                    && (OneKind(whole.tree) <==> Steady(kind, supported, ahead))
                    && count + Count(ahead) == Count(whole.tree)
                    && (count == 0 ==> kind == KindOther && ahead == whole.tree)
                    && (count > 0 && supported ==> kind == KindOf(whole.tree.value) != KindOther)
        decreases |body| - index
      {
        ItemsUnfold(body, index, Room());
        if whole.Good? { ItemsTree(body, index, Room()); }
        ghost var start := index;
        var element;
        element, ok := ParsePromptElement();
        if !ok {
          return 0, false, false;
        }
        if count == MAX_INT64 {
          assert false;
        }
        count := count + 1;
        if whole.Good? { SteadyStep(kind, supported, ScanItems(body, start, Room()).tree); }
        supported := supported && element != KindOther && (kind == KindOther || kind == element);
        kind := if kind == KindOther then element else kind;
        var closed, more := Separate(CLOSE_ARRAY);
        if closed {
          match kind
          case KindString => return count, supported, true;
          case KindTokenArray => return count, supported, true;
          case KindToken => return 1, supported, true;
          case KindOther => return 1, false, true;
        }
        if !more {
          return 0, false, false;
        }
      }
    }

    // ---------- the root object ----------

    method UpdatePositiveFanout(f: Fanout, value: seq<Byte>) returns (g: Fanout, ok: bool)
      ensures (g, ok) == NoteN(f, value)
    {
      var parsed := ParsePositive(value);
      if parsed.None? || (f.seen && f.value != parsed.value) {
        return f.(valid := false), false;
      }
      return f.(seen := true, valid := true, value := parsed.value), true;
    }

    method UpdateOptionalPositiveFanout(f: Fanout, value: seq<Byte>) returns (g: Fanout, ok: bool)
      ensures (g, ok) == NoteBestOf(f, value)
    {
      if value == NULL {
        if f.seen && !f.isNull {
          return f.(valid := false), false;
        }
        return Fanout(true, true, true, 1), true;
      }
      if f.seen && f.isNull {
        return f.(valid := false), false;
      }
      g, ok := UpdatePositiveFanout(f, value);
    }

    /** One member of the root object: it consumes what the generic member scan does, and notes the fan-out. */
    method ParseRootMember(e: Endpoint, tally: Tally) returns (next: Tally, ok: bool)
      requires Valid() && |body| <= MAX_INT64
      modifies this
      ensures Follows(Strip(ScanPair(body, old(index), old(Room()))), ok)
      ensures ok ==>
                var p := ScanPair(body, old(index), old(Room())).tree;
                next == Noted(tally, e, p.name, p.value)
    {
      next := tally;
      PairUnfold(body, index, Room());
      PairTree(body, index, Room());
      var headed, key, escaped := ParseHead();
      if !headed {
        return next, false;
      }
      next, ok := ParseRootValue(e, key, escaped, next);
    }

    /** The value of a root member and what it says, by its name. */
    method ParseRootValue(e: Endpoint, key: seq<Byte>, escaped: bool, tally: Tally) returns (next: Tally, ok: bool)
      requires Valid() && |body| <= MAX_INT64 && (escaped <==> BACKSLASH in key)
      modifies this
      ensures Follows(Strip(ScanValue(body, SkipSpace(body, old(index)), old(Room()))), ok)
      ensures ok ==> next == Noted(tally, e, key, ScanValue(body, SkipSpace(body, old(index)), old(Room())).tree)
    {
      next := tally;
      SkipSpaces();
      var valueStart := index;
      var isPrompt := SpanEquals(key, escaped, PROMPT);
      if e == Completions && isPrompt {
        var count, supported;
        count, supported, ok := ParseCompletionPrompt();
        next := NotePrompt(next, if supported then Some(count) else None);
      } else {
        ok := ParseValue();
      }
      if !ok {
        return next, false;
      }
      ScannedText(body, valueStart, Room());
      next := NoteFields(e, key, escaped, body[valueStart..index], next);
    }

    /** The fan-out and stream fields of one member. */
    method NoteFields(e: Endpoint, key: seq<Byte>, escaped: bool, value: seq<Byte>, tally: Tally) returns (next: Tally)
      requires escaped <==> BACKSLASH in key
      ensures next == NotedFields(tally, e, key, value)
    {
      next := tally;
      var isN := SpanEquals(key, escaped, N);
      if UsesFanout(e) && isN {
        var f, fine := UpdatePositiveFanout(next.n, value);
        next := next.(n := f, shape := next.shape.(supported := fine && next.shape.supported));
      }
      var isBestOf := SpanEquals(key, escaped, BEST_OF);
      if e == Completions && isBestOf {
        var f, fine := UpdateOptionalPositiveFanout(next.bestOf, value);
        next := next.(bestOf := f, shape := next.shape.(supported := fine && next.shape.supported));
      }
      var isStream := SpanEquals(key, escaped, STREAM);
      if isStream {
        next := next.(shape := next.shape.(streaming := NoteStream(next.shape.streaming, value)));
      }
    }

    method ParseRootObject(e: Endpoint) returns (shape: Shape, ok: bool)
      requires Valid() && index < |body| <= MAX_INT64 && body[index] == OPEN_OBJECT
      modifies this
      ensures Follows(Strip(ScanObject(body, old(index), old(Room()))), ok)
      ensures ok ==> shape == ShapeOf(ScanObject(body, old(index), old(Room())).tree, e)
    {
      shape := START.shape;
      if depth < MAXIMUM_DEPTH { ObjectTree(body, index, Room()); }
      var entered := Enter(OPEN_OBJECT);
      if !entered {
        return shape, false;
      }
      shape, ok := ParseRootInner(e);
      Leave();
    }

    method ParseRootInner(e: Endpoint) returns (shape: Shape, ok: bool)
      requires Valid() && |body| <= MAX_INT64
      modifies this
      ensures Follows(Inner(body, old(index), old(Room())), ok)
      ensures ok ==> shape == Finalized(Tallied(START, e, InnerMembers(body, old(index), old(Room()))), e)
    {
      SkipSpaces();
      var closed := Consume(CLOSE_OBJECT);
      if closed {
        return Finalized(START, e), true;
      }
      shape, ok := ParseRootMembers(e);
    }

    method ParseRootMembers(e: Endpoint) returns (shape: Shape, ok: bool)
      requires Valid() && |body| <= MAX_INT64
      modifies this
      ensures Follows(PastClosing(Strip(ScanMembers(body, old(index), old(Room())))), ok)
      ensures ok ==> shape == Finalized(Tallied(START, e, ScanMembers(body, old(index), old(Room())).tree), e)
    {
      var tally := START;
      ghost var whole := ScanMembers(body, index, Room());
      while true
        invariant old(index) <= index && Valid() && depth == old(depth)
        invariant depthLimitExceeded == old(depthLimitExceeded)
        invariant Strip(ScanMembers(body, index, Room())) == Strip(whole)
        invariant whole.Good? ==>
                    Tallied(START, e, whole.tree) == Tallied(tally, e, ScanMembers(body, index, Room()).tree)
        decreases |body| - index
      {
        MembersUnfold(body, index, Room());
        if whole.Good? { MembersTree(body, index, Room()); }
        tally, ok := ParseRootMember(e, tally);
        if !ok {
          return tally.shape, false;
        }
        var closed, more := Separate(CLOSE_OBJECT);
        if closed {
          return Finalized(tally, e), true;
        }
        if !more {
          return tally.shape, false;
        }
      }
    }
  }

  /** The shape of a request body: recognised exactly for the bodies the grammar scan accepts. */
  method ParseTPSRequestShape(body: seq<Byte>, e: Endpoint) returns (r: ShapeResult)
    requires |body| <= MAX_INT64
    ensures e == EndpointUnknown ==> r == Rejected
    ensures e != EndpointUnknown ==>
              r == match ScanBody(body)
                   case Good(t, _) => Recognised(ShapeOf(t, e))
                   case TooDeep => ScanLimit
                   case Bad => Rejected
    ensures e != EndpointUnknown ==>
              && (r.Recognised? <==> exists t :: Document(body, t) && Depth(t) <= 128)
              && ((exists t :: Document(body, t) && Depth(t) > 128) ==> r == ScanLimit)
    ensures r.Recognised? ==> exists t :: Document(body, t) && AsksFor(t, e, r.shape)
  {
    AcceptsExactly(body);
    if ScanBody(body).Good? {
      AcceptedIsDocument(body);
      ShapeExactly(ScanBody(body).tree, e);
    }
    var parser := new JsonShapeParser(body);
    parser.SkipSpaces();
    if e == EndpointUnknown || parser.index >= |body| || body[parser.index] != OPEN_OBJECT {
      return Rejected;
    }
    var shape, ok := parser.ParseRootObject(e);
    var end := parser.index;
    parser.SkipSpaces();
    if parser.depthLimitExceeded {
      return ScanLimit;
    }
    return if ok && parser.index == |body| then Recognised(shape) else Rejected;
  }
}
