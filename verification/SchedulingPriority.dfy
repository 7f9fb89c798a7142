/** Writing the scheduling priority into a JSON body: the buffered rewriter, and the byte-at-a-time one for
    bodies that were not buffered. On every well-formed object both write the same bytes, and those are the
    same object with priority as its last member. */
module SchedulingPriority {
  import opened Machine
  import opened JsonGrammar
  import opened JsonComplete
  import opened TpsShape

  // ---------- the member ----------

  const PRIORITY: seq<Byte> := [0x70, 0x72, 0x69, 0x6F, 0x72, 0x69, 0x74, 0x79]

  function DigitsOf(n: nat): seq<Byte> {
    if n < 10 then [ZERO + n] else DigitsOf(n / 10) + [ZERO + n % 10]
  }

  /** The decimal digits of n, without leading zeros, and their value. */
  lemma {:induction false} DigitsOfMeaning(n: nat)
    ensures Digits(DigitsOf(n)) && WholePart(DigitsOf(n)) && Decimal(DigitsOf(n)) == n
    ensures n > 0 ==> DigitsOf(n)[0] != ZERO
  {
    if n >= 10 {
      DigitsOfMeaning(n / 10);
      assert DigitsOf(n)[..|DigitsOf(n)| - 1] == DigitsOf(n / 10);
    } else {
      assert [ZERO + n][..0] == [];
    }
  }

  /** strconv.Itoa as a JSON number. */
  function Integer(value: int): Json {
    if value < 0 then Num([MINUS], DigitsOf(-value), [], []) else Num([], DigitsOf(value), [], [])
  }

  function PriorityMember(value: int): seq<Byte> {
    Quoted(PRIORITY) + [COLON] + Text(Integer(value))
  }

  // ---------- the buffered rewriter ----------

  /** The length of the whitespace character s starts with, or 0: bytes.TrimSpace also trims the Unicode
      spaces U+0085, U+00A0, U+1680, U+2000 to U+200A, U+2028, U+2029, U+202F, U+205F and U+3000. */
  function SpaceLength(s: seq<Byte>): (n: nat)
    ensures n <= |s|
  {
    if s == [] then 0
    else if SpaceByte(s[0]) || s[0] == 0x0B || s[0] == 0x0C then 1
    else if |s| >= 2 && s[0] == 0xC2 && (s[1] == 0x85 || s[1] == 0xA0) then 2
    else if |s| >= 3 && s[0] == 0xE1 && s[1] == 0x9A && s[2] == 0x80 then 3
    else if |s| >= 3 && s[0] == 0xE2 && s[1] == 0x80 && (s[2] <= 0x8A || s[2] == 0xA8 || s[2] == 0xA9 || s[2] == 0xAF) &&
            s[2] >= 0x80 then 3
    else if |s| >= 3 && s[0] == 0xE2 && s[1] == 0x81 && s[2] == 0x9F then 3
    else if |s| >= 3 && s[0] == 0xE3 && s[1] == 0x80 && s[2] == 0x80 then 3
    else 0
  }

  /** TrimSpace leaves nothing. */
  predicate Blank(s: seq<Byte>)
    decreases |s|
  {
    s == [] || (SpaceLength(s) > 0 && Blank(s[SpaceLength(s)..]))
  }

  function FirstIndex(s: seq<Byte>, b: Byte): (k: Option<nat>)
    ensures k.Some? ==> k.value < |s| && s[k.value] == b && forall j :: 0 <= j < k.value ==> s[j] != b
    ensures k.None? ==> forall j :: 0 <= j < |s| ==> s[j] != b
  {
    if s == [] then None
    else if s[0] == b then Some(0)
    else
      var k := FirstIndex(s[1..], b);
      assert forall j :: 0 < j < |s| ==> s[j] == s[1..][j - 1];
      if k.None? then None else Some(1 + k.value)
  }

  function LastIndex(s: seq<Byte>, b: Byte): (k: Option<nat>)
    ensures k.Some? ==> k.value < |s| && s[k.value] == b && forall j :: k.value < j < |s| ==> s[j] != b
    ensures k.None? ==> forall j :: 0 <= j < |s| ==> s[j] != b
  {
    if s == [] then None
    else
      var n := |s| - 1;
      if s[n] == b then Some(n) else LastIndex(s[..n], b)
  }

  /** The member, after a comma if the object has members already. */
  function Insertion(member: seq<Byte>, empty: bool): seq<Byte> {
    if empty then member else [COMMA] + member
  }

  function Inserted(s: seq<Byte>, at: nat, run: seq<Byte>): seq<Byte>
    requires at <= |s|
  {
    s[..at] + run + s[at..]
  }

  /** The buffered rewriter; None leaves the body unprotected. */
  function Buffered(original: seq<Byte>, member: seq<Byte>): Option<seq<Byte>> {
    BufferedAt(original, FirstIndex(original, OPEN_OBJECT), LastIndex(original, CLOSE_OBJECT), member)
  }

  function BufferedAt(original: seq<Byte>, first: Option<nat>, last: Option<nat>, member: seq<Byte>): Option<seq<Byte>>
    requires last.Some? ==> last.value < |original|
  {
    if last.None? || !Blank(original[last.value + 1..]) then None
    else if first.None? || first.value >= last.value then None
    else
      var empty := Blank(original[first.value + 1..last.value]);
      Some(Inserted(original, last.value, Insertion(member, empty)))
  }

  // ---------- the streaming rewriter ----------

  datatype Rewriter = Rewriter(
    started: bool,
    rootObject: bool,
    depth: int,
    inString: bool,
    escaped: bool,
    hasMember: bool,
    injected: bool)

  const FRESH := Rewriter(false, false, 0, false, false, false, false)

  /** What is written before the byte, apart from the byte itself. */
  function Before(m: Rewriter, member: seq<Byte>, value: Byte): seq<Byte> {
    if m.started && m.rootObject && !m.injected && !m.inString && value == CLOSE_OBJECT && m.depth == 1
    then Insertion(member, !m.hasMember)
    else []
  }

  function Next(m: Rewriter, value: Byte): Rewriter {
    if !m.started then
      if SpaceByte(value) then m else m.(started := true, rootObject := value == OPEN_OBJECT, depth := 1)
    else if !m.rootObject || m.injected then m
    else if m.inString then
      if m.escaped then m.(escaped := false)
      else if value == BACKSLASH then m.(escaped := true)
      else if value == QUOTE then m.(inString := false)
      else m
    else
      var opens := value == OPEN_OBJECT || value == OPEN_ARRAY;
      var closes := value == CLOSE_OBJECT || value == CLOSE_ARRAY;
      var depth := if opens then m.depth + 1 else if closes then m.depth - 1 else m.depth;
      m.(inString := value == QUOTE, depth := depth,
         injected := value == CLOSE_OBJECT && m.depth == 1,
         hasMember := m.hasMember || (depth == 1 && !SpaceByte(value)))
  }

  /** The state after the bytes, and what was written for them. */
  function After(m: Rewriter, s: seq<Byte>): Rewriter {
    if s == [] then m else Next(After(m, s[..|s| - 1]), s[|s| - 1])
  }

  function Written(m: Rewriter, member: seq<Byte>, s: seq<Byte>): seq<Byte> {
    if s == [] then []
    else
      var n := |s| - 1;
      Written(m, member, s[..n]) + Before(After(m, s[..n]), member, s[n]) + [s[n]]
  }

  function Streamed(s: seq<Byte>, member: seq<Byte>): seq<Byte> {
    Written(FRESH, member, s)
  }

  lemma {:induction false} AfterJoin(m: Rewriter, a: seq<Byte>, b: seq<Byte>)
    ensures After(m, a + b) == After(After(m, a), b)
  {
    if b == [] {
      assert a + b == a;
    } else {
      var n := |b| - 1;
      AfterJoin(m, a, b[..n]);
      assert (a + b)[..|a + b| - 1] == a + b[..n];
    }
  }

  lemma {:induction false} WrittenJoin(m: Rewriter, member: seq<Byte>, a: seq<Byte>, b: seq<Byte>)
    ensures Written(m, member, a + b) == Written(m, member, a) + Written(After(m, a), member, b)
  {
    if b == [] {
      assert a + b == a;
    } else {
      var n := |b| - 1;
      WrittenJoin(m, member, a, b[..n]);
      AfterJoin(m, a, b[..n]);
      assert (a + b)[..|a + b| - 1] == a + b[..n];
      Regroup(Written(m, member, a), Written(After(m, a), member, b[..n]), Before(After(m, a + b[..n]), member, b[n]), [b[n]]);
    }
  }

  lemma Regroup<T>(w: seq<T>, x: seq<T>, y: seq<T>, z: seq<T>)
    ensures w + x + y + z == w + (x + y + z)
  {
  }

  lemma WrittenLast(m: Rewriter, member: seq<Byte>, s: seq<Byte>, c: Byte)
    ensures After(m, s + [c]) == Next(After(m, s), c)
    ensures Written(m, member, s + [c]) == Written(m, member, s) + Before(After(m, s), member, c) + [c]
  {
    assert (s + [c])[..|s|] == s;
  }

  // ---------- any bytes at all ----------

  /** Whatever the bytes, at most one run is inserted, so deleting it restores them. */
  lemma {:induction false} DeletionRestores(s: seq<Byte>, member: seq<Byte>)
    ensures Streamed(s, member) == s ||
            exists at: nat, empty: bool :: at <= |s| && Streamed(s, member) == Inserted(s, at, Insertion(member, empty))
    ensures !After(FRESH, s).injected ==> Streamed(s, member) == s
  {
    if s != [] {
      var n := |s| - 1;
      var m := After(FRESH, s[..n]);
      DeletionRestores(s[..n], member);
      assert s == s[..n] + [s[n]];
      if Streamed(s[..n], member) != s[..n] {
        var at: nat, empty: bool :| at <= n && Streamed(s[..n], member) == Inserted(s[..n], at, Insertion(member, empty));
        InsertedBefore(s[..n], s[n], at, Insertion(member, empty));
      } else if Before(m, member, s[n]) != [] {
        InsertedLast(s[..n], s[n], Insertion(member, !m.hasMember));
      }
    }
  }

  lemma InsertedBefore(s: seq<Byte>, c: Byte, at: nat, run: seq<Byte>)
    requires at <= |s|
    ensures Inserted(s, at, run) + [] + [c] == Inserted(s + [c], at, run)
  {
    assert (s + [c])[at..] == s[at..] + [c];
  }

  lemma InsertedLast(s: seq<Byte>, c: Byte, run: seq<Byte>)
    ensures s + run + [c] == Inserted(s + [c], |s|, run)
  {
    assert (s + [c])[..|s|] == s;
  }

  // ---------- well-formed objects ----------

  /** Inside the root object, between values: depth brackets deep, with a member seen already or not. */
  function At(depth: int, hasMember: bool): Rewriter {
    Rewriter(true, true, depth, false, false, hasMember, false)
  }

  function InString(depth: int, hasMember: bool): Rewriter {
    Rewriter(true, true, depth, true, false, hasMember, false)
  }

  /** The bytes pass through unchanged and take the rewriter from one state to the other. */
  predicate Passes(m: Rewriter, s: seq<Byte>, member: seq<Byte>, n: Rewriter) {
    After(m, s) == n && Written(m, member, s) == s
  }

  lemma PassBoth(m: Rewriter, a: seq<Byte>, n: Rewriter, b: seq<Byte>, o: Rewriter, member: seq<Byte>)
    requires Passes(m, a, member, n) && Passes(n, b, member, o)
    ensures Passes(m, a + b, member, o)
  {
    AfterJoin(m, a, b);
    WrittenJoin(m, member, a, b);
  }

  lemma PassOne(m: Rewriter, c: Byte, member: seq<Byte>)
    requires Before(m, member, c) == []
    ensures Passes(m, [c], member, Next(m, c))
  {
    WrittenLast(m, member, [], c);
    assert [] + [c] == [c];
  }

  lemma PassSplit(m: Rewriter, s: seq<Byte>, k: nat, n: Rewriter, o: Rewriter, member: seq<Byte>)
    requires k <= |s| && Passes(m, s[..k], member, n) && Passes(n, s[k..], member, o)
    ensures Passes(m, s, member, o)
  {
    PassBoth(m, s[..k], n, s[k..], o, member);
    assert s == s[..k] + s[k..];
  }

  /** All but the last byte, then the last one. */
  lemma PassLast(m: Rewriter, s: seq<Byte>, n: Rewriter, member: seq<Byte>)
    requires s != [] && Passes(m, s[..|s| - 1], member, n) && Before(n, member, s[|s| - 1]) == []
    ensures Passes(m, s, member, Next(n, s[|s| - 1]))
  {
    PassOne(n, s[|s| - 1], member);
    assert s[|s| - 1..] == [s[|s| - 1]];
    PassSplit(m, s, |s| - 1, n, Next(n, s[|s| - 1]), member);
  }

  lemma {:induction false} SpacePasses(depth: int, has: bool, s: seq<Byte>, member: seq<Byte>)
    requires Space(s)
    ensures Passes(At(depth, has), s, member, At(depth, has))
  {
    if s != [] {
      SpacePasses(depth, has, s[..|s| - 1], member);
      PassLast(At(depth, has), s, At(depth, has), member);
    }
  }

  predicate Plain(c: Byte) {
    !SpaceByte(c) && c != QUOTE && c != OPEN_OBJECT && c != OPEN_ARRAY && c != CLOSE_OBJECT && c != CLOSE_ARRAY
  }

  lemma {:induction false} PlainPasses(depth: int, has: bool, s: seq<Byte>, member: seq<Byte>)
    requires s != [] && forall i :: 0 <= i < |s| ==> Plain(s[i])
    ensures Passes(At(depth, has), s, member, At(depth, has || depth == 1))
  {
    var n := |s| - 1;
    assert Plain(s[n]);
    if n == 0 {
      PassLast(At(depth, has), s, At(depth, has), member);
    } else {
      PlainPasses(depth, has, s[..n], member);
      PassLast(At(depth, has), s, At(depth, has || depth == 1), member);
    }
  }

  lemma {:induction false} HexPasses(depth: int, has: bool, s: seq<Byte>, member: seq<Byte>)
    requires forall i :: 0 <= i < |s| ==> Hex(s[i])
    ensures Passes(InString(depth, has), s, member, InString(depth, has))
  {
    if s != [] {
      HexPasses(depth, has, s[..|s| - 1], member);
      assert Hex(s[|s| - 1]);
      PassLast(InString(depth, has), s, InString(depth, has), member);
    }
  }

  /** A backslash takes the next character with it. */
  lemma EscapePasses(depth: int, has: bool, s: seq<Byte>, member: seq<Byte>)
    requires |s| == 2 && s[0] == BACKSLASH
    ensures Passes(InString(depth, has), s, member, InString(depth, has))
  {
    var m := InString(depth, has);
    PassOne(m, s[0], member);
    assert s[..1] == [s[0]];
    PassLast(m, s, m.(escaped := true), member);
  }

  /** One character of a string leaves the rewriter inside the string. */
  lemma CharacterPasses(depth: int, has: bool, s: seq<Byte>, member: seq<Byte>)
    requires || (|s| == 1 && s[0] != QUOTE && s[0] != BACKSLASH)
             || (|s| == 2 && s[0] == BACKSLASH)
             || (|s| == 6 && s[0] == BACKSLASH && forall i :: 2 <= i < 6 ==> Hex(s[i]))
    ensures Passes(InString(depth, has), s, member, InString(depth, has))
  {
    if |s| == 1 {
      PassOne(InString(depth, has), s[0], member);
      assert s == [s[0]];
    } else if |s| == 2 {
      EscapePasses(depth, has, s, member);
    } else {
      EscapePasses(depth, has, s[..2], member);
      HexPasses(depth, has, s[2..], member);
      PassSplit(InString(depth, has), s, 2, InString(depth, has), InString(depth, has), member);
    }
  }

  /** So the characters of a string never close it. */
  lemma {:induction false} BodyPasses(depth: int, has: bool, s: seq<Byte>, member: seq<Byte>)
    requires StringBody(s)
    ensures Passes(InString(depth, has), s, member, InString(depth, has))
    decreases |s|
  {
    if s != [] {
      var k := if s[0] != BACKSLASH then 1 else if s[1] == 0x75 then 6 else 2;
      CharacterPasses(depth, has, s[..k], member);
      BodyPasses(depth, has, s[k..], member);
      PassSplit(InString(depth, has), s, k, InString(depth, has), InString(depth, has), member);
    }
  }

  lemma QuotedPasses(depth: int, has: bool, body: seq<Byte>, member: seq<Byte>)
    requires StringBody(body)
    ensures Passes(At(depth, has), Quoted(body), member, At(depth, has || depth == 1))
  {
    var m, seen := At(depth, has), has || depth == 1;
    PassOne(m, QUOTE, member);
    BodyPasses(depth, seen, body, member);
    PassBoth(m, [QUOTE], InString(depth, seen), body, InString(depth, seen), member);
    PassOne(InString(depth, seen), QUOTE, member);
    PassBoth(m, [QUOTE] + body, InString(depth, seen), [QUOTE], At(depth, seen), member);
  }

  lemma NumberIsPlain(t: Json)
    requires t.Num? && WellFormed(t)
    ensures Text(t) != [] && forall i :: 0 <= i < |Text(t)| ==> Plain(Text(t)[i])
  {
    assert t.exponent != [] ==> t.exponent[1..] == [t.exponent[1]] + t.exponent[2..];
    assert forall i :: 0 <= i < |t.whole| ==> Plain(t.whole[i]);
    assert forall i :: 0 < i < |t.fraction| ==> t.fraction[i] == t.fraction[1..][i - 1];
    assert forall i :: 0 <= i < |t.fraction| ==> Plain(t.fraction[i]);
    assert forall i :: 0 < i < |t.exponent| ==> t.exponent[i] == t.exponent[1..][i - 1];
    assert forall i :: 1 < i < |t.exponent| ==> t.exponent[i] == t.exponent[2..][i - 2];
    assert forall i :: 0 <= i < |t.exponent| ==> Plain(t.exponent[i]);
  }

  /** A value passes through unchanged at any depth, and at the root's it counts as a member. */
  lemma {:induction false} ValuePasses(depth: int, has: bool, t: Json, member: seq<Byte>)
    requires depth >= 1 && WellFormed(t)
    ensures Passes(At(depth, has), Text(t), member, At(depth, has || depth == 1))
    decreases t, 0
  {
    match t
    case Str(body) => QuotedPasses(depth, has, body, member);
    case Num(_, _, _, _) =>
      NumberIsPlain(t);
      PlainPasses(depth, has, Text(t), member);
    case Lit(word) => PlainPasses(depth, has, word, member);
    case Arr(open, items) =>
      ItemsPass(depth + 1, has, items, member);
      BracketPasses(depth, has, OPEN_ARRAY, open, ItemsText(items), CLOSE_ARRAY, member);
    case Obj(open, members) =>
      MembersPass(depth + 1, has, members, member);
      BracketPasses(depth, has, OPEN_OBJECT, open, MembersText(members), CLOSE_OBJECT, member);
  }

  lemma BracketPasses(depth: int, has: bool, left: Byte, open: seq<Byte>, inner: seq<Byte>, right: Byte, member: seq<Byte>)
    requires depth >= 1 && Space(open)
    requires (left == OPEN_ARRAY && right == CLOSE_ARRAY) || (left == OPEN_OBJECT && right == CLOSE_OBJECT)
    requires Passes(At(depth + 1, has), inner, member, At(depth + 1, has))
    ensures Passes(At(depth, has), [left] + open + inner + [right], member, At(depth, has || depth == 1))
  {
    PassOne(At(depth, has), left, member);
    SpacePasses(depth + 1, has, open, member);
    PassBoth(At(depth, has), [left], At(depth + 1, has), open, At(depth + 1, has), member);
    PassBoth(At(depth, has), [left] + open, At(depth + 1, has), inner, At(depth + 1, has), member);
    PassOne(At(depth + 1, has), right, member);
    PassBoth(At(depth, has), [left] + open + inner, At(depth + 1, has), [right], At(depth, has || depth == 1), member);
  }

  lemma CommaPasses(depth: int, has: bool, before: seq<Byte>, member: seq<Byte>)
    requires Space(before) && (depth == 1 ==> has)
    ensures Passes(At(depth, has), [COMMA] + before, member, At(depth, has))
  {
    PassOne(At(depth, has), COMMA, member);
    SpacePasses(depth, has, before, member);
    PassBoth(At(depth, has), [COMMA], At(depth, has), before, At(depth, has), member);
  }

  lemma {:induction false} ItemsPass(depth: int, has: bool, items: Items, member: seq<Byte>)
    requires depth >= 2 && ItemsWellFormed(items)
    ensures Passes(At(depth, has), ItemsText(items), member, At(depth, has))
    decreases items
  {
    if items.Item? {
      var m := At(depth, has);
      var Item(value, after, before, tail) := items;
      ValuePasses(depth, has, value, member);
      SpacePasses(depth, has, after, member);
      PassBoth(m, Text(value), m, after, m, member);
      if tail.Item? {
        CommaPasses(depth, has, before, member);
        ItemsPass(depth, has, tail, member);
        PassBoth(m, [COMMA] + before, m, ItemsText(tail), m, member);
        PassBoth(m, Text(value) + after, m, [COMMA] + before + ItemsText(tail), m, member);
      } else {
        assert Text(value) + after + [] == Text(value) + after;
      }
    }
  }

  lemma PairPasses(depth: int, has: bool, p: Members, member: seq<Byte>)
    requires depth >= 1 && p.Member? && MembersWellFormed(p)
    requires Passes(At(depth, has || depth == 1), Text(p.value), member, At(depth, has || depth == 1))
    ensures Passes(At(depth, has), PairBytes(PairOf(p)) + p.after, member, At(depth, has || depth == 1))
  {
    var m, n := At(depth, has), At(depth, has || depth == 1);
    QuotedPasses(depth, has, p.name, member);
    SpacePasses(depth, has || depth == 1, p.nameAfter, member);
    PassBoth(m, Quoted(p.name), n, p.nameAfter, n, member);
    PassOne(n, COLON, member);
    PassBoth(m, Quoted(p.name) + p.nameAfter, n, [COLON], n, member);
    SpacePasses(depth, has || depth == 1, p.colonAfter, member);
    PassBoth(m, Quoted(p.name) + p.nameAfter + [COLON], n, p.colonAfter, n, member);
    PassBoth(m, Quoted(p.name) + p.nameAfter + [COLON] + p.colonAfter, n, Text(p.value), n, member);
    SpacePasses(depth, has || depth == 1, p.after, member);
    PassBoth(m, PairBytes(PairOf(p)), n, p.after, n, member);
  }

  /** Members pass through unchanged; at the root's depth they are noticed. */
  lemma {:induction false} MembersPass(depth: int, has: bool, members: Members, member: seq<Byte>)
    requires depth >= 1 && MembersWellFormed(members)
    ensures Passes(At(depth, has), MembersText(members), member, At(depth, has || (depth == 1 && members.Member?)))
    decreases members
  {
    if members.Member? {
      var m, n := At(depth, has), At(depth, has || depth == 1);
      ValuePasses(depth, has || depth == 1, members.value, member);
      PairPasses(depth, has, members, member);
      var head := PairBytes(PairOf(members)) + members.after;
      if members.tail.Member? {
        CommaPasses(depth, has || depth == 1, members.before, member);
        MembersPass(depth, has || depth == 1, members.tail, member);
        PassBoth(n, [COMMA] + members.before, n, MembersText(members.tail), n, member);
        PassBoth(m, head, n, [COMMA] + members.before + MembersText(members.tail), n, member);
        assert MembersText(members) == head + ([COMMA] + members.before + MembersText(members.tail));
      } else {
        assert MembersText(members) == head;
      }
    }
  }

  // ---------- whole bodies ----------

  lemma {:induction false} LeadPasses(s: seq<Byte>, member: seq<Byte>)
    requires Space(s)
    ensures Passes(FRESH, s, member, FRESH)
  {
    if s != [] {
      LeadPasses(s[..|s| - 1], member);
      PassLast(FRESH, s, FRESH, member);
    }
  }

  lemma {:induction false} RestPasses(m: Rewriter, s: seq<Byte>, member: seq<Byte>)
    requires m.started && m.injected
    ensures Passes(m, s, member, m)
  {
    if s != [] {
      RestPasses(m, s[..|s| - 1], member);
      PassLast(m, s, m, member);
    }
  }

  /** Up to the closing brace of the root nothing is inserted, and a member has been seen if there is one. */
  lemma RootPasses(lead: seq<Byte>, t: Json, member: seq<Byte>)
    requires Space(lead) && t.Obj? && WellFormed(t)
    ensures Passes(FRESH, lead + ([OPEN_OBJECT] + t.open + MembersText(t.members)), member, At(1, t.members.Member?))
  {
    LeadPasses(lead, member);
    PassOne(FRESH, OPEN_OBJECT, member);
    SpacePasses(1, false, t.open, member);
    PassBoth(FRESH, [OPEN_OBJECT], At(1, false), t.open, At(1, false), member);
    MembersPass(1, false, t.members, member);
    PassBoth(FRESH, [OPEN_OBJECT] + t.open, At(1, false), MembersText(t.members), At(1, t.members.Member?), member);
    PassBoth(FRESH, lead, FRESH, [OPEN_OBJECT] + t.open + MembersText(t.members), At(1, t.members.Member?), member);
  }

  lemma ClosingByte(s: seq<Byte>, has: bool, member: seq<Byte>)
    requires Passes(FRESH, s, member, At(1, has))
    ensures Written(FRESH, member, s + [CLOSE_OBJECT]) == s + Insertion(member, !has) + [CLOSE_OBJECT]
    ensures var m := After(FRESH, s + [CLOSE_OBJECT]); m.started && m.injected
  {
    WrittenLast(FRESH, member, s, CLOSE_OBJECT);
  }

  lemma ClosingParts(s: seq<Byte>, has: bool, rest: seq<Byte>, member: seq<Byte>)
    requires Passes(FRESH, s, member, At(1, has))
    ensures Streamed(s + [CLOSE_OBJECT] + rest, member) == s + Insertion(member, !has) + [CLOSE_OBJECT] + rest
  {
    ClosingByte(s, has, member);
    RestPasses(After(FRESH, s + [CLOSE_OBJECT]), rest, member);
    WrittenJoin(FRESH, member, s + [CLOSE_OBJECT], rest);
  }

  /** Reaching the root's closing brace, the member goes right before it; what follows is left alone. */
  lemma ClosingStreamed(b: seq<Byte>, e: nat, has: bool, member: seq<Byte>)
    requires 0 < e <= |b| && b[e - 1] == CLOSE_OBJECT && Passes(FRESH, b[..e - 1], member, At(1, has))
    ensures Streamed(b, member) == Inserted(b, e - 1, Insertion(member, !has))
  {
    ClosingParts(b[..e - 1], has, b[e..], member);
    Assembled(b, e, Insertion(member, !has));
    assert b == b[..e - 1] + [CLOSE_OBJECT] + b[e..];
  }

  /** The streaming rewriter inserts the member right before the root's closing brace. */
  lemma StreamedDocument(b: seq<Byte>, t: Json, i: nat, e: nat, member: seq<Byte>)
    requires t.Obj? && WellFormed(t) && i < e <= |b|
    requires Space(b[..i]) && b[i..e] == Text(t) && Space(b[e..])
    ensures Streamed(b, member) == Inserted(b, e - 1, Insertion(member, t.members.NoMember?))
  {
    var inner := [OPEN_OBJECT] + t.open + MembersText(t.members);
    CutLast(b, i, e, inner, CLOSE_OBJECT);
    RootPasses(b[..i], t, member);
    assert b[..e - 1] == b[..i] + inner;
    ClosingStreamed(b, e, t.members.Member?, member);
  }

  lemma Assembled(b: seq<Byte>, e: nat, run: seq<Byte>)
    requires 0 < e <= |b| && b[e - 1] == CLOSE_OBJECT
    ensures b[..e - 1] + run + [CLOSE_OBJECT] + b[e..] == Inserted(b, e - 1, run)
  {
    assert b[e - 1..] == [CLOSE_OBJECT] + b[e..];
  }

  lemma {:induction false} SpaceIsBlank(s: seq<Byte>)
    requires Space(s)
    ensures Blank(s)
    decreases |s|
  {
    if s != [] {
      assert SpaceByte(s[0]);
      SpaceIsBlank(s[1..]);
    }
  }

  lemma {:induction false} SomethingIsNotBlank(s: seq<Byte>, c: Byte, rest: seq<Byte>)
    requires Space(s) && SpaceLength([c] + rest) == 0
    ensures !Blank(s + ([c] + rest))
    decreases |s|
  {
    var all := s + ([c] + rest);
    if s == [] {
      assert all == [c] + rest;
    } else {
      assert SpaceByte(s[0]) && all[0] == s[0];
      assert all[1..] == s[1..] + ([c] + rest);
      SomethingIsNotBlank(s[1..], c, rest);
    }
  }

  lemma InnerIsBlank(open: seq<Byte>, members: Members)
    requires Space(open)
    ensures Blank(open + MembersText(members)) <==> members.NoMember?
  {
    if members.NoMember? {
      assert open + [] == open;
      SpaceIsBlank(open);
    } else {
      var text := MembersText(members);
      assert text == [QUOTE] + text[1..];
      SomethingIsNotBlank(open, QUOTE, text[1..]);
    }
  }

  lemma RootIndexes(b: seq<Byte>, i: nat, e: nat)
    requires i < e <= |b| && Space(b[..i]) && b[i] == OPEN_OBJECT && b[e - 1] == CLOSE_OBJECT && Space(b[e..])
    ensures FirstIndex(b, OPEN_OBJECT) == Some(i) && LastIndex(b, CLOSE_OBJECT) == Some(e - 1)
  {
    assert forall j :: 0 <= j < i ==> b[j] == b[..i][j];
    assert forall j :: e <= j < |b| ==> b[j] == b[e..][j - e];
  }

  /** So does the buffered one. */
  lemma BufferedDocument(b: seq<Byte>, t: Json, i: nat, e: nat, member: seq<Byte>)
    requires t.Obj? && WellFormed(t) && i < e <= |b|
    requires Space(b[..i]) && b[i..e] == Text(t) && Space(b[e..])
    ensures Buffered(b, member) == Some(Inserted(b, e - 1, Insertion(member, t.members.NoMember?)))
  {
    RootCut(b, i, e, t);
    RootIndexes(b, i, e);
    SpaceIsBlank(b[e..]);
    InnerIsBlank(t.open, t.members);
    BufferedFrom(b, i, e, t.members.NoMember?, member);
  }

  lemma BufferedFrom(b: seq<Byte>, i: nat, e: nat, empty: bool, member: seq<Byte>)
    requires i + 1 < e <= |b| && Blank(b[e..]) && (Blank(b[i + 1..e - 1]) <==> empty)
    ensures BufferedAt(b, Some(i), Some(e - 1), member) == Some(Inserted(b, e - 1, Insertion(member, empty)))
  {
    var last, first := e - 1, i;
    assert b[last + 1..] == b[e..] && b[first + 1..last] == b[i + 1..e - 1];
  }

  lemma RootCut(b: seq<Byte>, i: nat, e: nat, t: Json)
    requires t.Obj? && i < e <= |b| && b[i..e] == Text(t)
    ensures i + 1 < e && b[i] == OPEN_OBJECT && b[e - 1] == CLOSE_OBJECT
    ensures b[i + 1..e - 1] == t.open + MembersText(t.members)
  {
    var inner := t.open + MembersText(t.members);
    assert Text(t) == [OPEN_OBJECT] + inner + [CLOSE_OBJECT];
    CutLast(b, i, e, [OPEN_OBJECT] + inner, CLOSE_OBJECT);
    CutByte(b, i, e - 1, OPEN_OBJECT, inner);
  }

  // ---------- the object that results ----------

  function Appended(ms: Members, value: int): Members {
    if ms.NoMember? then Member(PRIORITY, [], [], Integer(value), [], [], NoMember)
    else ms.(before := if ms.tail.NoMember? then [] else ms.before, tail := Appended(ms.tail, value))
  }

  /** The same object with priority as its last member. */
  function WithPriority(t: Json, value: int): Json
    requires t.Obj?
  {
    Obj(t.open, Appended(t.members, value))
  }

  lemma IntegerIsGrammatical(value: int)
    ensures WellFormed(Integer(value)) && Depth(Integer(value)) == 0
  {
    DigitsOfMeaning(if value < 0 then -value else value);
  }

  lemma {:induction false} PlainIsBody(s: seq<Byte>)
    requires forall i :: 0 <= i < |s| ==> s[i] >= 0x20 && s[i] != QUOTE && s[i] != BACKSLASH
    ensures StringBody(s)
    decreases |s|
  {
    if s != [] { PlainIsBody(s[1..]); }
  }

  lemma {:induction false} AppendedText(ms: Members, value: int)
    requires MembersWellFormed(ms)
    ensures MembersText(Appended(ms, value)) == MembersText(ms) + Insertion(PriorityMember(value), ms.NoMember?)
    ensures MembersWellFormed(Appended(ms, value)) && MembersDepth(Appended(ms, value)) == MembersDepth(ms)
    decreases ms
  {
    if ms.NoMember? {
      AppendedFirst(value);
    } else {
      AppendedText(ms.tail, value);
      AppendedHead(ms, value);
    }
  }

  lemma AppendedFirst(value: int)
    ensures var ms := Appended(NoMember, value);
            MembersText(ms) == PriorityMember(value) && MembersWellFormed(ms) && MembersDepth(ms) == 0
  {
    IntegerIsGrammatical(value);
    assert StringBody(PRIORITY) by { PlainIsBody(PRIORITY); }
    NoSpaces(Quoted(PRIORITY), Text(Integer(value)));
  }

  lemma NoSpaces(name: seq<Byte>, value: seq<Byte>)
    ensures name + [] + [COLON] + [] + value + [] + [] == name + [COLON] + value
  {
  }

  function HeadText(ms: Members): seq<Byte>
    requires ms.Member?
  {
    Quoted(ms.name) + ms.nameAfter + [COLON] + ms.colonAfter + Text(ms.value) + ms.after
  }

  lemma MembersTextHead(ms: Members)
    requires ms.Member?
    ensures MembersText(ms)
         == HeadText(ms) + (if ms.tail.NoMember? then [] else [COMMA] + ms.before + MembersText(ms.tail))
  {
  }

  lemma Append3<T>(w: seq<T>, x: seq<T>, y: seq<T>, z: seq<T>)
    ensures w + (x + (y + z)) == w + (x + y) + z
    ensures w + [] + z == w + z
  {
  }

  lemma AppendedHead(ms: Members, value: int)
    requires ms.Member? && (ms.tail.NoMember? ==> ms.before == [])
    requires MembersText(Appended(ms.tail, value))
          == MembersText(ms.tail) + Insertion(PriorityMember(value), ms.tail.NoMember?)
    ensures MembersText(Appended(ms, value)) == MembersText(ms) + Insertion(PriorityMember(value), false)
  {
    var run := Insertion(PriorityMember(value), ms.tail.NoMember?);
    var grown := Appended(ms, value);
    MembersTextHead(ms);
    MembersTextHead(grown);
    assert HeadText(grown) == HeadText(ms);
    if ms.tail.NoMember? {
      assert [] + run == run && [COMMA] + [] == [COMMA];
      Append3(HeadText(ms), [], [], [COMMA] + run);
    } else {
      Append3(HeadText(ms), [COMMA] + ms.before, MembersText(ms.tail), run);
    }
  }

  /** The members that spell priority are the client's, and then the one written. */
  lemma {:induction false} PriorityComesLast(ms: Members, value: int)
    ensures PriorityValues(Appended(ms, value)) == PriorityValues(ms) + [Integer(value)]
  {
    if ms.NoMember? {
      PlainDecodes(PRIORITY, 0);
      assert PRIORITY[0..] == PRIORITY;
    } else {
      PriorityComesLast(ms.tail, value);
    }
  }

  /** The values of all members whose name spells priority, in order. */
  function PriorityValues(ms: Members): seq<Json> {
    if ms.NoMember? then []
    else (if Means(ms.name, PRIORITY) then [ms.value] else []) + PriorityValues(ms.tail)
  }

  /** On every well-formed object, whatever its nesting, the two rewriters write the same bytes: the same
      object with priority as its last member. */
  lemma RewritersAgree(b: seq<Byte>, t: Json, value: int)
    requires Document(b, t)
    ensures var rewritten := Streamed(b, PriorityMember(value));
            && Buffered(b, PriorityMember(value)) == Some(rewritten)
            && Document(rewritten, WithPriority(t, value))
            && Depth(WithPriority(t, value)) == Depth(t)
            && PriorityValues(WithPriority(t, value).members) == PriorityValues(t.members) + [Integer(value)]
  {
    var i: nat, e: nat :| i <= e <= |b| && Space(b[..i]) && b[i..e] == Text(t) && Space(b[e..]);
    var member := PriorityMember(value);
    StreamedDocument(b, t, i, e, member);
    BufferedDocument(b, t, i, e, member);
    AppendedText(t.members, value);
    PriorityComesLast(t.members, value);
    RewrittenText(b, t, i, e, value);
  }

  lemma InsertedSlices(b: seq<Byte>, i: nat, e: nat, run: seq<Byte>)
    requires i < e <= |b|
    ensures var r, f := Inserted(b, e - 1, run), e + |run|;
            && |r| == |b| + |run| && r[..i] == b[..i] && r[f..] == b[e..]
            && r[i..f] == b[i..e - 1] + run + [b[e - 1]]
  {
  }

  lemma RewrittenText(b: seq<Byte>, t: Json, i: nat, e: nat, value: int)
    requires t.Obj? && WellFormed(t) && i < e <= |b|
    requires Space(b[..i]) && b[i..e] == Text(t) && Space(b[e..])
    ensures Document(Inserted(b, e - 1, Insertion(PriorityMember(value), t.members.NoMember?)), WithPriority(t, value))
  {
    var run := Insertion(PriorityMember(value), t.members.NoMember?);
    InsertedSlices(b, i, e, run);
    CutLast(b, i, e, [OPEN_OBJECT] + t.open + MembersText(t.members), CLOSE_OBJECT);
    RewrittenObject(t, value);
    DocumentAt(Inserted(b, e - 1, run), WithPriority(t, value), i, e + |run|);
  }

  lemma RewrittenObject(t: Json, value: int)
    requires t.Obj? && WellFormed(t)
    ensures var run := Insertion(PriorityMember(value), t.members.NoMember?);
            [OPEN_OBJECT] + t.open + MembersText(t.members) + run + [CLOSE_OBJECT] == Text(WithPriority(t, value))
    ensures WellFormed(WithPriority(t, value))
  {
    AppendedText(t.members, value);
  }

  lemma DocumentAt(r: seq<Byte>, t: Json, i: nat, f: nat)
    requires t.Obj? && WellFormed(t) && i <= f <= |r| && Space(r[..i]) && r[i..f] == Text(t) && Space(r[f..])
    ensures Document(r, t)
  {
  }
}
