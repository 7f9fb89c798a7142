/** Everything the scanner accepts is grammatical. */
module JsonSound {
  import opened JsonGrammar
  import opened JsonScan

  lemma {:induction false} StringSound(b: seq<Byte>, i: nat)
    requires i <= |b| && ClosingQuote(b, i).Some?
    ensures StringBody(b[i..ClosingQuote(b, i).value])
    decreases |b| - i
  {
    var q := ClosingQuote(b, i).value;
    if b[i] != QUOTE {
      var k := if b[i] != BACKSLASH then 1 else if b[i + 1] == 0x75 then 6 else 2;
      StringSound(b, i + k);
      assert b[i..q][k..] == b[i + k..q];
    }
  }

  lemma WholeSound(b: seq<Byte>, i: nat)
    requires i <= |b| && ScanWhole(b, i).Some?
    ensures WholePart(b[i..ScanWhole(b, i).value])
  {
  }

  lemma FractionSound(b: seq<Byte>, i: nat)
    requires i <= |b| && ScanFraction(b, i).Some?
    ensures FractionPart(b[i..ScanFraction(b, i).value])
  {
  }

  lemma ExponentSound(b: seq<Byte>, i: nat)
    requires i <= |b| && ScanExponent(b, i).Some?
    ensures ExponentPart(b[i..ScanExponent(b, i).value])
  {
  }

  /** From i to e stands the text of the grammatical value t, nested at most depth deep. */
  predicate Spells(b: seq<Byte>, i: nat, e: nat, t: Json, depth: nat) {
    i <= e <= |b| && b[i..e] == Text(t) && WellFormed(t) && Depth(t) <= depth
  }

  predicate SpellsItems(b: seq<Byte>, i: nat, e: nat, items: Items, depth: nat) {
    i <= e <= |b| && b[i..e] == ItemsText(items) && ItemsWellFormed(items) && ItemsDepth(items) <= depth
  }

  predicate SpellsMembers(b: seq<Byte>, i: nat, e: nat, members: Members, depth: nat) {
    i <= e <= |b| && b[i..e] == MembersText(members) && MembersWellFormed(members) && MembersDepth(members) <= depth
  }

  predicate SpellsPair(b: seq<Byte>, i: nat, e: nat, p: Pair, depth: nat) {
    && i <= e <= |b| && b[i..e] == Quoted(p.name) + p.nameAfter + [COLON] + p.colonAfter + Text(p.value)
    && StringBody(p.name) && Space(p.nameAfter) && Space(p.colonAfter) && WellFormed(p.value) && Depth(p.value) <= depth
  }

  // ---------- composing texts ----------

  lemma NumberText(b: seq<Byte>, i: nat, s: nat, w: nat, f: nat, e: nat)
    requires i <= s <= w <= f <= e <= |b|
    ensures b[i..e] == Text(Num(b[i..s], b[s..w], b[w..f], b[f..e]))
  {
  }

  lemma StringText(b: seq<Byte>, i: nat, q: nat)
    requires i < q < |b| && b[i] == b[q] == QUOTE
    ensures b[i..q + 1] == Quoted(b[i + 1..q])
  {
  }

  lemma ObjectText(b: seq<Byte>, i: nat, k: nat, e: nat, members: Members, depth: nat)
    requires i < k <= e < |b| && b[i] == OPEN_OBJECT && b[e] == CLOSE_OBJECT
    requires Space(b[i + 1..k]) && SpellsMembers(b, k, e, members, depth)
    ensures Spells(b, i, e + 1, Obj(b[i + 1..k], members), depth + 1)
  {
    assert b[i..e + 1] == [b[i]] + b[i + 1..k] + b[k..e] + [b[e]];
  }

  lemma ArrayText(b: seq<Byte>, i: nat, k: nat, e: nat, items: Items, depth: nat)
    requires i < k <= e < |b| && b[i] == OPEN_ARRAY && b[e] == CLOSE_ARRAY
    requires Space(b[i + 1..k]) && SpellsItems(b, k, e, items, depth)
    ensures Spells(b, i, e + 1, Arr(b[i + 1..k], items), depth + 1)
  {
    assert b[i..e + 1] == [b[i]] + b[i + 1..k] + b[k..e] + [b[e]];
  }

  lemma Separated(b: seq<Byte>, i: nat, n: nat, a: nat, c: nat, e: nat)
    requires i <= n <= a < c <= e <= |b|
    ensures b[i..e] == b[i..n] + b[n..a] + ([b[a]] + b[a + 1..c] + b[c..e])
  {
    assert b[i..e] == b[i..n] + b[n..a] + b[a..e];
    assert b[a..e] == [b[a]] + b[a + 1..c] + b[c..e];
  }

  lemma LastItemText(b: seq<Byte>, i: nat, value: Json, n: nat, a: nat, depth: nat)
    requires Spells(b, i, n, value, depth) && n <= a <= |b| && Space(b[n..a])
    ensures SpellsItems(b, i, a, Item(value, b[n..a], [], NoItem), depth)
  {
    assert b[i..a] == b[i..n] + b[n..a] + [];
  }

  lemma MoreItemsText(b: seq<Byte>, i: nat, value: Json, n: nat, a: nat, c: nat, e: nat, tail: Items, depth: nat)
    requires Spells(b, i, n, value, depth) && n <= a < c && SpellsItems(b, c, e, tail, depth) && tail.Item?
    requires Space(b[n..a]) && b[a] == COMMA && Space(b[a + 1..c])
    ensures SpellsItems(b, i, e, Item(value, b[n..a], b[a + 1..c], tail), depth)
  {
    Separated(b, i, n, a, c, e);
  }

  lemma PairText(b: seq<Byte>, i: nat, q: nat, colon: nat, v: nat, e: nat, value: Json, depth: nat)
    requires i < q < colon < v && Spells(b, v, e, value, depth)
    requires b[i] == b[q] == QUOTE && StringBody(b[i + 1..q]) && b[colon] == COLON
    requires Space(b[q + 1..colon]) && Space(b[colon + 1..v])
    ensures SpellsPair(b, i, e, Pair(b[i + 1..q], b[q + 1..colon], b[colon + 1..v], value), depth)
  {
    StringText(b, i, q);
    assert b[i..colon] == b[i..q + 1] + b[q + 1..colon];
    assert b[i..colon + 1] == b[i..colon] + [b[colon]];
    assert b[i..v] == b[i..colon + 1] + b[colon + 1..v];
    assert b[i..e] == b[i..v] + b[v..e];
  }

  lemma LastMemberText(b: seq<Byte>, i: nat, p: Pair, n: nat, a: nat, depth: nat)
    requires SpellsPair(b, i, n, p, depth) && n <= a <= |b| && Space(b[n..a])
    ensures SpellsMembers(b, i, a, MemberOf(p, b[n..a], [], NoMember), depth)
  {
    assert b[i..a] == b[i..n] + b[n..a] + [];
  }

  lemma MoreMembersText(b: seq<Byte>, i: nat, p: Pair, n: nat, a: nat, c: nat, e: nat, tail: Members, depth: nat)
    requires SpellsPair(b, i, n, p, depth) && n <= a < c && SpellsMembers(b, c, e, tail, depth) && tail.Member?
    requires Space(b[n..a]) && b[a] == COMMA && Space(b[a + 1..c])
    ensures SpellsMembers(b, i, e, MemberOf(p, b[n..a], b[a + 1..c], tail), depth)
  {
    Separated(b, i, n, a, c, e);
  }

  // ---------- the scans ----------

  lemma NumberSound(b: seq<Byte>, i: nat)
    requires i <= |b| && ScanNumber(b, i).Good?
    ensures Spells(b, i, ScanNumber(b, i).end, ScanNumber(b, i).tree, 0)
  {
    var s := if i < |b| && b[i] == MINUS then i + 1 else i;
    var w := ScanWhole(b, s).value;
    var f := ScanFraction(b, w).value;
    var e := ScanExponent(b, f).value;
    WholeSound(b, s);
    FractionSound(b, w);
    ExponentSound(b, f);
    NumberText(b, i, s, w, f, e);
  }

  /** A scanned value is the text of a grammatical tree within the nesting allowed. */
  lemma {:induction false} ValueSound(b: seq<Byte>, i: nat, depth: nat)
    requires i <= |b| && ScanValue(b, i, depth).Good?
    ensures Spells(b, i, ScanValue(b, i, depth).end, ScanValue(b, i, depth).tree, depth)
    decreases |b| - i, 1
  {
    if b[i] == OPEN_OBJECT {
      ObjectSound(b, i, depth);
    } else if b[i] == OPEN_ARRAY {
      ArraySound(b, i, depth);
    } else if b[i] == QUOTE {
      StringSound(b, i + 1);
      StringText(b, i, ScanString(b, i).value);
    } else if b[i] == 0x74 || b[i] == 0x66 || b[i] == 0x6E {
    } else {
      NumberSound(b, i);
    }
  }

  lemma {:induction false} ObjectSound(b: seq<Byte>, i: nat, depth: nat)
    requires i < |b| && b[i] == OPEN_OBJECT && ScanObject(b, i, depth).Good?
    ensures Spells(b, i, ScanObject(b, i, depth).end, ScanObject(b, i, depth).tree, depth)
    decreases |b| - i, 0
  {
    var k := SkipSpace(b, i + 1);
    if b[k] == CLOSE_OBJECT {
      ObjectText(b, i, k, k, NoMember, depth - 1);
    } else {
      MembersSound(b, k, depth - 1);
      var r := ScanMembers(b, k, depth - 1);
      ObjectText(b, i, k, r.end, r.tree, depth - 1);
    }
  }

  lemma {:induction false} ArraySound(b: seq<Byte>, i: nat, depth: nat)
    requires i < |b| && b[i] == OPEN_ARRAY && ScanArray(b, i, depth).Good?
    ensures Spells(b, i, ScanArray(b, i, depth).end, ScanArray(b, i, depth).tree, depth)
    decreases |b| - i, 0
  {
    var k := SkipSpace(b, i + 1);
    if b[k] == CLOSE_ARRAY {
      ArrayText(b, i, k, k, NoItem, depth - 1);
    } else {
      ItemsSound(b, k, depth - 1);
      var r := ScanItems(b, k, depth - 1);
      ArrayText(b, i, k, r.end, r.tree, depth - 1);
    }
  }

  lemma SeparatorSound(b: seq<Byte>, n: nat, close: Byte)
    requires n <= |b|
    ensures var s := ScanSeparator(b, n, close);
            && (s.Closing? ==> Space(b[n..s.at]))
            && (s.Comma? ==> Space(b[n..s.at]) && b[s.at] == COMMA && Space(b[s.at + 1..s.next]))
  {
  }

  lemma {:induction false} ItemsSound(b: seq<Byte>, i: nat, depth: nat)
    requires i <= |b| && ScanItems(b, i, depth).Good?
    ensures SpellsItems(b, i, ScanItems(b, i, depth).end, ScanItems(b, i, depth).tree, depth)
    decreases |b| - i, 2
  {
    ValueSound(b, i, depth);
    var r := ScanValue(b, i, depth);
    ItemsAfterSound(b, i, r.end, depth, r.tree);
  }

  lemma {:induction false} ItemsAfterSound(b: seq<Byte>, i: nat, n: nat, depth: nat, value: Json)
    requires i < n && Spells(b, i, n, value, depth) && ScanItemsAfter(b, n, depth, value).Good?
    ensures var r := ScanItemsAfter(b, n, depth, value);
            SpellsItems(b, i, r.end, r.tree, depth)
    decreases |b| - n, 0
  {
    SeparatorSound(b, n, CLOSE_ARRAY);
    match ScanSeparator(b, n, CLOSE_ARRAY)
    case Closing(a) =>
      LastItemText(b, i, value, n, a, depth);
    case Comma(a, c) =>
      ItemsSound(b, c, depth);
      var tail := ScanItems(b, c, depth);
      MoreItemsText(b, i, value, n, a, c, tail.end, tail.tree, depth);
  }

  lemma {:induction false} PairSound(b: seq<Byte>, i: nat, depth: nat)
    requires i <= |b| && ScanPair(b, i, depth).Good?
    ensures SpellsPair(b, i, ScanPair(b, i, depth).end, ScanPair(b, i, depth).tree, depth)
    decreases |b| - i, 2
  {
    var Head(q, colon, v) := ScanHead(b, i).value;
    HeadSound(b, i);
    ValueSound(b, v, depth);
    var r := ScanValue(b, v, depth);
    PairText(b, i, q, colon, v, r.end, r.tree, depth);
  }

  lemma HeadSound(b: seq<Byte>, i: nat)
    requires i <= |b| && ScanHead(b, i).Some?
    ensures var h := ScanHead(b, i).value;
            && b[i] == b[h.quote] == QUOTE && StringBody(b[i + 1..h.quote]) && b[h.colon] == COLON
            && Space(b[h.quote + 1..h.colon]) && Space(b[h.colon + 1..h.value])
  {
    StringSound(b, i + 1);
  }

  lemma {:induction false} MembersSound(b: seq<Byte>, i: nat, depth: nat)
    requires i <= |b| && ScanMembers(b, i, depth).Good?
    ensures SpellsMembers(b, i, ScanMembers(b, i, depth).end, ScanMembers(b, i, depth).tree, depth)
    decreases |b| - i, 3
  {
    PairSound(b, i, depth);
    var r := ScanPair(b, i, depth);
    MembersAfterSound(b, i, r.end, depth, r.tree);
  }

  lemma {:induction false} MembersAfterSound(b: seq<Byte>, i: nat, n: nat, depth: nat, p: Pair)
    requires i < n && SpellsPair(b, i, n, p, depth) && ScanMembersAfter(b, n, depth, p).Good?
    ensures var r := ScanMembersAfter(b, n, depth, p);
            SpellsMembers(b, i, r.end, r.tree, depth)
    decreases |b| - n, 0
  {
    SeparatorSound(b, n, CLOSE_OBJECT);
    match ScanSeparator(b, n, CLOSE_OBJECT)
    case Closing(a) =>
      LastMemberText(b, i, p, n, a, depth);
    case Comma(a, c) =>
      MembersSound(b, c, depth);
      var tail := ScanMembers(b, c, depth);
      MoreMembersText(b, i, p, n, a, c, tail.end, tail.tree, depth);
  }

}
