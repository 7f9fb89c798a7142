/** The fan-out of a request object: the tally the parser keeps member by member, and what it adds up to. */
module TpsFanout {
  import opened Machine
  import opened JsonGrammar
  import opened TpsShape

  // ---------- prompts ----------

  datatype Kind = KindOther | KindString | KindToken | KindTokenArray

  predicate Token(t: Json) {
    NonnegativeInt64(Text(t)).Some?
  }

  predicate AllTokens(items: Items) {
    items.Item? ==> Token(items.value) && AllTokens(items.tail)
  }

  function KindOf(t: Json): Kind {
    match t
    case Str(_) => KindString
    case Arr(_, items) => if AllTokens(items) then KindTokenArray else KindOther
    case _ => if Token(t) then KindToken else KindOther
  }

  predicate AllOfKind(items: Items, kind: Kind) {
    items.Item? ==> KindOf(items.value) == kind && AllOfKind(items.tail, kind)
  }

  predicate OneKind(items: Items)
    requires items.Item?
  {
    KindOf(items.value) != KindOther && AllOfKind(items, KindOf(items.value))
  }

  function Count(items: Items): nat {
    if items.NoItem? then 0 else 1 + Count(items.tail)
  }

  /** How many prompts a completion's prompt value holds: a string, a list of strings, a list of tokens or
      a list of token lists. */
  function PromptCount(t: Json): Option<int> {
    match t
    case Str(_) => Some(1)
    case Arr(_, items) =>
      if items.NoItem? then Some(1)
      else if !OneKind(items) then None
      else if KindOf(items.value) == KindToken then Some(1)
      else Some(Count(items))
    case _ => None
  }

  // ---------- the tally ----------

  datatype Fanout = Fanout(seen: bool, valid: bool, isNull: bool, value: int)

  const UNSEEN := Fanout(false, true, false, 1)

  /** The stream member: whether it was present, whether its value is known, and that value. */
  datatype Streaming = Streaming(present: bool, known: bool, value: bool)

  const NO_STREAM := Streaming(false, false, false)

  datatype Shape = Shape(basePromptCount: int, decodeSequences: int, supported: bool, streaming: Streaming)

  datatype Tally = Tally(shape: Shape, n: Fanout, bestOf: Fanout, promptSeen: bool)

  const START := Tally(Shape(1, 1, true, NO_STREAM), UNSEEN, UNSEEN, false)

  predicate UsesFanout(e: Endpoint) { e == ChatCompletions || e == Completions }

  ghost function NoteN(f: Fanout, value: seq<Byte>): (Fanout, bool) {
    var parsed := Positive(value);
    if parsed.None? || (f.seen && f.value != parsed.value) then (f.(valid := false), false)
    else (f.(seen := true, valid := true, value := parsed.value), true)
  }

  ghost function NoteBestOf(f: Fanout, value: seq<Byte>): (Fanout, bool) {
    if value == NULL then
      if f.seen && !f.isNull then (f.(valid := false), false) else (Fanout(true, true, true, 1), true)
    else if f.seen && f.isNull then (f.(valid := false), false)
    else NoteN(f, value)
  }

  function Boolean(value: seq<Byte>): Option<bool> {
    if value == TRUE then Some(true) else if value == FALSE then Some(false) else None
  }

  function NoteStream(s: Streaming, value: seq<Byte>): Streaming {
    var parsed := Boolean(value);
    var streaming := parsed == Some(true);
    if !s.present then Streaming(true, parsed.Some?, streaming)
    else if parsed.None? || !s.known || s.value != streaming then Streaming(true, false, false)
    else s
  }

  function NotePrompt(t: Tally, count: Option<int>): Tally {
    t.(shape := t.shape.(supported := t.shape.supported && !t.promptSeen && count.Some?,
                         basePromptCount := if count.Some? then count.value else t.shape.basePromptCount),
       promptSeen := true)
  }

  ghost function Noted(t: Tally, e: Endpoint, name: seq<Byte>, value: Json): Tally {
    var t1 := if e == Completions && Means(name, PROMPT) then NotePrompt(t, PromptCount(value)) else t;
    NotedFields(t1, e, name, Text(value))
  }

  ghost function NotedFields(t: Tally, e: Endpoint, name: seq<Byte>, value: seq<Byte>): Tally {
    var t2 := if UsesFanout(e) && Means(name, N) then
                var (f, ok) := NoteN(t.n, value);
                t.(n := f, shape := t.shape.(supported := ok && t.shape.supported))
              else t;
    var t3 := if e == Completions && Means(name, BEST_OF) then
                var (f, ok) := NoteBestOf(t2.bestOf, value);
                t2.(bestOf := f, shape := t2.shape.(supported := ok && t2.shape.supported))
              else t2;
    if Means(name, STREAM) then t3.(shape := t3.shape.(streaming := NoteStream(t3.shape.streaming, value))) else t3
  }

  /** The tally after all members, first to last. */
  ghost function Tallied(t: Tally, e: Endpoint, ms: Members): Tally
    decreases ms
  {
    if ms.NoMember? then t else Tallied(Noted(t, e, ms.name, ms.value), e, ms.tail)
  }

  /** Go's division truncates; both operands are positive where it is reached. */
  function Finalized(t: Tally, e: Endpoint): Shape {
    var candidates := if e == Completions && t.bestOf.value > t.n.value then t.bestOf.value else t.n.value;
    var s := t.shape;
    if !s.supported || !t.n.valid || !t.bestOf.valid || s.basePromptCount <= 0 || candidates <= 0 ||
       s.basePromptCount > MAX_INT64 / candidates then
      s.(supported := false, decodeSequences := 0)
    else
      s.(decodeSequences := s.basePromptCount * candidates)
  }

  ghost function ShapeOf(t: Json, e: Endpoint): Shape
    requires t.Obj?
  {
    Finalized(Tallied(START, e, t.members), e)
  }

  // ---------- what it adds up to ----------

  /** The values of all members whose name spells the candidate, in order. */
  function Values(ms: Members, candidate: seq<Byte>): seq<Json> {
    if ms.NoMember? then []
    else (if Means(ms.name, candidate) then [ms.value] else []) + Values(ms.tail, candidate)
  }

  /** Every value is the same positive integer. */
  ghost predicate SamePositive(vs: seq<Json>) {
    forall i :: 0 <= i < |vs| ==> Positive(Text(vs[i])).Some? && Positive(Text(vs[i])) == Positive(Text(vs[0]))
  }

  predicate AllNull(vs: seq<Json>) {
    forall i :: 0 <= i < |vs| ==> Text(vs[i]) == NULL
  }

  ghost function Chosen(vs: seq<Json>): int {
    if vs == [] || Positive(Text(vs[0])).None? then 1 else Positive(Text(vs[0])).value
  }

  ghost function FoldN(f: Fanout, vs: seq<Json>): (Fanout, bool)
    decreases |vs|
  {
    if vs == [] then (f, true)
    else
      var (g, ok) := NoteN(f, Text(vs[0]));
      var (h, rest) := FoldN(g, vs[1..]);
      (h, ok && rest)
  }

  ghost function FoldBestOf(f: Fanout, vs: seq<Json>): (Fanout, bool)
    decreases |vs|
  {
    if vs == [] then (f, true)
    else
      var (g, ok) := NoteBestOf(f, Text(vs[0]));
      var (h, rest) := FoldBestOf(g, vs[1..]);
      (h, ok && rest)
  }

  function FoldStream(s: Streaming, vs: seq<Json>): Streaming
    decreases |vs|
  {
    if vs == [] then s else FoldStream(NoteStream(s, Text(vs[0])), vs[1..])
  }

  /** The prompt count, and whether it is the only one and understood. */
  function FoldPrompts(base: int, seen: bool, vs: seq<Json>): (int, bool)
    decreases |vs|
  {
    if vs == [] then (base, true)
    else
      var count := PromptCount(vs[0]);
      var (last, rest) := FoldPrompts(if count.Some? then count.value else base, true, vs[1..]);
      (last, !seen && count.Some? && rest)
  }

  /** Fan-out fields after the first sighting: one more value is fine exactly when it is the same. */
  lemma {:induction false} FoldNSeen(f: Fanout, vs: seq<Json>)
    requires f.seen
    ensures FoldN(f, vs).1 <==> forall i :: 0 <= i < |vs| ==> Positive(Text(vs[i])) == Some(f.value)
    ensures FoldN(f, vs).1 && f.valid ==> FoldN(f, vs).0 == f
    decreases |vs|
  {
    if vs != [] {
      if Positive(Text(vs[0])) == Some(f.value) {
        FoldNSeen(f.(valid := true), vs[1..]);
        assert forall i :: 0 < i < |vs| ==> vs[i] == vs[1..][i - 1];
        if f.valid { assert f.(valid := true) == f; }
      }
    }
  }

  /** n is understood exactly when all its values are the same positive integer, and is that integer. */
  lemma FoldNMeaning(vs: seq<Json>)
    ensures FoldN(UNSEEN, vs).1 <==> SamePositive(vs)
    ensures SamePositive(vs) ==> FoldN(UNSEEN, vs).0.valid && FoldN(UNSEEN, vs).0.value == Chosen(vs)
  {
    if vs != [] && Positive(Text(vs[0])).Some? {
      var f := NoteN(UNSEEN, Text(vs[0])).0;
      FoldNSeen(f, vs[1..]);
      assert forall i :: 0 < i < |vs| ==> vs[i] == vs[1..][i - 1];
    }
  }

  lemma {:induction false} FoldBestOfSeen(f: Fanout, vs: seq<Json>)
    requires f.seen
    ensures FoldBestOf(f, vs).1 <==>
              if f.isNull then AllNull(vs)
              else forall i :: 0 <= i < |vs| ==> Text(vs[i]) != NULL && Positive(Text(vs[i])) == Some(f.value)
    ensures FoldBestOf(f, vs).1 && f.valid && (f.isNull ==> f.value == 1) ==> FoldBestOf(f, vs).0 == f
    decreases |vs|
  {
    if vs != [] {
      assert forall i :: 0 < i < |vs| ==> vs[i] == vs[1..][i - 1];
      var (g, ok) := NoteBestOf(f, Text(vs[0]));
      if ok { FoldBestOfSeen(g, vs[1..]); }
    }
  }

  lemma NullIsNotPositive()
    ensures Positive(NULL).None?
  {
    assert NULL[0] == 0x6E && !Digit(NULL[0]);
  }

  /** best_of is understood exactly when all its values are null, or all the same positive integer. */
  lemma FoldBestOfMeaning(vs: seq<Json>)
    ensures FoldBestOf(UNSEEN, vs).1 <==> AllNull(vs) || SamePositive(vs)
    ensures FoldBestOf(UNSEEN, vs).1 ==> FoldBestOf(UNSEEN, vs).0.valid && FoldBestOf(UNSEEN, vs).0.value == Chosen(vs)
  {
    NullIsNotPositive();
    if vs != [] {
      assert forall i :: 0 < i < |vs| ==> vs[i] == vs[1..][i - 1];
      var (f, ok) := NoteBestOf(UNSEEN, Text(vs[0]));
      if ok { FoldBestOfSeen(f, vs[1..]); }
    }
  }

  lemma {:induction false} FoldStreamSeen(s: Streaming, vs: seq<Json>)
    requires s.present && (!s.known ==> !s.value)
    ensures var r := FoldStream(s, vs);
            var same := s.known && forall i :: 0 <= i < |vs| ==> Boolean(Text(vs[i])) == Some(s.value);
            r == if same then s else Streaming(true, false, false)
    decreases |vs|
  {
    if vs != [] {
      assert forall i :: 0 < i < |vs| ==> vs[i] == vs[1..][i - 1];
      FoldStreamSeen(NoteStream(s, Text(vs[0])), vs[1..]);
    }
  }

  /** stream is known exactly when it is present and all its values are the same boolean. */
  lemma FoldStreamMeaning(vs: seq<Json>)
    ensures var r := FoldStream(NO_STREAM, vs);
            && (r.present <==> vs != [])
            && (r.known <==> vs != [] && forall i :: 0 <= i < |vs| ==>
                  Boolean(Text(vs[i])).Some? && Boolean(Text(vs[i])) == Boolean(Text(vs[0])))
            && (r.known ==> Boolean(Text(vs[0])) == Some(r.value))
  {
    if vs != [] {
      assert forall i :: 0 < i < |vs| ==> vs[i] == vs[1..][i - 1];
      FoldStreamSeen(NoteStream(NO_STREAM, Text(vs[0])), vs[1..]);
    }
  }

  lemma FoldPromptsMeaning(vs: seq<Json>)
    ensures FoldPrompts(1, false, vs).1 <==> |vs| <= 1 && (|vs| == 1 ==> PromptCount(vs[0]).Some?)
    ensures FoldPrompts(1, false, vs).1 ==>
              FoldPrompts(1, false, vs).0 == if vs == [] then 1 else PromptCount(vs[0]).value
  {
    if |vs| > 1 { assert vs[1..] != []; }
  }

  // ---------- the tally is the folds side by side ----------

  function Of(vs: seq<Json>, relevant: bool): seq<Json> {
    if relevant then vs else []
  }

  ghost predicate Together(t: Tally, e: Endpoint, ms: Members, r: Tally) {
    var ns := Of(Values(ms, N), UsesFanout(e));
    var bests, prompts := Of(Values(ms, BEST_OF), e == Completions), Of(Values(ms, PROMPT), e == Completions);
    && r.n == FoldN(t.n, ns).0 && r.bestOf == FoldBestOf(t.bestOf, bests).0
    && r.shape.basePromptCount == FoldPrompts(t.shape.basePromptCount, t.promptSeen, prompts).0
    && r.shape.streaming == FoldStream(t.shape.streaming, Values(ms, STREAM))
    && (r.shape.supported <==> t.shape.supported && FoldN(t.n, ns).1 && FoldBestOf(t.bestOf, bests).1
                               && FoldPrompts(t.shape.basePromptCount, t.promptSeen, prompts).1)
  }

  lemma ValuesStep(ms: Members, candidate: seq<Byte>)
    requires ms.Member?
    ensures Means(ms.name, candidate) ==>
              Values(ms, candidate) != [] && Values(ms, candidate)[0] == ms.value
              && Values(ms, candidate)[1..] == Values(ms.tail, candidate)
    ensures !Means(ms.name, candidate) ==> Values(ms, candidate) == Values(ms.tail, candidate)
  {
  }

  lemma {:induction false} TalliedTogether(t: Tally, e: Endpoint, ms: Members)
    ensures Together(t, e, ms, Tallied(t, e, ms))
    decreases ms
  {
    if ms.Member? {
      TalliedTogether(Noted(t, e, ms.name, ms.value), e, ms.tail);
      ValuesStep(ms, N);
      ValuesStep(ms, BEST_OF);
      ValuesStep(ms, PROMPT);
      ValuesStep(ms, STREAM);
    }
  }

  // ---------- the shape of a request ----------

  lemma PromptCountPositive(t: Json)
    requires PromptCount(t).Some?
    ensures PromptCount(t).value > 0
  {
  }

  lemma ProductGrows(x: int, y: int, b: int)
    requires x <= y && b > 0
    ensures x * b <= y * b
  {
  }

  lemma Quotient(m: int, b: int)
    requires b > 0
    ensures m / b * b <= m < m / b * b + b
  {
  }

  lemma ProductFits(m: int, a: int, b: int)
    requires b > 0
    ensures a > m / b <==> a * b > m
  {
    var q := m / b;
    Quotient(m, b);
    if a > q {
      ProductGrows(q + 1, a, b);
      assert (q + 1) * b == q * b + b;
    } else {
      ProductGrows(a, q, b);
    }
  }

  /** Every n is the same positive integer, best_of is null throughout or likewise, and there is at most one
      prompt, of a kind that is understood. */
  ghost predicate Understood(ns: seq<Json>, bests: seq<Json>, prompts: seq<Json>) {
    && SamePositive(ns) && (AllNull(bests) || SamePositive(bests))
    && |prompts| <= 1 && (|prompts| == 1 ==> PromptCount(prompts[0]).Some?)
  }

  /** The sequences asked for: prompts times the larger of n and best_of. */
  ghost function Asked(ns: seq<Json>, bests: seq<Json>, prompts: seq<Json>): int {
    (if prompts == [] || PromptCount(prompts[0]).None? then 1 else PromptCount(prompts[0]).value)
    * (if Chosen(bests) > Chosen(ns) then Chosen(bests) else Chosen(ns))
  }

  /** A request is supported exactly when its fan-out fields are understood and the product fits an int64;
      it then asks for exactly that product, and for nothing otherwise. */
  lemma ShapeMeaning(t: Json, e: Endpoint)
    requires t.Obj?
    ensures var s := ShapeOf(t, e);
            var ns := Of(Values(t.members, N), UsesFanout(e));
            var bests := Of(Values(t.members, BEST_OF), e == Completions);
            var prompts := Of(Values(t.members, PROMPT), e == Completions);
            && (s.supported <==> Understood(ns, bests, prompts) && Asked(ns, bests, prompts) <= MAX_INT64)
            && s.decodeSequences == (if s.supported then Asked(ns, bests, prompts) else 0)
            && (s.supported ==> s.basePromptCount == if prompts == [] then 1 else PromptCount(prompts[0]).value)
            && s.streaming == FoldStream(NO_STREAM, Values(t.members, STREAM))
  {
    TalliedTogether(START, e, t.members);
    var ns := Of(Values(t.members, N), UsesFanout(e));
    var bests := Of(Values(t.members, BEST_OF), e == Completions);
    var prompts := Of(Values(t.members, PROMPT), e == Completions);
    FoldNMeaning(ns);
    FoldBestOfMeaning(bests);
    FoldPromptsMeaning(prompts);
    var r := Tallied(START, e, t.members);
    if r.shape.supported {
      if prompts != [] { PromptCountPositive(prompts[0]); }
      ProductFits(MAX_INT64, r.shape.basePromptCount, if Chosen(bests) > Chosen(ns) then Chosen(bests) else Chosen(ns));
    }
  }
}
