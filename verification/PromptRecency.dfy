/** Prompt fingerprints and the recency order the prompt mirror keeps a prefix of. */
module PromptRecency {
  // ---------- fingerprints ----------

  type Octet = bv8

  /** The hash that stands for a block of a prompt and everything before it. */
  datatype Block = Block(hash: bv64)

  const BLOCK_BYTES: nat := 1024
  const OFFSET: bv64 := 14695981039346656037
  const PRIME: bv64 := 1099511628211

  function Mix(hash: bv64, b: Octet): bv64 {
    (hash ^ (b as bv64)) * PRIME
  }

  /** Bytes are mixed in one at a time; nothing below depends on how. */
  type Mixer = (bv64, Octet) -> bv64

  function Hash(mix: Mixer, seed: bv64, s: seq<Octet>): bv64 {
    if s == [] then seed else mix(Hash(mix, seed, s[..|s| - 1]), s[|s| - 1])
  }

  function Least(a: nat, b: nat): nat { if a < b then a else b }

  /** Block k hashes the context and then the body through the end of block k. */
  predicate FingerprintsWith(mix: Mixer, blocks: seq<Block>, context: seq<Octet>, body: seq<Octet>) {
    && |blocks| == (|body| + BLOCK_BYTES - 1) / BLOCK_BYTES
    && forall k :: 0 <= k < |blocks| ==>
         blocks[k] == Block(Hash(mix, Hash(mix, OFFSET, context), body[..BlockEnd(k, |body|)]))
  }

  predicate Fingerprints(blocks: seq<Block>, context: seq<Octet>, body: seq<Octet>) {
    FingerprintsWith(Mix, blocks, context, body)
  }

  /** Every 1024 bytes of the body end a block, and so does its last byte; a block hashes what precedes its end. */
  lemma FingerprintsExactly(blocks: seq<Block>, context: seq<Octet>, body: seq<Octet>)
    ensures Fingerprints(blocks, context, body) <==>
              && |blocks| == |body| / 1024 + (if |body| % 1024 == 0 then 0 else 1)
              && forall k :: 0 <= k < |blocks| ==>
                   var end := if (k + 1) * 1024 < |body| then (k + 1) * 1024 else |body|;
                   blocks[k] == Block(Hash(Mix, Hash(Mix, OFFSET, context), body[..end]))
  {
  }

  /** The hash is FNV-1a of 64 bits: the values the algorithm is known by for no byte and for the letter a. */
  lemma KnownHashes()
    ensures Hash(Mix, OFFSET, []) == 0xCBF2_9CE4_8422_2325
    ensures Hash(Mix, OFFSET, [0x61]) == 0xAF63_DC4C_8601_EC8C
  {
    assert [0x61 as Octet][..0] == [];
    assert Mix(OFFSET, 0x61) == 0xAF63_DC4C_8601_EC8C;
  }

  /** How many blocks have ended within the first n bytes of a body. */
  function Ended(n: nat, size: nat): nat {
    if n == size then (size + BLOCK_BYTES - 1) / BLOCK_BYTES else n / BLOCK_BYTES
  }

  function BlockEnd(k: nat, size: nat): nat {
    Least((k + 1) * BLOCK_BYTES, size)
  }

  lemma EndedStep(i: nat, size: nat)
    requires i < size
    ensures (i + 1) % BLOCK_BYTES == 0 || i == size - 1 ==>
              Ended(i + 1, size) == Ended(i, size) + 1 && BlockEnd(Ended(i, size), size) == i + 1
    ensures !((i + 1) % BLOCK_BYTES == 0 || i == size - 1) ==> Ended(i + 1, size) == Ended(i, size)
  {
  }

  lemma HashStep(mix: Mixer, seed: bv64, s: seq<Octet>, i: nat)
    requires i < |s|
    ensures Hash(mix, seed, s[..i + 1]) == mix(Hash(mix, seed, s[..i]), s[i])
  {
    assert s[..i + 1][..i] == s[..i];
  }

  method FingerprintPrompt(context: seq<Octet>, body: seq<Octet>) returns (blocks: seq<Block>)
    ensures Fingerprints(blocks, context, body)
  {
    blocks := FingerprintWith(Mix, context, body);
  }

  method FingerprintWith(mix: Mixer, context: seq<Octet>, body: seq<Octet>) returns (blocks: seq<Block>)
    ensures FingerprintsWith(mix, blocks, context, body)
  {
    blocks := [];
    if |body| == 0 {
      return;
    }
    var hash := OFFSET;
    for i := 0 to |context|
      invariant hash == Hash(mix, OFFSET, context[..i])
    {
      HashStep(mix, OFFSET, context, i);
      hash := mix(hash, context[i]);
    }
    assert context[..|context|] == context;
    ghost var seed := hash;
    for i := 0 to |body|
      invariant hash == Hash(mix, seed, body[..i])
      invariant |blocks| == Ended(i, |body|)
      invariant forall k :: 0 <= k < |blocks| ==> blocks[k] == Block(Hash(mix, seed, body[..BlockEnd(k, |body|)]))
    {
      HashStep(mix, seed, body, i);
      EndedStep(i, |body|);
      hash := mix(hash, body[i]);
      if (i + 1) % BLOCK_BYTES == 0 || i == |body| - 1 {
        blocks := blocks + [Block(hash)];
      }
    }
  }

  /** Bodies of one context that agree on n full blocks have the same first n block hashes. */
  lemma SharedPrefix(b: seq<Block>, c: seq<Block>, context: seq<Octet>, body: seq<Octet>, other: seq<Octet>, n: nat)
    requires Fingerprints(b, context, body) && Fingerprints(c, context, other)
    requires n * BLOCK_BYTES <= |body| && n * BLOCK_BYTES <= |other|
    requires body[..n * BLOCK_BYTES] == other[..n * BLOCK_BYTES]
    ensures n <= |b| && n <= |c| && b[..n] == c[..n]
  {
    forall k | 0 <= k < n ensures b[k] == c[k] {
      var m := (k + 1) * BLOCK_BYTES;
      assert m <= n * BLOCK_BYTES;
      assert body[..m] == body[..n * BLOCK_BYTES][..m] == other[..m];
    }
  }

  // ---------- recency ----------

  /** The list without x. */
  function Without<T(==)>(s: seq<T>, x: T): seq<T> {
    if s == [] then []
    else if s[0] == x then Without(s[1..], x)
    else [s[0]] + Without(s[1..], x)
  }

  predicate Distinct<T(==)>(s: seq<T>) {
    forall i, j :: 0 <= i < j < |s| ==> s[i] != s[j]
  }

  /** The list after touching blocks one after another: each moves, or comes, to the front. */
  function Touched(order: seq<Block>, touches: seq<Block>): seq<Block> {
    if touches == [] then order
    else
      var n := |touches| - 1;
      [touches[n]] + Without(Touched(order, touches[..n]), touches[n])
  }

  /** All blocks ever touched, the latest first. */
  function Recency(touches: seq<Block>): seq<Block> {
    Touched([], touches)
  }

  function Kept(order: seq<Block>, capacity: nat): seq<Block> {
    order[..Least(capacity, |order|)]
  }

  lemma {:induction false} WithoutMembers<T>(s: seq<T>, x: T)
    ensures x !in Without(s, x)
    ensures forall y :: y in Without(s, x) <==> y in s && y != x
    ensures x !in s ==> Without(s, x) == s
    ensures |Without(s, x)| <= |s|
  {
    if s != [] {
      WithoutMembers(s[1..], x);
      assert s == [s[0]] + s[1..];
    }
  }

  lemma {:induction false} WithoutDistinct<T>(s: seq<T>, x: T)
    requires Distinct(s)
    ensures Distinct(Without(s, x))
    ensures x in s ==> |Without(s, x)| == |s| - 1
  {
    if s != [] {
      assert s[0] !in s[1..];
      forall i, j | 0 <= i < j < |s[1..]| ensures s[1..][i] != s[1..][j] {
        assert s[1..][i] == s[i + 1] && s[1..][j] == s[j + 1];
      }
      WithoutDistinct(s[1..], x);
      WithoutMembers(s[1..], x);
    }
  }

  lemma {:induction false} WithoutPrefix<T>(s: seq<T>, t: seq<T>, x: T)
    requires s <= t
    ensures Without(s, x) <= Without(t, x)
  {
    if s != [] {
      WithoutPrefix(s[1..], t[1..], x);
    }
  }

  lemma {:induction false} TouchedDistinct(order: seq<Block>, touches: seq<Block>)
    requires Distinct(order)
    ensures Distinct(Touched(order, touches))
    ensures forall b :: b in Touched(order, touches) <==> b in order || b in touches
  {
    if touches != [] {
      var n := |touches| - 1;
      TouchedDistinct(order, touches[..n]);
      WithoutMembers(Touched(order, touches[..n]), touches[n]);
      WithoutDistinct(Touched(order, touches[..n]), touches[n]);
      assert touches == touches[..n] + [touches[n]];
    }
  }

  /** A list that starts the full recency order still does after another touch. */
  lemma TouchedStep(order: seq<Block>, touches: seq<Block>, b: Block)
    requires order <= Recency(touches)
    ensures [b] + Without(order, b) <= Recency(touches + [b])
  {
    WithoutPrefix(order, Recency(touches), b);
    assert (touches + [b])[..|touches|] == touches;
  }

  /** Blocks just touched are within their number of the front. */
  lemma {:induction false} RecentAreFirst(order: seq<Block>, blocks: seq<Block>, b: Block)
    requires b in blocks
    ensures b in Kept(Touched(order, blocks), |blocks|)
  {
    var n := |blocks| - 1;
    var older := Touched(order, blocks[..n]);
    if b != blocks[n] {
      assert blocks == blocks[..n] + [blocks[n]];
      RecentAreFirst(order, blocks[..n], b);
      var front := Kept(older, n);
      WithoutPrefix(front, older, blocks[n]);
      WithoutMembers(front, blocks[n]);
      PrefixWithin([blocks[n]] + Without(front, blocks[n]), Touched(order, blocks), |blocks|, b);
    } else {
      assert Touched(order, blocks)[0] == b;
    }
  }

  lemma PrefixWithin(s: seq<Block>, t: seq<Block>, n: nat, b: Block)
    requires s <= t && |s| <= n && b in s
    ensures b in Kept(t, n)
  {
    var i :| 0 <= i < |s| && s[i] == b;
    assert t[..Least(n, |t|)][i] == b;
  }

  /** Distinct blocks touched one after another stand in front in reverse order. */
  lemma {:induction false} FreshReversed(order: seq<Block>, blocks: seq<Block>)
    requires Distinct(blocks)
    ensures |Touched(order, blocks)| >= |blocks|
    ensures forall k :: 0 <= k < |blocks| ==> Touched(order, blocks)[|blocks| - 1 - k] == blocks[k]
  {
    if blocks != [] {
      var n := |blocks| - 1;
      FreshReversed(order, blocks[..n]);
      var older := Touched(order, blocks[..n]);
      var front := older[..n];
      assert forall k :: 0 <= k < n ==> front[k] == blocks[n - 1 - k];
      WithoutMembers(front, blocks[n]);
      assert Without(front, blocks[n]) == front;
      WithoutPrefix(front, older, blocks[n]);
    }
  }

  // ---------- what a prompt is charged ----------

  /** How many leading blocks the mirror holds. */
  function Matched(held: seq<Block>, blocks: seq<Block>): (n: nat)
    ensures n <= |blocks|
  {
    if blocks == [] || blocks[0] !in held then 0 else 1 + Matched(held, blocks[1..])
  }

  /** The longest leading run of blocks that are held. */
  lemma {:induction false} MatchedExactly(held: seq<Block>, blocks: seq<Block>, n: nat)
    ensures Matched(held, blocks) == n <==>
              && n <= |blocks| && (forall k :: 0 <= k < n ==> blocks[k] in held)
              && (n < |blocks| ==> blocks[n] !in held)
  {
    if blocks != [] && blocks[0] in held && n > 0 {
      var rest := blocks[1..];
      MatchedExactly(held, rest, n - 1);
      if n <= |blocks| {
        assert (forall k :: 0 <= k < n ==> blocks[k] in held) <==> forall k :: 0 <= k < n - 1 ==> rest[k] in held by {
          assert forall k :: 0 < k < n ==> blocks[k] == rest[k - 1];
          assert forall k :: 0 <= k < n - 1 ==> rest[k] == blocks[k + 1];
        }
      }
    }
  }

  /** The bytes past the matched blocks. */
  function Uncached(bytes: nat, matched: nat): nat {
    if bytes < matched * BLOCK_BYTES then 0 else bytes - matched * BLOCK_BYTES
  }

  lemma {:induction false} MatchedSplit(held: seq<Block>, blocks: seq<Block>, n: nat)
    requires n <= |blocks| && forall k :: 0 <= k < n ==> blocks[k] in held
    ensures Matched(held, blocks) == n + Matched(held, blocks[n..])
  {
    if n > 0 {
      assert blocks[0] in held;
      forall k | 0 <= k < n - 1 ensures blocks[1..][k] in held {
        assert blocks[1..][k] == blocks[k + 1];
      }
      MatchedSplit(held, blocks[1..], n - 1);
      assert blocks[1..][n - 1..] == blocks[n..];
    } else {
      assert blocks[0..] == blocks;
    }
  }

  /** Recording a prompt no longer than the capacity keeps all its blocks. */
  lemma AllKept(order: seq<Block>, blocks: seq<Block>, capacity: nat, b: Block)
    requires |blocks| <= capacity && b in blocks
    ensures b in Kept(Touched(order, blocks), capacity)
  {
    RecentAreFirst(order, blocks, b);
    PrefixWithin(Kept(Touched(order, blocks), |blocks|), Touched(order, blocks), capacity, b);
  }

  /** Right after recording a prompt no longer than the capacity, any body of the same context sharing its
      first n full blocks is charged at most its bytes past them. */
  lemma WarmAfterRecording(order: seq<Block>, capacity: nat, context: seq<Octet>, recorded: seq<Octet>,
                           blocks: seq<Block>, body: seq<Octet>, ahead: seq<Block>, n: nat)
    requires Fingerprints(blocks, context, recorded) && Fingerprints(ahead, context, body)
    requires |blocks| <= capacity && n * BLOCK_BYTES <= |recorded| && n * BLOCK_BYTES <= |body|
    requires recorded[..n * BLOCK_BYTES] == body[..n * BLOCK_BYTES]
    ensures Uncached(|body|, Matched(Kept(Touched(order, blocks), capacity), ahead)) <= |body| - n * BLOCK_BYTES
  {
    var held := Kept(Touched(order, blocks), capacity);
    SharedPrefix(blocks, ahead, context, recorded, body, n);
    forall k | 0 <= k < n ensures ahead[k] in held {
      assert ahead[k] == ahead[..n][k] == blocks[..n][k] == blocks[k];
      AllKept(order, blocks, capacity, ahead[k]);
    }
    MatchedSplit(held, ahead, n);
  }

  /** One of the distinct blocks just touched is kept exactly when it is within the capacity from the end. */
  lemma KeptAt(order: seq<Block>, blocks: seq<Block>, capacity: nat, k: nat)
    requires Distinct(order) && Distinct(blocks) && k < |blocks|
    ensures blocks[k] in Kept(Touched(order, blocks), capacity) <==> |blocks| - k <= capacity
  {
    var all, at := Touched(order, blocks), |blocks| - 1 - k;
    FreshReversed(order, blocks);
    TouchedDistinct(order, blocks);
    OnlyAt(all, at, capacity);
  }

  lemma OnlyAt(all: seq<Block>, at: nat, capacity: nat)
    requires Distinct(all) && at < |all|
    ensures all[at] in Kept(all, capacity) <==> at < capacity
  {
    var kept := Kept(all, capacity);
    if at < capacity {
      assert kept[at] == all[at];
    } else {
      forall i | 0 <= i < |kept| ensures kept[i] != all[at] {
        assert kept[i] == all[i];
      }
    }
  }

  /** Of a prompt with distinct blocks exactly the last `capacity` are kept; so a prompt that does not fit
      is charged in full when it comes again. */
  lemma KeptFromTheEnd(order: seq<Block>, blocks: seq<Block>, capacity: nat, k: nat)
    requires Distinct(order) && Distinct(blocks) && k < |blocks|
    ensures blocks[k] in Kept(Touched(order, blocks), capacity) <==> |blocks| - k <= capacity
    ensures Matched(Kept(Touched(order, blocks), capacity), blocks) == if |blocks| <= capacity then |blocks| else 0
  {
    var kept := Kept(Touched(order, blocks), capacity);
    KeptAt(order, blocks, capacity, k);
    KeptAt(order, blocks, capacity, 0);
    if |blocks| <= capacity {
      forall j | 0 <= j < |blocks| ensures blocks[j] in kept {
        KeptAt(order, blocks, capacity, j);
      }
      MatchedSplit(kept, blocks, |blocks|);
    }
  }
}
