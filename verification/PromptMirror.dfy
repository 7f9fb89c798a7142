/** The prompt-cost estimator's mirror of the backend prefix cache: a block index over a recency list. */
module PromptMirrorObject {
  import opened PromptRecency

  /** An element of the recency list; its id is its identity. */
  datatype Element = Element(id: nat, block: Block)

  function Blocks(list: seq<Element>): (s: seq<Block>)
    ensures |s| == |list| && forall i :: 0 <= i < |list| ==> s[i] == list[i].block
  {
    seq(|list|, i requires 0 <= i < |list| => list[i].block)
  }

  lemma {:induction false} BlocksWithout(list: seq<Element>, e: Element)
    requires forall f :: f in list && f.block == e.block ==> f == e
    ensures Blocks(Without(list, e)) == Without(Blocks(list), e.block)
  {
    if list != [] {
      assert Blocks(list)[1..] == Blocks(list[1..]);
      assert list[0] in list;
      BlocksWithout(list[1..], e);
      if list[0] != e {
        assert Blocks([list[0]] + Without(list[1..], e)) == [list[0].block] + Blocks(Without(list[1..], e));
      }
    }
  }

  /** Every element is indexed under its block, and nothing else is. */
  predicate IndexOf(index: map<Block, Element>, list: seq<Element>) {
    && (forall e :: e in list ==> e.block in index && index[e.block] == e)
    && (forall b :: b in index ==> index[b] in list && index[b].block == b)
  }

  lemma WithoutOldest(index: map<Block, Element>, list: seq<Element>)
    requires list != [] && Distinct(Blocks(list)) && IndexOf(index, list)
    ensures var n := |list| - 1;
            && Blocks(list[..n]) == Blocks(list)[..n] && Distinct(Blocks(list[..n]))
            && IndexOf(index - {list[n].block}, list[..n])
  {
    var n := |list| - 1;
    var oldest, rest := list[n], list[..n];
    forall e | e in rest ensures e in list && e.block != oldest.block {
      var i :| 0 <= i < n && rest[i] == e;
      assert list[i] == e && Blocks(list)[i] != Blocks(list)[n];
    }
    forall b | b in index - {oldest.block} ensures index[b] in rest {
      var i :| 0 <= i <= n && list[i] == index[b];
      assert i != n && rest[i] == index[b];
    }
  }

  lemma ShorterPrefix<T>(s: seq<T>, whole: seq<T>, n: nat)
    requires s <= whole && n <= |s|
    ensures s[..n] <= whole
  {
  }

  /** How many blocks stand for a number of tokens at the learned ratio of body bytes to tokens. */
  function Capacity(tokens: int, bytesPerToken: real): nat {
    if tokens <= 0 then 0
    else
      var blocks := tokens as real * bytesPerToken / 1024.0;
      if blocks.Floor < 0 then 0 else blocks.Floor
  }

  lemma CapacityExactly(tokens: int, bytesPerToken: real)
    ensures tokens <= 0 ==> Capacity(tokens, bytesPerToken) == 0
    ensures tokens > 0 && bytesPerToken > 0.0 ==>
              var n := Capacity(tokens, bytesPerToken);
              (n * 1024) as real <= tokens as real * bytesPerToken < ((n + 1) * 1024) as real
  {
    if tokens > 0 && bytesPerToken > 0.0 {
      var blocks := tokens as real * bytesPerToken / 1024.0;
      assert tokens as real * bytesPerToken > 0.0;
      assert blocks.Floor as real <= blocks < blocks.Floor as real + 1.0;
    }
  }

  datatype Cost = Unknown | Known(uncachedBytes: nat, rawTokens: real, tokens: real)

  class PromptMirror {
    const capacityTokens: int
    var bytesPerToken: real
    var correction: real
    var index: map<Block, Element>
    var lru: seq<Element>
    var nextElement: nat
    var matchedBlocks: nat
    var consideredBlocks: nat
    var evictedBlocks: nat
    var insertedBlocks: nat
    ghost var touches: seq<Block>

    /** The index and the list hold the same distinct blocks, as many as were inserted and not evicted, and
        the list is the front of the full recency order. */
    ghost predicate Valid()
      reads this
    {
      && 0.5 <= bytesPerToken <= 64.0
      && Indexed()
      && insertedBlocks == evictedBlocks + |lru|
      && Blocks(lru) <= Recency(touches)
    }

    ghost predicate Indexed()
      reads this
    {
      Distinct(Blocks(lru)) && IndexOf(index, lru)
    }

    constructor (capacityTokens: int)
      ensures Valid() && this.capacityTokens == capacityTokens && lru == [] && touches == []
    {
      this.capacityTokens := capacityTokens;
      bytesPerToken, correction := 4.0, 1.0;
      index, lru, nextElement := map[], [], 0;
      matchedBlocks, consideredBlocks, evictedBlocks, insertedBlocks := 0, 0, 0, 0;
      touches := [];
    }

    /** As many blocks of 1024 bytes as the tokens of the capacity stand for, rounded down. */
    function CapacityBlocks(): (n: nat)
      reads `bytesPerToken
      ensures capacityTokens <= 0 ==> n == 0
      ensures capacityTokens > 0 && bytesPerToken > 0.0 ==>
                (n * 1024) as real <= capacityTokens as real * bytesPerToken < ((n + 1) * 1024) as real
    {
      CapacityExactly(capacityTokens, bytesPerToken);
      Capacity(capacityTokens, bytesPerToken)
    }

    /** One block of a recorded prompt: an old one moves to the front, a new one is pushed there. */
    method Touch(block: Block)
      requires Valid()
      modifies `index, `lru, `nextElement, `insertedBlocks, `touches
      ensures Valid() && touches == old(touches) + [block]
      ensures Blocks(lru) == [block] + Without(old(Blocks(lru)), block)
    {
      TouchedStep(Blocks(lru), touches, block);
      if block in index {
        MoveToFront(index[block]);
      } else {
        NotHeld(block);
        PushFront(block);
      }
      touches := touches + [block];
    }

    method MoveToFront(element: Element)
      requires Indexed() && element in lru
      modifies `lru
      ensures Indexed() && |lru| == |old(lru)|
      ensures Blocks(lru) == [element.block] + Without(old(Blocks(lru)), element.block)
    {
      ghost var before := Blocks(lru);
      BlocksWithout(lru, element);
      WithoutMembers(lru, element);
      WithoutMembers(before, element.block);
      WithoutDistinct(before, element.block);
      assert element.block in before;
      lru := [element] + Without(lru, element);
      assert Blocks(lru) == [element.block] + Without(before, element.block);
    }

    method PushFront(block: Block)
      requires Indexed() && block !in index && block !in Blocks(lru)
      modifies `index, `lru, `nextElement, `insertedBlocks
      ensures Indexed() && |lru| == |old(lru)| + 1 && insertedBlocks == old(insertedBlocks) + 1
      ensures Blocks(lru) == [block] + old(Blocks(lru))
    {
      var element := Element(nextElement, block);
      nextElement := nextElement + 1;
      lru := [element] + lru;
      index := index[block := element];
      insertedBlocks := insertedBlocks + 1;
      assert Blocks(lru) == [block] + old(Blocks(lru));
      forall e | e in lru ensures e.block in index && index[e.block] == e {
        if e != element {
          assert e in old(lru) && old(index)[e.block] == e && e.block in old(index);
        }
      }
    }

    /** Drops the oldest element. */
    method Evict()
      requires Valid() && lru != []
      modifies `index, `lru, `evictedBlocks
      ensures Valid() && Blocks(lru) == old(Blocks(lru))[..|old(lru)| - 1]
      ensures evictedBlocks == old(evictedBlocks) + 1
    {
      ShorterPrefix(Blocks(lru), Recency(touches), |lru| - 1);
      DropOldest();
      evictedBlocks := evictedBlocks + 1;
    }

    method DropOldest()
      requires Indexed() && lru != []
      modifies `index, `lru
      ensures Indexed() && |lru| == |old(lru)| - 1
      ensures Blocks(lru) == old(Blocks(lru))[..|lru|]
    {
      WithoutOldest(index, lru);
      index, lru := index - {lru[|lru| - 1].block}, lru[..|lru| - 1];
    }

    /** Records a prompt; nothing is recorded without blocks or capacity. */
    method Admitted(blocks: seq<Block>)
      requires Valid()
      modifies `index, `lru, `nextElement, `insertedBlocks, `evictedBlocks, `touches
      ensures Valid()
      ensures blocks == [] || old(CapacityBlocks()) == 0 ==> lru == old(lru) && index == old(index)
      ensures blocks != [] && old(CapacityBlocks()) > 0 ==>
                && touches == old(touches) + blocks
                && Blocks(lru) == Kept(Touched(old(Blocks(lru)), blocks), old(CapacityBlocks()))
    {
      if |blocks| == 0 {
        return;
      }
      var capacity := CapacityBlocks();
      if capacity <= 0 {
        return;
      }
      TouchAll(blocks);
      EvictDown(capacity);
    }

    method TouchAll(blocks: seq<Block>)
      requires Valid()
      modifies `index, `lru, `nextElement, `insertedBlocks, `touches
      ensures Valid() && touches == old(touches) + blocks
      ensures Blocks(lru) == Touched(old(Blocks(lru)), blocks)
    {
      assert old(touches) + blocks[..0] == old(touches);
      for i := 0 to |blocks|
        invariant Valid() && touches == old(touches) + blocks[..i]
        invariant Blocks(lru) == Touched(old(Blocks(lru)), blocks[..i])
      {
        ghost var done, next := blocks[..i], blocks[..i + 1];
        assert next == done + [blocks[i]] && next[..i] == done;
        Touch(blocks[i]);
      }
      assert blocks[..|blocks|] == blocks;
    }

    method EvictDown(capacity: nat)
      requires Valid()
      modifies `index, `lru, `evictedBlocks
      ensures Valid() && Blocks(lru) == Kept(old(Blocks(lru)), capacity)
    {
      while |lru| > capacity
        invariant Valid() && |old(Blocks(lru))| == |old(lru)|
        invariant |lru| <= |old(lru)| && |lru| >= Least(capacity, |old(lru)|)
        invariant Blocks(lru) == old(Blocks(lru))[..|lru|]
        decreases |lru|
      {
        Evict();
      }
    }

    /** Prices a body by the blocks it shares with the mirror; the mirror itself does not change. */
    method Estimate(blocks: seq<Block>, bytes: int) returns (cost: Cost)
      requires Valid() && 0.1 <= correction <= 10.0
      modifies `matchedBlocks, `consideredBlocks
      ensures Valid() && (cost.Unknown? <==> blocks == [] || bytes <= 0)
      ensures cost.Known? ==>
                && cost.uncachedBytes == Uncached(bytes, Matched(Blocks(lru), blocks))
                && cost.uncachedBytes == (if bytes > 1024 * Matched(Blocks(lru), blocks)
                                          then bytes - 1024 * Matched(Blocks(lru), blocks) else 0)
                && cost.rawTokens * bytesPerToken == cost.uncachedBytes as real
                && cost.tokens == cost.rawTokens * correction
                && matchedBlocks == old(matchedBlocks) + Matched(Blocks(lru), blocks)
                && consideredBlocks == old(consideredBlocks) + |blocks|
    {
      if |blocks| == 0 || bytes <= 0 {
        return Unknown;
      }
      var matched := CountMatched(blocks);
      matchedBlocks := matchedBlocks + matched;
      consideredBlocks := consideredBlocks + |blocks|;
      var uncachedBytes := bytes - matched * BLOCK_BYTES;
      if uncachedBytes < 0 {
        uncachedBytes := 0;
      }
      var raw := uncachedBytes as real / bytesPerToken;
      return Known(uncachedBytes, raw, raw * correction);
    }

    method CountMatched(blocks: seq<Block>) returns (matched: nat)
      requires Indexed()
      ensures matched == Matched(Blocks(lru), blocks)
    {
      matched := 0;
      HeldIsIndexed();
      while matched < |blocks| && blocks[matched] in index
        invariant matched <= |blocks| && forall k :: 0 <= k < matched ==> blocks[k] in Blocks(lru)
      {
        assert blocks[matched] in Blocks(lru);
        matched := matched + 1;
      }
      MatchedSplit(Blocks(lru), blocks, matched);
    }

    lemma NotHeld(block: Block)
      requires Indexed() && block !in index
      ensures block !in Blocks(lru) && Without(Blocks(lru), block) == Blocks(lru)
    {
      HeldIsIndexed();
      WithoutMembers(Blocks(lru), block);
    }

    lemma HeldIsIndexed()
      requires Indexed()
      ensures forall b :: b in Blocks(lru) <==> b in index
    {
      forall b | b in index ensures b in Blocks(lru) {
        var i :| 0 <= i < |lru| && lru[i] == index[b];
        assert Blocks(lru)[i] == b;
      }
      forall b | b in Blocks(lru) ensures b in index {
        var i :| 0 <= i < |lru| && Blocks(lru)[i] == b;
        assert lru[i] in lru;
      }
    }
  }
}
