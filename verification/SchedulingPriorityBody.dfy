/** The streaming body as an object: it reads its source chunk by chunk and serves reads of any size. */
module SchedulingPriorityBodyObject {
  import opened Machine
  import opened JsonGrammar
  import opened SchedulingPriority

  const INPUT_SIZE: nat := 4096

  datatype Error = EndOfFile | ReadFailed(code: int)

  /** What one read of the source returns: any number of bytes up to the input's size, perhaps with an error. */
  datatype Chunk = Chunk(bytes: seq<Byte>, err: Option<Error>)

  /** The bytes the source will deliver before its first error; a source that has run out is at its end. */
  function Ahead(source: seq<Chunk>): seq<Byte> {
    if source == [] then []
    else if source[0].err.Some? then source[0].bytes
    else source[0].bytes + Ahead(source[1..])
  }

  function Ending(source: seq<Chunk>): Error {
    if source == [] then EndOfFile
    else if source[0].err.Some? then source[0].err.value
    else Ending(source[1..])
  }

  function First(source: seq<Chunk>): Chunk {
    if source == [] then Chunk([], Some(EndOfFile)) else source[0]
  }

  function Rest(source: seq<Chunk>): seq<Chunk> {
    if source == [] then [] else source[1..]
  }

  lemma AheadStep(before: seq<Byte>, source: seq<Chunk>)
    ensures var chunk := First(source);
            && before + Ahead(source) == before + chunk.bytes + (if chunk.err.Some? then [] else Ahead(Rest(source)))
            && Ending(source) == (if chunk.err.Some? then chunk.err.value else Ending(Rest(source)))
            && (chunk.err.None? ==> |Rest(source)| < |source|)
            && (chunk.bytes == [] ==> before + chunk.bytes == before)
  {
    var chunk := First(source);
    assert Ahead(source) == chunk.bytes + (if chunk.err.Some? then [] else Ahead(Rest(source)));
  }

  class SchedulingPriorityBody {
    const member: seq<Byte>
    var source: seq<Chunk>
    var pending: seq<Byte>
    var offset: nat
    var readErr: Option<Error>
    var started: bool
    var rootObject: bool
    var depth: int
    var inString: bool
    var escaped: bool
    var hasMember: bool
    var injected: bool
    ghost var consumed: seq<Byte>
    ghost var delivered: seq<Byte>

    ghost function State(): Rewriter
      reads this
    {
      Rewriter(started, rootObject, depth, inString, escaped, hasMember, injected)
    }

    /** Everything consumed has been rewritten, and what is not delivered yet is pending. */
    ghost predicate Valid()
      reads this
    {
      && offset <= |pending|
      && (forall i :: 0 <= i < |source| ==> |source[i].bytes| <= INPUT_SIZE)
      && State() == After(FRESH, consumed)
      && delivered + pending[offset..] == Streamed(consumed, member)
    }

    /** All bytes of the source, consumed and to come. */
    ghost function Input(): seq<Byte>
      reads this
    {
      consumed + if readErr.Some? then [] else Ahead(source)
    }

    ghost function Outcome(): Error
      reads this
    {
      if readErr.Some? then readErr.value else Ending(source)
    }

    constructor (source: seq<Chunk>, member: seq<Byte>)
      requires forall i :: 0 <= i < |source| ==> |source[i].bytes| <= INPUT_SIZE
      ensures Valid() && this.member == member && delivered == []
      ensures Input() == Ahead(source) && Outcome() == Ending(source)
    {
      this.member, this.source := member, source;
      pending, offset, readErr := [], 0, None;
      started, rootObject, depth, inString, escaped, hasMember, injected := false, false, 0, false, false, false, false;
      consumed, delivered := [], [];
    }

    method Transform(value: Byte)
      modifies `started, `rootObject, `depth, `inString, `escaped, `hasMember, `injected, `pending
      ensures State() == Next(old(State()), value)
      ensures pending == old(pending) + Before(old(State()), member, value)
    {
      if !started {
        if SpaceByte(value) {
          return;
        }
        started := true;
        rootObject := value == OPEN_OBJECT;
        depth := 1;
        return;
      }
      if !rootObject || injected {
        return;
      }
      if inString {
        if escaped {
          escaped := false;
        } else if value == BACKSLASH {
          escaped := true;
        } else if value == QUOTE {
          inString := false;
        }
        return;
      }
      if value == QUOTE {
        inString := true;
      } else if value == OPEN_OBJECT || value == OPEN_ARRAY {
        depth := depth + 1;
      } else if value == CLOSE_OBJECT || value == CLOSE_ARRAY {
        if value == CLOSE_OBJECT && depth == 1 {
          if hasMember {
            pending := pending + [COMMA];
          }
          pending := pending + member;
          injected := true;
        }
        depth := depth - 1;
      }
      if depth == 1 && !SpaceByte(value) {
        hasMember := true;
      }
    }

    /** Rewrites one byte of input onto the pending buffer. */
    method Append(value: Byte)
      requires State() == After(FRESH, consumed) && delivered + pending == Streamed(consumed, member)
      modifies `started, `rootObject, `depth, `inString, `escaped, `hasMember, `injected, `pending, `consumed
      ensures consumed == old(consumed) + [value] && |pending| > |old(pending)|
      ensures State() == After(FRESH, consumed) && delivered + pending == Streamed(consumed, member)
    {
      WrittenLast(FRESH, member, consumed, value);
      Regroup(delivered, pending, Before(State(), member, value), [value]);
      Transform(value);
      pending := pending + [value];
      consumed := consumed + [value];
    }

    /** Rewrites one chunk of input into the empty pending buffer. */
    method TransformAll(input: seq<Byte>)
      requires State() == After(FRESH, consumed) && delivered + pending == Streamed(consumed, member)
      modifies `started, `rootObject, `depth, `inString, `escaped, `hasMember, `injected, `pending, `consumed
      ensures consumed == old(consumed) + input && |pending| >= |old(pending)| + |input|
      ensures State() == After(FRESH, consumed) && delivered + pending == Streamed(consumed, member)
    {
      for i := 0 to |input|
        invariant consumed == old(consumed) + input[..i] && |pending| >= |old(pending)| + i
        invariant State() == After(FRESH, consumed) && delivered + pending == Streamed(consumed, member)
      {
        ghost var done := consumed;
        Append(input[i]);
        assert input[..i + 1] == input[..i] + [input[i]];
        assert consumed == done + [input[i]];
      }
      assert input[..|input|] == input;
    }

    /** Reads the source once everything pending has been delivered. */
    method Refill() returns (size: nat)
      requires Valid() && offset == |pending| && readErr.None?
      modifies this
      ensures Valid() && Input() == old(Input()) && Outcome() == old(Outcome()) && delivered == old(delivered)
      ensures offset == 0 && size <= |pending| && (size == 0 ==> delivered == Streamed(consumed, member))
      ensures size == 0 && readErr.None? ==> |source| < |old(source)|
    {
      assert delivered + pending[offset..] == delivered == delivered + [];
      AheadStep(consumed, source);
      var chunk := First(source);
      source := Rest(source);
      readErr := chunk.err;
      pending, offset := [], 0;
      TransformAll(chunk.bytes);
      assert pending[offset..] == pending;
      size := |chunk.bytes|;
    }

    /** Copies what is pending, as far as it fits. */
    method CopyPending(dst: array<Byte>) returns (n: nat)
      requires Valid()
      modifies `offset, `delivered, dst
      ensures Valid() && n <= dst.Length && n == if dst.Length < |old(pending[offset..])| then dst.Length else |old(pending[offset..])|
      ensures delivered == old(delivered) + dst[..n] && dst[n..] == old(dst[n..])
    {
      var ahead := |pending| - offset;
      n := if dst.Length < ahead then dst.Length else ahead;
      forall i | 0 <= i < n {
        dst[i] := pending[offset + i];
      }
      assert dst[..n] == pending[offset..offset + n];
      assert pending[offset..] == pending[offset..offset + n] + pending[offset + n..];
      delivered := delivered + dst[..n];
      offset := offset + n;
    }

    /** However the source is split and whatever sizes are asked for, the bytes delivered are a prefix of the
        rewritten input; when the source's error is returned, they are all of it. */
    method Read(dst: array<Byte>) returns (n: nat, err: Option<Error>)
      requires Valid()
      modifies this, dst
      ensures Valid() && Input() == old(Input()) && Outcome() == old(Outcome())
      ensures n <= dst.Length && delivered == old(delivered) + dst[..n] && dst[n..] == old(dst[n..])
      ensures err.Some? ==> n == 0 && err.value == Outcome() && delivered == Streamed(Input(), member)
      ensures err.None? && n == 0 && dst.Length > 0 ==> |source| < |old(source)|
    {
      if dst.Length == 0 {
        assert dst[..0] == [];
        return 0, None;
      }
      assert dst[..0] == [] && dst[0..] == dst[..];
      if offset == |pending| {
        assert delivered + pending[offset..] == delivered && consumed + [] == consumed;
        if readErr.Some? {
          return 0, readErr;
        }
        var size := Refill();
        if size == 0 {
          assert consumed + [] == consumed;
          return 0, readErr;
        }
      }
      n := CopyPending(dst);
      err := None;
    }
  }
}
