/** Splitting a byte stream into lines of bounded length, however the bytes arrive. */
module LineCodec {
  type Byte = b: int | 0 <= b < 256

  const NEWLINE: Byte := 10
  const CARRIAGE_RETURN: Byte := 13

  /** The largest `usize`; no buffer is longer. */
  const USIZE_MAX: nat := 0xFFFF_FFFF_FFFF_FFFF

  function SaturatingAdd(a: nat, b: nat): nat {
    if a + b <= USIZE_MAX then a + b else USIZE_MAX
  }

  datatype Outcome = Line(bytes: seq<Byte>) | TooLong

  // ---------------------------------------------------------------------------
  // What the stream says
  // ---------------------------------------------------------------------------

  /** Position of the first newline, or the length. */
  function Newline(s: seq<Byte>): (k: nat)
    ensures k <= |s| && (k < |s| ==> s[k] == NEWLINE)
  {
    if s == [] || s[0] == NEWLINE then 0 else 1 + Newline(s[1..])
  }

  function WithoutCarriageReturn(s: seq<Byte>): seq<Byte> {
    if s != [] && s[|s| - 1] == CARRIAGE_RETURN then s[..|s| - 1] else s
  }

  function Judge(max: nat, line: seq<Byte>): Outcome {
    if |line| <= max then Line(WithoutCarriageReturn(line)) else TooLong
  }

  /** The outcomes a stream prefix determines, whether it ends inside a refused line, and its undecided tail. */
  datatype Parsed = Parsed(outcomes: seq<Outcome>, discarding: bool, tail: seq<Byte>)

  function Prepend(outcomes: seq<Outcome>, p: Parsed): Parsed {
    p.(outcomes := outcomes + p.outcomes)
  }

  function Parse(max: nat, discarding: bool, s: seq<Byte>): Parsed
    decreases |s|
  {
    var k := Newline(s);
    if k < |s| then
      Prepend(if discarding then [] else [Judge(max, s[..k])], Parse(max, false, s[k + 1..]))
    else if discarding then Parsed([], true, [])
    else if |s| > max then Parsed([TooLong], true, [])
    else Parsed([], false, s)
  }

  /** No newline among the first `k` bytes. */
  ghost predicate Clear(s: seq<Byte>, k: nat) {
    forall i :: 0 <= i < k && i < |s| ==> s[i] != NEWLINE
  }

  lemma NothingSeen()
    ensures forall s :: Clear(s, 0)
  {
  }

  lemma {:induction false} NewlineIsFirst(s: seq<Byte>)
    ensures Clear(s, Newline(s))
  {
    if s != [] && s[0] != NEWLINE { NewlineIsFirst(s[1..]); }
  }

  lemma {:induction false} NewlineIs(s: seq<Byte>, k: nat)
    requires k <= |s| && (k < |s| ==> s[k] == NEWLINE) && Clear(s, k)
    ensures Newline(s) == k
  {
    if k > 0 {
      assert s[0] != NEWLINE;
      NewlineIs(s[1..], k - 1);
    }
  }

  lemma NewlineOfConcat(a: seq<Byte>, more: seq<Byte>)
    ensures Newline(a + more) == if Newline(a) < |a| then Newline(a) else |a| + Newline(more)
  {
    NewlineIsFirst(a);
    NewlineIsFirst(more);
    NewlineIs(a + more, if Newline(a) < |a| then Newline(a) else |a| + Newline(more));
  }

  /** Reading `s` yields `outcomes` and leaves the reader as if it had to read `s'`, whatever follows. */
  ghost predicate Advances(
    max: nat, discarding: bool, s: seq<Byte>, outcomes: seq<Outcome>, discarding': bool, s': seq<Byte>)
  {
    forall more :: Parse(max, discarding, s + more) == Prepend(outcomes, Parse(max, discarding', s' + more))
  }

  lemma ParseAt(max: nat, d: bool, s: seq<Byte>, k: nat)
    requires k == Newline(s) < |s|
    ensures Parse(max, d, s) == Prepend(if d then [] else [Judge(max, s[..k])], Parse(max, false, s[k + 1..]))
  {
  }

  lemma ParseEnd(max: nat, d: bool, s: seq<Byte>)
    requires Newline(s) == |s|
    ensures Parse(max, d, s) ==
      if d then Parsed([], true, []) else if |s| > max then Parsed([TooLong], true, []) else Parsed([], false, s)
  {
  }

  lemma ParseLine(max: nat, d: bool, s: seq<Byte>, k: nat, more: seq<Byte>)
    requires k == Newline(s) < |s|
    ensures Parse(max, d, s + more) ==
      Prepend(if d then [] else [Judge(max, s[..k])], Parse(max, false, s[k + 1..] + more))
  {
    hide Parse, Newline;
    NewlineOfConcat(s, more);
    ParseAt(max, d, s + more, k);
    assert (s + more)[k + 1..] == s[k + 1..] + more && (s + more)[..k] == s[..k];
  }

  lemma AdvancesOverLine(max: nat, discarding: bool, s: seq<Byte>, k: nat)
    requires k == Newline(s) < |s|
    ensures Advances(max, discarding, s, if discarding then [] else [Judge(max, s[..k])], false, s[k + 1..])
  {
    hide Parse, Newline;
    forall more
      ensures Parse(max, discarding, s + more)
           == Prepend(if discarding then [] else [Judge(max, s[..k])], Parse(max, false, s[k + 1..] + more))
    {
      ParseLine(max, discarding, s, k, more);
    }
  }

  lemma ParseRefused(max: nat, a: seq<Byte>, b: seq<Byte>)
    requires Newline(a) == |a|
    ensures Parse(max, true, a + b) == Parse(max, true, b)
  {
    hide Parse, Newline;
    NewlineOfConcat(a, b);
    var k := Newline(b);
    if k < |b| {
      ParseAt(max, true, b, k);
      ParseAt(max, true, a + b, |a| + k);
      assert (a + b)[|a| + k + 1..] == b[k + 1..];
    } else {
      ParseEnd(max, true, b);
      ParseEnd(max, true, a + b);
    }
  }

  lemma AdvancesOverRefused(max: nat, a: seq<Byte>, b: seq<Byte>)
    requires Newline(a) == |a|
    ensures Advances(max, true, a + b, [], true, b)
  {
    hide Parse, Newline;
    forall more ensures Parse(max, true, (a + b) + more) == Prepend([], Parse(max, true, b + more)) {
      assert (a + b) + more == a + (b + more);
      ParseRefused(max, a, b + more);
      NothingPrepended(Parse(max, true, b + more));
    }
  }

  lemma NothingPrepended(p: Parsed)
    ensures Prepend([], p) == p
  {
    assert [] + p.outcomes == p.outcomes;
  }

  lemma ParseTooLong(max: nat, s: seq<Byte>)
    requires |s| > max && Clear(s, max + 1)
    ensures Parse(max, false, s) == Prepend([TooLong], Parse(max, true, s))
  {
    assert Newline(s) > max;
  }

  lemma AdvancesIntoRefused(max: nat, s: seq<Byte>)
    requires |s| > max && Clear(s, max + 1)
    ensures Advances(max, false, s, [TooLong], true, s)
  {
    hide Parse, Newline;
    forall more ensures Parse(max, false, s + more) == Prepend([TooLong], Parse(max, true, s + more)) {
      ParseTooLong(max, s + more);
    }
  }

  lemma AdvancesTransitive(
    max: nat, d: bool, s: seq<Byte>, o: seq<Outcome>, d': bool, s': seq<Byte>,
    o': seq<Outcome>, d'': bool, s'': seq<Byte>)
    requires Advances(max, d, s, o, d', s') && Advances(max, d', s', o', d'', s'')
    ensures Advances(max, d, s, o + o', d'', s'')
  {
    hide Parse;
    forall more ensures Parse(max, d, s + more) == Prepend(o + o', Parse(max, d'', s'' + more)) {
      PrependTwice(o, o', Parse(max, d'', s'' + more));
    }
  }

  lemma AdvancesOnward(
    max: nat, d: bool, s: seq<Byte>, d': bool, s': seq<Byte>, o: seq<Outcome>, d'': bool, s'': seq<Byte>)
    requires Advances(max, d, s, [], d', s') && Advances(max, d', s', o, d'', s'')
    ensures Advances(max, d, s, o, d'', s'')
  {
    hide Advances;
    AdvancesTransitive(max, d, s, [], d', s', o, d'', s'');
    assert [] + o == o;
  }

  lemma AdvancesReflexive(max: nat, d: bool, s: seq<Byte>)
    ensures Advances(max, d, s, [], d, s)
  {
  }

  lemma AdvancesExtends(max: nat, d: bool, s: seq<Byte>, o: seq<Outcome>, d': bool, s': seq<Byte>, chunk: seq<Byte>)
    requires Advances(max, d, s, o, d', s')
    ensures Advances(max, d, s + chunk, o, d', s' + chunk)
  {
    hide Parse;
    forall more ensures Parse(max, d, (s + chunk) + more) == Prepend(o, Parse(max, d', (s' + chunk) + more)) {
      assert (s + chunk) + more == s + (chunk + more) && (s' + chunk) + more == s' + (chunk + more);
    }
  }

  /** Nothing more can be said until more bytes arrive. */
  predicate AtRest(max: nat, discarding: bool, s: seq<Byte>) {
    if discarding then s == [] else Newline(s) == |s| <= max
  }

  lemma RestIsParsed(max: nat, d: bool, s: seq<Byte>, o: seq<Outcome>, d': bool, s': seq<Byte>)
    requires Advances(max, d, s, o, d', s') && AtRest(max, d', s')
    ensures Parse(max, d, s) == Parsed(o, d', s')
  {
    assert s + [] == s && s' + [] == s';
    assert o + [] == o;
  }

  /** Reading in two parts is reading at once. */
  lemma {:induction false} ParseIsIncremental(max: nat, d: bool, a: seq<Byte>, b: seq<Byte>)
    ensures var p := Parse(max, d, a); Parse(max, d, a + b) == Prepend(p.outcomes, Parse(max, p.discarding, p.tail + b))
    decreases |a|
  {
    hide Parse, Newline, Judge;
    var k := Newline(a);
    if k < |a| {
      ParseLine(max, d, a, k, b);
      ParseAt(max, d, a, k);
      ParseIsIncremental(max, false, a[k + 1..], b);
      var p := Parse(max, false, a[k + 1..]);
      PrependTwice(if d then [] else [Judge(max, a[..k])], p.outcomes, Parse(max, p.discarding, p.tail + b));
    } else {
      NewlineIsFirst(a);
      ParseEnd(max, d, a);
      if d || |a| > max { ParseRefused(max, a, b); }
      if !d && |a| > max { ParseTooLong(max, a + b); }
      assert [] + b == b;
      NothingPrepended(Parse(max, d, a + b));
    }
  }

  lemma PrependTwice(o: seq<Outcome>, o': seq<Outcome>, p: Parsed)
    ensures Prepend(o, Prepend(o', p)) == Prepend(o + o', p)
  {
    assert o + (o' + p.outcomes) == (o + o') + p.outcomes;
  }

  // ---------------------------------------------------------------------------
  // The decoder
  // ---------------------------------------------------------------------------

  /** A byte buffer consumed from the front. */
  class Buffer {
    var bytes: seq<Byte>

    constructor ()
      ensures bytes == []
    {
      bytes := [];
    }

    method Advance(n: nat)
      requires n <= |bytes|
      modifies this
      ensures bytes == old(bytes)[n..]
    {
      bytes := bytes[n..];
    }

    method SplitTo(n: nat) returns (front: seq<Byte>)
      requires n <= |bytes|
      modifies this
      ensures front == old(bytes)[..n] && bytes == old(bytes)[n..]
    {
      front, bytes := bytes[..n], bytes[n..];
    }
  }

  datatype Decoded = Frame(bytes: seq<Byte>) | Nothing | Refused | CursorOutOfBounds

  function OutcomesOf(r: Decoded): seq<Outcome> {
    match r
    case Frame(bytes) => [Line(bytes)]
    case Refused => [TooLong]
    case _ => []
  }

  class LinesBytesCodec {
    const maxLength: nat
    var nextIndex: nat
    var isDiscarding: bool

    ghost predicate Valid(bytes: seq<Byte>)
      reads this
    {
      && maxLength <= USIZE_MAX && |bytes| <= USIZE_MAX
      && nextIndex <= |bytes| && nextIndex <= maxLength + 1
      && Clear(bytes, nextIndex)
    }

    constructor (maxLength: nat)
      requires maxLength <= USIZE_MAX
      ensures this.maxLength == maxLength && nextIndex == 0 && !isDiscarding
    {
      this.maxLength := maxLength;
      nextIndex, isDiscarding := 0, false;
    }

    /**
     * One call: the line or refusal it reports is the next one of the stream, and when it reports
     * nothing there is nothing to report. The cursor is never out of bounds.
     */
    method Decode(buf: Buffer) returns (r: Decoded)
      requires Valid(buf.bytes)
      modifies this, buf
      ensures Valid(buf.bytes) && |buf.bytes| <= |old(buf.bytes)|
      ensures !r.CursorOutOfBounds?
      ensures Advances(maxLength, old(isDiscarding), old(buf.bytes), OutcomesOf(r), isDiscarding, buf.bytes)
      ensures r.Nothing? ==> AtRest(maxLength, isDiscarding, buf.bytes)
      ensures r.Frame? ==> |buf.bytes| < |old(buf.bytes)|
      ensures r.Refused? ==> (isDiscarding && !old(isDiscarding)) || |buf.bytes| < |old(buf.bytes)|
    {
      hide Advances, AtRest, Newline, WithoutCarriageReturn, Clear;
      NothingSeen();
      AdvancesReflexive(maxLength, isDiscarding, buf.bytes);
      while true
        invariant Valid(buf.bytes) && |buf.bytes| <= |old(buf.bytes)|
        invariant Advances(maxLength, old(isDiscarding), old(buf.bytes), [], isDiscarding, buf.bytes)
        invariant isDiscarding ==> old(isDiscarding)
        invariant old(isDiscarding) && !isDiscarding ==> |buf.bytes| < |old(buf.bytes)|
        decreases |buf.bytes|
      {
        var limit := SaturatingAdd(maxLength, 1);
        var readTo := if limit < |buf.bytes| then limit else |buf.bytes|;
        if !(nextIndex <= readTo <= |buf.bytes|) {
          return CursorOutOfBounds;
        }
        ghost var was := buf.bytes;
        var offset := Newline(buf.bytes[nextIndex..readTo]);
        WindowNewline(was, nextIndex, readTo);
        if isDiscarding && nextIndex + offset < readTo {
          SkipRefusedLine(was, nextIndex + offset, old(isDiscarding), old(buf.bytes));
          buf.Advance(offset + nextIndex + 1);
          isDiscarding, nextIndex := false, 0;
        } else if isDiscarding {
          SkipRefusedBytes(was, readTo, old(isDiscarding), old(buf.bytes));
          buf.Advance(readTo);
          nextIndex := 0;
          if buf.bytes == [] {
            EmptyAtRest(maxLength);
            return Nothing;
          }
        } else if nextIndex + offset < readTo {
          var newlineIndex := offset + nextIndex;
          TakeLine(was, newlineIndex, old(isDiscarding), old(buf.bytes));
          nextIndex := 0;
          var line := buf.SplitTo(newlineIndex + 1);
          assert line[..newlineIndex] == was[..newlineIndex];
          line := Truncated(line);
          return Frame(line);
        } else if |buf.bytes| > maxLength {
          RefuseLine(was, old(isDiscarding), old(buf.bytes));
          isDiscarding := true;
          return Refused;
        } else {
          WholeAtRest(maxLength, was);
          nextIndex := readTo;
          return Nothing;
        }
      }
    }

    lemma SkipRefusedLine(s: seq<Byte>, k: nat, d0: bool, s0: seq<Byte>)
      requires k == Newline(s) < |s| && Advances(maxLength, d0, s0, [], true, s)
      ensures Advances(maxLength, d0, s0, [], false, s[k + 1..])
    {
      hide Advances;
      AdvancesOverLine(maxLength, true, s, k);
      AdvancesOnward(maxLength, d0, s0, true, s, [], false, s[k + 1..]);
    }

    lemma SkipRefusedBytes(s: seq<Byte>, n: nat, d0: bool, s0: seq<Byte>)
      requires n <= |s| && Clear(s, n) && Advances(maxLength, d0, s0, [], true, s)
      ensures Advances(maxLength, d0, s0, [], true, s[n..])
    {
      hide Advances;
      NewlineIs(s[..n], n);
      AdvancesOverRefused(maxLength, s[..n], s[n..]);
      assert s[..n] + s[n..] == s;
      AdvancesOnward(maxLength, d0, s0, true, s, [], true, s[n..]);
    }

    lemma TakeLine(s: seq<Byte>, k: nat, d0: bool, s0: seq<Byte>)
      requires k == Newline(s) < |s| && k <= maxLength && Advances(maxLength, d0, s0, [], false, s)
      ensures Advances(maxLength, d0, s0, [Line(WithoutCarriageReturn(s[..k]))], false, s[k + 1..])
    {
      hide Advances;
      AdvancesOverLine(maxLength, false, s, k);
      var o := [Line(WithoutCarriageReturn(s[..k]))];
      AdvancesOnward(maxLength, d0, s0, false, s, o, false, s[k + 1..]);
    }

    lemma RefuseLine(s: seq<Byte>, d0: bool, s0: seq<Byte>)
      requires |s| > maxLength && Clear(s, maxLength + 1)
      requires Advances(maxLength, d0, s0, [], false, s)
      ensures Advances(maxLength, d0, s0, [TooLong], true, s)
    {
      hide Advances;
      AdvancesIntoRefused(maxLength, s);
      AdvancesOnward(maxLength, d0, s0, false, s, [TooLong], true, s);
    }

    /** Called when no more bytes will come. */
    method DecodeEof(buf: Buffer) returns (r: Decoded)
      requires Valid(buf.bytes)
      modifies this, buf
      ensures Valid(buf.bytes) && |buf.bytes| <= |old(buf.bytes)| && !r.CursorOutOfBounds?
      ensures
        var p := Parse(maxLength, old(isDiscarding), old(buf.bytes));
        if p.outcomes != [] then
          OutcomesOf(r) == p.outcomes[..1] && Prepend(OutcomesOf(r), Parse(maxLength, isDiscarding, buf.bytes)) == p
        else
          OutcomesOf(r) == LastLine(p.tail) && (r.Frame? ==> buf.bytes == [])
      ensures r.Frame? ==> |buf.bytes| < |old(buf.bytes)|
      ensures r.Refused? ==> (isDiscarding && !old(isDiscarding)) || |buf.bytes| < |old(buf.bytes)|
    {
      hide Parse, Advances, AtRest, WithoutCarriageReturn;
      NothingSeen();
      r := Decode(buf);
      DecodedIsNext(maxLength, old(isDiscarding), old(buf.bytes), OutcomesOf(r), isDiscarding, buf.bytes);
      if r.Nothing? {
        RestIsParsed(maxLength, old(isDiscarding), old(buf.bytes), [], isDiscarding, buf.bytes);
        if buf.bytes != [] && buf.bytes != [CARRIAGE_RETURN] {
          var line := buf.SplitTo(|buf.bytes|);
          assert line == Parse(maxLength, old(isDiscarding), old(buf.bytes)).tail;
          line := Truncated(line);
          nextIndex := 0;
          r := Frame(line);
        }
      }
    }
  }

  /** Drops the last byte of a line, then a carriage return before it. */
  method Truncated(line: seq<Byte>) returns (r: seq<Byte>)
    requires line != []
    ensures r == WithoutCarriageReturn(line[..|line| - 1])
  {
    r := line[..|line| - 1];
    if r != [] && r[|r| - 1] == CARRIAGE_RETURN {
      r := r[..|r| - 1];
    }
  }

  lemma WindowNewline(s: seq<Byte>, from: nat, to: nat)
    requires from <= to <= |s| && Clear(s, from)
    ensures var k := from + Newline(s[from..to]); (k < to ==> Newline(s) == k) && (k >= to ==> Clear(s, to))
  {
    var w := s[from..to];
    NewlineIsFirst(w);
    var k := from + Newline(w);
    forall i | 0 <= i < k ensures s[i] != NEWLINE {
      if i >= from { assert s[i] == w[i - from]; }
    }
    if k < to { NewlineIs(s, k); }
  }

  lemma EmptyAtRest(max: nat)
    ensures AtRest(max, true, [])
  {
  }

  lemma WholeAtRest(max: nat, s: seq<Byte>)
    requires |s| <= max && Clear(s, |s|)
    ensures AtRest(max, false, s)
  {
    NewlineIs(s, |s|);
  }

  lemma DecodedIsNext(max: nat, d: bool, s: seq<Byte>, o: seq<Outcome>, d': bool, s': seq<Byte>)
    requires Advances(max, d, s, o, d', s') && |o| <= 1
    ensures Parse(max, d, s) == Prepend(o, Parse(max, d', s'))
    ensures |o| == 1 ==> Parse(max, d, s).outcomes[..1] == o
  {
    assert s + [] == s && s' + [] == s';
  }

  // ---------------------------------------------------------------------------
  // The end of the stream
  // ---------------------------------------------------------------------------

  /**
   * What the decoder makes of an unterminated last line: its last byte is dropped with the newline
   * it does not have.
   */
  function LastLine(tail: seq<Byte>): seq<Outcome> {
    if tail == [] || tail == [CARRIAGE_RETURN] then []
    else [Line(WithoutCarriageReturn(tail[..|tail| - 1]))]
  }

  /** So an unterminated line comes out right exactly when it ends in one carriage return. */
  lemma LastLineExact(tail: seq<Byte>)
    requires tail != [] && tail != [CARRIAGE_RETURN]
    ensures LastLine(tail) == [Line(WithoutCarriageReturn(tail))] <==>
      tail[|tail| - 1] == CARRIAGE_RETURN && tail[|tail| - 2] != CARRIAGE_RETURN
  {
    var n := |tail|;
    if LastLine(tail) == [Line(WithoutCarriageReturn(tail))] {
      assert |WithoutCarriageReturn(tail[..n - 1])| == |WithoutCarriageReturn(tail)|;
    }
  }

  /** A stream that ends in "ab" without a newline yields the line "a". */
  lemma LastByteIsLost()
    ensures LastLine([97, 98]) == [Line([97])] && WithoutCarriageReturn([97, 98]) == [97, 98]
  {
    assert [97, 98][..1] == [97];
  }

  // ---------------------------------------------------------------------------
  // Whole streams
  // ---------------------------------------------------------------------------

  function Concat(chunks: seq<seq<Byte>>): seq<Byte> {
    if chunks == [] then [] else Concat(chunks[..|chunks| - 1]) + chunks[|chunks| - 1]
  }

  lemma ConcatNext(chunks: seq<seq<Byte>>, i: nat)
    requires i < |chunks|
    ensures Concat(chunks[..i + 1]) == Concat(chunks[..i]) + chunks[i]
  {
    assert chunks[..i + 1][..i] == chunks[..i];
  }

  /** The undecided tail and the next chunk always fit in memory together. */
  ghost predicate Fits(max: nat, chunks: seq<seq<Byte>>) {
    forall i :: 0 <= i < |chunks| ==> |Parse(max, false, Concat(chunks[..i])).tail| + |chunks[i]| <= USIZE_MAX
  }

  /** Decodes until nothing more comes out of what has arrived. */
  method Drain(codec: LinesBytesCodec, buf: Buffer) returns (outcomes: seq<Outcome>)
    requires codec.Valid(buf.bytes)
    modifies codec, buf
    ensures codec.Valid(buf.bytes)
    ensures Advances(codec.maxLength, old(codec.isDiscarding), old(buf.bytes), outcomes, codec.isDiscarding, buf.bytes)
    ensures AtRest(codec.maxLength, codec.isDiscarding, buf.bytes)
  {
    hide Advances, AtRest;
    outcomes := [];
    AdvancesReflexive(codec.maxLength, codec.isDiscarding, buf.bytes);
    while true
      invariant codec.Valid(buf.bytes)
      invariant Advances(
        codec.maxLength, old(codec.isDiscarding), old(buf.bytes), outcomes, codec.isDiscarding, buf.bytes)
      decreases |buf.bytes|, !codec.isDiscarding
    {
      ghost var d, s := codec.isDiscarding, buf.bytes;
      var r := codec.Decode(buf);
      AdvancesTransitive(codec.maxLength, old(codec.isDiscarding), old(buf.bytes), outcomes, d, s,
                         OutcomesOf(r), codec.isDiscarding, buf.bytes);
      outcomes := outcomes + OutcomesOf(r);
      if r.Nothing? { return; }
    }
  }

  /**
   * The framed reader: every chunk is appended and decoded as far as possible, and at the end the
   * tail is flushed. The outcomes depend on the bytes alone, not on how they were cut into chunks.
   */
  method DecodeStream(max: nat, chunks: seq<seq<Byte>>) returns (outcomes: seq<Outcome>)
    requires max <= USIZE_MAX && Fits(max, chunks)
    ensures var p := Parse(max, false, Concat(chunks)); outcomes == p.outcomes + LastLine(p.tail)
  {
    hide Advances, AtRest, Concat;
    var codec := new LinesBytesCodec(max);
    var buf := new Buffer();
    outcomes := [];
    NoChunks();
    AdvancesReflexive(max, false, []);
    WholeAtRest(max, []);
    for i := 0 to |chunks|
      invariant codec.maxLength == max && codec.Valid(buf.bytes)
      invariant Advances(max, false, Concat(chunks[..i]), outcomes, codec.isDiscarding, buf.bytes)
      invariant AtRest(max, codec.isDiscarding, buf.bytes)
    {
      RestIsParsed(max, false, Concat(chunks[..i]), outcomes, codec.isDiscarding, buf.bytes);
      AdvancesExtends(max, false, Concat(chunks[..i]), outcomes, codec.isDiscarding, buf.bytes, chunks[i]);
      ConcatNext(chunks, i);
      buf.bytes := buf.bytes + chunks[i];
      ghost var d, s, o := codec.isDiscarding, buf.bytes, outcomes;
      var more := Drain(codec, buf);
      AdvancesTransitive(max, false, Concat(chunks[..i + 1]), o, d, s, more, codec.isDiscarding, buf.bytes);
      outcomes := outcomes + more;
    }
    assert chunks[..|chunks|] == chunks;
    RestIsParsed(max, false, Concat(chunks), outcomes, codec.isDiscarding, buf.bytes);
    AtRestParses(max, codec.isDiscarding, buf.bytes);
    var r := codec.DecodeEof(buf);
    outcomes := outcomes + OutcomesOf(r);
  }

  lemma NoChunks()
    ensures Concat([]) == []
  {
  }

  lemma AtRestParses(max: nat, d: bool, s: seq<Byte>)
    requires AtRest(max, d, s)
    ensures Parse(max, d, s) == Parsed([], d, s)
  {
  }

  // ---------------------------------------------------------------------------
  // Round trip
  // ---------------------------------------------------------------------------

  /** Lines as a peer would send them, ended by a newline with or without a carriage return. */
  function Encode(lines: seq<seq<Byte>>, crlf: bool): seq<Byte> {
    if lines == [] then []
    else lines[0] + (if crlf then [CARRIAGE_RETURN, NEWLINE] else [NEWLINE]) + Encode(lines[1..], crlf)
  }

  predicate Sendable(max: nat, line: seq<Byte>, crlf: bool) {
    && NEWLINE !in line
    && |line| + (if crlf then 1 else 0) <= max
    && (!crlf ==> WithoutCarriageReturn(line) == line)
  }

  lemma {:induction false} RoundTrip(max: nat, lines: seq<seq<Byte>>, crlf: bool)
    requires forall line :: line in lines ==> Sendable(max, line, crlf)
    ensures Parse(max, false, Encode(lines, crlf)) ==
      Parsed(seq(|lines|, i requires 0 <= i < |lines| => Line(lines[i])), false, [])
  {
    hide Parse, Sendable;
    if lines == [] {
      AtRestParses(max, false, []);
    } else {
      RoundTrip(max, lines[1..], crlf);
      var line, rest := lines[0], Encode(lines[1..], crlf);
      var body := line + if crlf then [CARRIAGE_RETURN] else [];
      assert Encode(lines, crlf) == body + ([NEWLINE] + rest);
      ParseSent(max, line, crlf, rest);
    }
  }

  lemma ParseSent(max: nat, line: seq<Byte>, crlf: bool, rest: seq<Byte>)
    requires Sendable(max, line, crlf)
    ensures
      var body := line + if crlf then [CARRIAGE_RETURN] else [];
      Parse(max, false, body + ([NEWLINE] + rest)) == Prepend([Line(line)], Parse(max, false, rest))
  {
    hide Parse, Newline;
    var body := line + if crlf then [CARRIAGE_RETURN] else [];
    var s := body + ([NEWLINE] + rest);
    assert forall i :: 0 <= i < |line| ==> line[i] in line;
    NewlineIs(s, |body|);
    ParseAt(max, false, s, |body|);
    assert s[..|body|] == body && s[|body| + 1..] == rest;
    assert WithoutCarriageReturn(body) == line by {
      if crlf { assert body[..|line|] == line; }
    }
  }

  // ---------------------------------------------------------------------------
  // Streams by their lines
  // ---------------------------------------------------------------------------

  /** Lines of any length, each ended by a newline, and what follows the last newline. */
  function Joined(lines: seq<seq<Byte>>, tail: seq<Byte>): seq<Byte> {
    if lines == [] then tail else lines[0] + [NEWLINE] + Joined(lines[1..], tail)
  }

  /** A line within the maximum comes out without the carriage return at its end, a longer one is refused. */
  ghost predicate Reported(max: nat, line: seq<Byte>, o: Outcome) {
    if |line| > max then o == TooLong
    else o == Line(if |line| > 0 && line[|line| - 1] == 13 then line[..|line| - 1] else line)
  }

  /**
   * Whatever its bytes, a stream is read line by line: one outcome for each, in order; a tail beyond
   * the maximum is refused once and for all, and a shorter one waits.
   */
  lemma {:induction false} StreamExact(max: nat, lines: seq<seq<Byte>>, tail: seq<Byte>)
    requires (forall line :: line in lines ==> NEWLINE !in line) && NEWLINE !in tail
    ensures
      var p := Parse(max, false, Joined(lines, tail));
      && |p.outcomes| == |lines| + (if |tail| > max then 1 else 0)
      && (forall i :: 0 <= i < |lines| ==> Reported(max, lines[i], p.outcomes[i]))
      && (|tail| > max ==> p.outcomes[|lines|] == TooLong && p.discarding && p.tail == [])
      && (|tail| <= max ==> !p.discarding && p.tail == tail)
  {
    hide Parse, Newline;
    if lines == [] {
      NewlineIs(tail, |tail|);
      ParseEnd(max, false, tail);
    } else {
      var line, rest := lines[0], Joined(lines[1..], tail);
      StreamExact(max, lines[1..], tail);
      var s := line + [NEWLINE] + rest;
      assert line in lines && s == Joined(lines, tail);
      NewlineIs(s, |line|);
      ParseAt(max, false, s, |line|);
      assert s[..|line|] == line && s[|line| + 1..] == rest;
      var p, q := Parse(max, false, s), Parse(max, false, rest);
      assert p.outcomes == [Judge(max, line)] + q.outcomes;
      forall i | 0 <= i < |lines| ensures Reported(max, lines[i], p.outcomes[i]) {
        if i > 0 { assert lines[i] == lines[1..][i - 1] && p.outcomes[i] == q.outcomes[i - 1]; }
      }
    }
  }

  /** And every stream has lines and a tail. */
  lemma {:induction false} StreamSplits(s: seq<Byte>) returns (lines: seq<seq<Byte>>, tail: seq<Byte>)
    ensures s == Joined(lines, tail) && NEWLINE !in tail && forall line :: line in lines ==> NEWLINE !in line
    decreases |s|
  {
    var k := Newline(s);
    NewlineIsFirst(s);
    if k == |s| {
      lines, tail := [], s;
    } else {
      var more, last := StreamSplits(s[k + 1..]);
      lines, tail := [s[..k]] + more, last;
      assert lines[1..] == more && s == s[..k] + [NEWLINE] + s[k + 1..];
    }
  }
}
