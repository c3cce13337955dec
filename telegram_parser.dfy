/**
 * The frame synchronizer of TelegramParser.cs: a byte-at-a-time machine
 * that cuts a byte stream into frames at start-marker pairs (first byte
 * 0xB6 or 0xC5, then second byte 0x6B or 0x5C), over a fixed 32-byte
 * buffer. A frame is emitted only when the NEXT marker pair is seen.
 *
 * The value-level machine (`Sync`, `Transition`, `Run`) is the
 * specification; the class `TelegramParser` keeps the source's fields and
 * is proved to follow it.
 */
module FrameParser {
  import opened Bytes

  const ReadFirstByte: Byte := 0xB6
  const ReadSecondByte: Byte := 0x6B
  const WriteFirstByte: Byte := 0xC5
  const WriteSecondByte: Byte := 0x5C
  const BufferSize := 32

  predicate IsFirstByte(b: Byte) {
    b == ReadFirstByte || b == WriteFirstByte
  }

  predicate IsSecondByte(b: Byte) {
    b == ReadSecondByte || b == WriteSecondByte
  }

  datatype States = NoBlock | FirstByte | ReadingBlock

  /** The parser's fields `state`, `data` and `offset` as values. */
  datatype Sync = Sync(state: States, data: seq<Byte>, offset: nat)

  /**
   * What a byte does besides changing the fields: nothing, raise
   * `NewTelegram` with a frame, or the IndexOutOfRangeException of
   * `data[offset++]` on a full buffer.
   */
  datatype Outcome = Consumed | Emitted(frame: seq<Byte>) | IndexFault

  /** The fields of a new parser. */
  function Init(): Sync {
    Sync(NoBlock, seq(BufferSize, _ => 0), 0)
  }

  /** The fresh buffer that holds only the new marker pair. */
  function Restart(first: Byte, second: Byte, size: nat): (buf: seq<Byte>)
    requires size >= 2
    ensures |buf| == size && buf[..2] == [first, second]
  {
    [first, second] + seq(size - 2, _ => 0)
  }

  /** The buffered bytes `data[0..offset)`. */
  function Buffered(s: Sync): seq<Byte>
    requires s.offset <= |s.data|
  {
    s.data[..s.offset]
  }

  /**
   * One pass of the `switch (state)` body for byte `b`. `data[offset++] = b`
   * increments `offset` before the store faults, so a fault leaves
   * `offset + 1` and the state unchanged.
   */
  function Transition(s: Sync, b: Byte): (Sync, Outcome) {
    match s.state
    case NoBlock =>
      if IsFirstByte(b) then
        if s.offset < |s.data| then (Sync(FirstByte, s.data[s.offset := b], s.offset + 1), Consumed)
        else (s.(offset := s.offset + 1), IndexFault)
      else (s, Consumed)
    case FirstByte =>
      if s.offset >= |s.data| then (s.(offset := s.offset + 1), IndexFault)
      else
        var data := s.data[s.offset := b];
        var offset := s.offset + 1;
        if IsSecondByte(b) then
          if offset > 2 then
            (Sync(ReadingBlock, Restart(data[offset - 2], data[offset - 1], |data|), 2),
             Emitted(data[..offset - 2]))
          else (Sync(ReadingBlock, data, offset), Consumed)
        else if offset != 0 then (Sync(ReadingBlock, data, offset), Consumed)
        else
          // `offset` was just incremented: the branch back to NO_BLOCK is dead.
          assert false; (s, Consumed)
    case ReadingBlock =>
      if s.offset >= |s.data| then (s.(offset := s.offset + 1), IndexFault)
      else
        var data := s.data[s.offset := b];
        (Sync(if IsFirstByte(b) then FirstByte else ReadingBlock, data, s.offset + 1), Consumed)
  }

  /**
   * The invariant the fields keep while no fault has happened: a 32-byte
   * buffer, an empty one outside a block, and a buffer that starts with a
   * first start byte inside one.
   */
  predicate Inv(s: Sync) {
    && |s.data| == BufferSize
    && s.offset <= BufferSize
    && (s.state == NoBlock ==> s.offset == 0)
    && (s.state == FirstByte ==>
          (s.offset == 1 || s.offset >= 3) && IsFirstByte(s.data[s.offset - 1]))
    && (s.state == ReadingBlock ==> s.offset >= 2)
    && (s.offset >= 1 ==> IsFirstByte(s.data[0]))
  }

  lemma InitInv()
    ensures Inv(Init()) && Buffered(Init()) == []
  {
  }

  /** Outside a block every byte but a first start byte is discarded, leaving the fields as they are. */
  lemma NoBlockDiscards(s: Sync, b: Byte)
    requires s.state == NoBlock && !IsFirstByte(b)
    ensures Transition(s, b) == (s, Consumed)
  {
  }

  /**
   * A second start byte right after a first start byte confirms a boundary,
   * for any of the four pairs. With earlier bytes buffered they are emitted,
   * exactly `data[0..offset-1)`, and the buffer restarts with the pair.
   */
  lemma BoundaryConfirmed(s: Sync, b: Byte)
    requires Inv(s) && s.state == FirstByte && IsSecondByte(b) && s.offset < BufferSize
    ensures var (s', o) := Transition(s, b);
      && s'.state == ReadingBlock
      && s'.offset == 2
      && Buffered(s') == [s.data[s.offset - 1], b]
      && (s.offset >= 3 ==> o == Emitted(s.data[..s.offset - 1]) && |s'.data| == BufferSize)
      && (s.offset == 1 ==> o == Consumed && s'.data == s.data[1 := b])
  {
    var data := s.data[s.offset := b];
    if s.offset >= 3 {
      assert data[..s.offset - 1] == s.data[..s.offset - 1];
      var buf := Restart(data[s.offset - 1], data[s.offset], |data|);
      assert buf[..2] == [s.data[s.offset - 1], b];
    } else {
      assert data[..2] == [s.data[0], b];
    }
  }

  /** Every step that does not fault keeps the invariant. */
  lemma {:induction false} TransitionInv(s: Sync, b: Byte)
    requires Inv(s) && Transition(s, b).1 != IndexFault
    ensures Inv(Transition(s, b).0)
  {
    if s.state == FirstByte && IsSecondByte(b) && s.offset + 1 > 2 {
      var data := s.data[s.offset := b];
      var buf := Restart(data[s.offset - 1], data[s.offset], |data|);
      assert buf[0] == data[s.offset - 1] == s.data[s.offset - 1];
    }
  }

  /** On valid fields a byte faults exactly when a block is open and the buffer is full. */
  lemma FaultIff(s: Sync, b: Byte)
    requires Inv(s)
    ensures Transition(s, b).1 == IndexFault <==> s.state != NoBlock && s.offset == BufferSize
  {
  }

  /** After a fault every further byte faults too: `offset` has passed the buffer's end. */
  lemma FaultPersists(s: Sync, b: Byte, b': Byte)
    requires Inv(s) && Transition(s, b).1 == IndexFault
    ensures Transition(Transition(s, b).0, b').1 == IndexFault
  {
  }

  /** Once a first start byte is buffered the machine never returns to `NO_BLOCK`. */
  lemma NeverBackToNoBlock(s: Sync, b: Byte)
    requires s.state != NoBlock
    ensures Transition(s, b).0.state != NoBlock
  {
  }

  /** The frames an outcome contributes. */
  function Out(o: Outcome): seq<seq<Byte>> {
    if o.Emitted? then [o.frame] else []
  }

  /** The concatenation of frames, in order. */
  function Flatten(frames: seq<seq<Byte>>): seq<Byte>
    decreases |frames|
  {
    if frames == [] then [] else frames[0] + Flatten(frames[1..])
  }

  lemma {:induction false} FlattenAppend(a: seq<seq<Byte>>, b: seq<seq<Byte>>)
    ensures Flatten(a + b) == Flatten(a) + Flatten(b)
    decreases |a|
  {
    if a == [] {
      assert a + b == b;
    } else {
      assert (a + b)[0] == a[0];
      assert (a + b)[1..] == a[1..] + b;
      FlattenAppend(a[1..], b);
    }
  }

  /** The shape of an emitted frame: 2 to 30 bytes, first a first start byte. */
  predicate FrameShape(f: seq<Byte>) {
    2 <= |f| <= BufferSize - 2 && IsFirstByte(f[0])
  }

  /** The byte a step keeps: all but those discarded outside a block. */
  function Accepted(s: Sync, b: Byte): seq<Byte> {
    if s.state == NoBlock && !IsFirstByte(b) then [] else [b]
  }

  /**
   * A step loses no byte: what it emits followed by what is buffered after
   * it is what was buffered before followed by the byte, unless the byte
   * was discarded outside a block. An emitted frame has the frame shape.
   */
  lemma TransitionNoLoss(s: Sync, b: Byte)
    requires Inv(s) && Transition(s, b).1 != IndexFault
    ensures Transition(s, b).0.offset <= |Transition(s, b).0.data|
    ensures Flatten(Out(Transition(s, b).1)) + Buffered(Transition(s, b).0) == Buffered(s) + Accepted(s, b)
    ensures Transition(s, b).1.Emitted? ==> FrameShape(Transition(s, b).1.frame)
  {
    TransitionInv(s, b);
    var s', o := Transition(s, b).0, Transition(s, b).1;
    var data := s.data[s.offset := b];
    if o.Emitted? {
      assert Out(o) == [o.frame];
      assert Flatten(Out(o)) == o.frame;
      assert o.frame == s.data[..s.offset - 1];
      assert Buffered(s') == [s.data[s.offset - 1], b];
      assert s.data[..s.offset] == s.data[..s.offset - 1] + [s.data[s.offset - 1]];
    } else if s.state != NoBlock || IsFirstByte(b) {
      assert Buffered(s') == data[..s.offset + 1];
      assert data[..s.offset + 1] == s.data[..s.offset] + [b];
    }
  }

  /** The effect of a run of `ParseFile` over a byte sequence. */
  datatype Trace = Trace(final: Sync, frames: seq<seq<Byte>>, faulted: bool)

  /**
   * The `while` loop of `ParseFile` over `bytes`, starting from the fields
   * `s`: every byte in order, until the end of input or a fault, which
   * leaves `ParseFile` as an exception. No frame is flushed at the end.
   */
  function Run(s: Sync, bytes: seq<Byte>): Trace
    decreases |bytes|
  {
    if bytes == [] then Trace(s, [], false)
    else
      var step := Transition(s, bytes[0]);
      if step.1 == IndexFault then Trace(step.0, [], true)
      else
        var rest := Run(step.0, bytes[1..]);
        Trace(rest.final, Out(step.1) + rest.frames, rest.faulted)
  }

  /** Continuing a trace with more bytes, unless it has already faulted. */
  function Then(t: Trace, bytes: seq<Byte>): Trace {
    if t.faulted then t
    else
      var rest := Run(t.final, bytes);
      Trace(rest.final, t.frames + rest.frames, rest.faulted)
  }

  /** The input from the first first-start byte on: what the machine keeps outside a block. */
  function FromFirstStart(bytes: seq<Byte>): (r: seq<Byte>)
    ensures |r| <= |bytes| && r == bytes[|bytes| - |r|..]
    ensures forall j | 0 <= j < |bytes| - |r| :: !IsFirstByte(bytes[j])
    ensures r == [] || IsFirstByte(r[0])
    decreases |bytes|
  {
    if bytes == [] then []
    else if IsFirstByte(bytes[0]) then bytes
    else
      var r := FromFirstStart(bytes[1..]);
      assert bytes[1..][|bytes| - 1 - |r|..] == bytes[|bytes| - |r|..];
      assert forall j | 1 <= j < |bytes| - |r| :: bytes[j] == bytes[1..][j - 1];
      r
  }

  /** The bytes of the input a run keeps, from fields in state `state`. */
  function Kept(state: States, bytes: seq<Byte>): seq<Byte> {
    if state == NoBlock then FromFirstStart(bytes) else bytes
  }

  /**
   * Processing a concatenation is processing the first part and then the
   * second from where it stopped: the fields carry over between calls.
   */
  lemma {:induction false} RunAppend(s: Sync, xs: seq<Byte>, ys: seq<Byte>)
    ensures Run(s, xs + ys) == Then(Run(s, xs), ys)
    decreases |xs|
  {
    if xs == [] {
      assert xs + ys == ys;
    } else {
      var step := Transition(s, xs[0]);
      assert (xs + ys)[0] == xs[0] && (xs + ys)[1..] == xs[1..] + ys;
      RunFirst(s, xs + ys);
      RunFirst(s, xs);
      if step.1 != IndexFault {
        RunAppend(step.0, xs[1..], ys);
      }
      ContThen(step, Run(step.0, xs[1..]), ys);
    }
  }

  /** What a run does after its first step `step`, given the run over the remaining bytes. */
  function Cont(step: (Sync, Outcome), rest: Trace): Trace {
    if step.1 == IndexFault then Trace(step.0, [], true)
    else Trace(rest.final, Out(step.1) + rest.frames, rest.faulted)
  }

  lemma RunFirst(s: Sync, bytes: seq<Byte>)
    requires bytes != []
    ensures Run(s, bytes) == Cont(Transition(s, bytes[0]), Run(Transition(s, bytes[0]).0, bytes[1..]))
  {
  }

  /** Continuing after the first step commutes with continuing at the end. */
  lemma ContThen(step: (Sync, Outcome), rest: Trace, ys: seq<Byte>)
    ensures step.1 != IndexFault ==> Then(Cont(step, rest), ys) == Cont(step, Then(rest, ys))
    ensures step.1 == IndexFault ==> Then(Cont(step, rest), ys) == Cont(step, rest)
  {
    if step.1 != IndexFault && !rest.faulted {
      var more := Run(rest.final, ys);
      assert Out(step.1) + (rest.frames + more.frames) == (Out(step.1) + rest.frames) + more.frames;
    }
  }

  /** Without a fault a run keeps the invariant and emits only frames of the frame shape. */
  lemma {:induction false} RunInv(s: Sync, bytes: seq<Byte>)
    requires Inv(s) && !Run(s, bytes).faulted
    ensures Inv(Run(s, bytes).final)
    ensures forall f | f in Run(s, bytes).frames :: FrameShape(f)
    decreases |bytes|
  {
    if bytes != [] {
      var step := Transition(s, bytes[0]);
      TransitionNoLoss(s, bytes[0]);
      TransitionInv(s, bytes[0]);
      RunInv(step.0, bytes[1..]);
    }
  }

  /**
   * No loss: without a fault, the emitted frames followed by the buffered
   * bytes are the bytes buffered before followed by every input byte from
   * the first first-start byte on (all of them inside a block).
   */
  lemma {:induction false} RunNoLoss(s: Sync, bytes: seq<Byte>)
    requires Inv(s) && !Run(s, bytes).faulted
    ensures Run(s, bytes).final.offset <= |Run(s, bytes).final.data|
    ensures Flatten(Run(s, bytes).frames) + Buffered(Run(s, bytes).final)
            == Buffered(s) + Kept(s.state, bytes)
    decreases |bytes|
  {
    if bytes != [] {
      var b := bytes[0];
      var step := Transition(s, b);
      TransitionNoLoss(s, b);
      TransitionInv(s, b);
      RunNoLoss(step.0, bytes[1..]);
      var rest := Run(step.0, bytes[1..]);
      FlattenAppend(Out(step.1), rest.frames);
      var kept := Accepted(s, b);
      assert Kept(s.state, bytes) == kept + Kept(step.0.state, bytes[1..]);
      assert Run(s, bytes) == Trace(rest.final, Out(step.1) + rest.frames, rest.faulted);
      Regroup(Flatten(Out(step.1)), Flatten(rest.frames), Buffered(rest.final), Buffered(step.0),
              Kept(step.0.state, bytes[1..]), Buffered(s), kept);
    }
  }

  lemma Regroup(f: seq<Byte>, r: seq<Byte>, last: seq<Byte>, mid: seq<Byte>, k: seq<Byte>,
                first: seq<Byte>, a: seq<Byte>)
    requires f + mid == first + a
    requires r + last == mid + k
    ensures (f + r) + last == first + (a + k)
  {
    calc {
      (f + r) + last;
      f + (r + last);
      f + (mid + k);
      (f + mid) + k;
      (first + a) + k;
      first + (a + k);
    }
  }

  /** Inside a block the machine stays inside blocks, however many bytes follow. */
  lemma {:induction false} RunStaysInBlock(s: Sync, bytes: seq<Byte>)
    requires s.state != NoBlock
    ensures Run(s, bytes).final.state != NoBlock
    decreases |bytes|
  {
    if bytes != [] {
      NeverBackToNoBlock(s, bytes[0]);
      if Transition(s, bytes[0]).1 != IndexFault {
        RunStaysInBlock(Transition(s, bytes[0]).0, bytes[1..]);
      }
    }
  }

  /** Outside a block, a first start byte in the input opens a block that stays open. */
  lemma {:induction false} RunEntersBlock(s: Sync, bytes: seq<Byte>)
    requires Inv(s) && s.state == NoBlock && FromFirstStart(bytes) != []
    ensures Run(s, bytes).final.state != NoBlock
    decreases |bytes|
  {
    var step := Transition(s, bytes[0]);
    if IsFirstByte(bytes[0]) {
      assert step.1 == Consumed && step.0.state == FirstByte;
      RunStaysInBlock(step.0, bytes[1..]);
    } else {
      NoBlockDiscards(s, bytes[0]);
      RunEntersBlock(s, bytes[1..]);
    }
  }

  /**
   * There is no flush at the end of input: once a block is open, the bytes
   * of the last block stay buffered and are not emitted, so the frames hold
   * strictly fewer bytes than were kept.
   */
  lemma LastBlockNotEmitted(s: Sync, bytes: seq<Byte>)
    requires Inv(s) && !Run(s, bytes).faulted
    requires s.state != NoBlock || FromFirstStart(bytes) != []
    ensures Run(s, bytes).final.offset >= 1
    ensures |Flatten(Run(s, bytes).frames)| < |Buffered(s) + Kept(s.state, bytes)|
  {
    if s.state == NoBlock {
      RunEntersBlock(s, bytes);
    } else {
      RunStaysInBlock(s, bytes);
    }
    RunInv(s, bytes);
    RunNoLoss(s, bytes);
  }

  /**
   * A frame that starts with a mixed pair (B6 5C) is emitted once the next
   * pair arrives; the last block stays buffered because nothing follows it.
   */
  lemma StreamExample(s0: Sync, bs: seq<Byte>)
    requires Inv(s0) && s0.state == NoBlock
    requires bs == [0x00, 0xB6, 0x5C, 0x01, 0xC5, 0x6B, 0x02]
    ensures var t := Run(s0, bs);
      && !t.faulted
      && t.final.offset <= |t.final.data|
      && t.frames == [[0xB6, 0x5C, 0x01]]
      && t.final.state == ReadingBlock
      && Buffered(t.final) == [0xC5, 0x6B, 0x02]
  {
    var rest := Run(s0, bs[1..]);
    RunFirst(s0, bs);
    NoBlockDiscards(s0, bs[0]);
    assert Run(s0, bs) == Trace(rest.final, [] + rest.frames, rest.faulted);
    var xs, ys := bs[1..4], bs[4..];
    assert bs[1..] == xs + ys;
    RunAppend(s0, xs, ys);
    FirstBlockOpened(s0, xs);
    var s3 := Run(s0, xs).final;
    SecondPairEmits(s3, ys);
    assert Run(s0, xs).frames + Run(s3, ys).frames == [[0xB6, 0x5C, 0x01]];
  }

  /** Bytes two to four of that stream: B6 opens a block and B6 5C 01 is buffered. */
  lemma FirstBlockOpened(s0: Sync, xs: seq<Byte>)
    requires Inv(s0) && s0.state == NoBlock
    requires xs == [0xB6, 0x5C, 0x01]
    ensures var t := Run(s0, xs);
      && !t.faulted && t.frames == []
      && t.final.state == ReadingBlock && t.final.offset == 3 && |t.final.data| == BufferSize
      && t.final.data[..3] == [0xB6, 0x5C, 0x01]
  {
    var s1 := Transition(s0, 0xB6).0;
    var s2 := Transition(s1, 0x5C).0;
    var s3 := Transition(s2, 0x01).0;
    assert s1.state == FirstByte && s1.offset == 1 && s1.data[0] == 0xB6 && |s1.data| == 32;
    assert s2.state == ReadingBlock && s2.offset == 2 && s2.data[0] == 0xB6 && s2.data[1] == 0x5C;
    assert s3.state == ReadingBlock && s3.offset == 3 && s3.data[..2] == s2.data[..2] && s3.data[2] == 0x01;
    assert s3.data[..3] == [0xB6, 0x5C, 0x01];
    assert Run(s3, []) == Trace(s3, [], false);
    assert Run(s2, xs[2..]) == Trace(s3, [], false) by { assert xs[2..][1..] == []; }
    assert Run(s1, xs[1..]) == Trace(s3, [], false) by { assert xs[1..][1..] == xs[2..]; }
  }

  /** The next three bytes: C5 6B confirm a boundary, so B6 5C 01 is emitted and C5 6B 02 buffered. */
  lemma SecondPairEmits(s3: Sync, ys: seq<Byte>)
    requires s3.state == ReadingBlock && s3.offset == 3 && |s3.data| == BufferSize
    requires s3.data[..3] == [0xB6, 0x5C, 0x01]
    requires ys == [0xC5, 0x6B, 0x02]
    ensures var t := Run(s3, ys);
      && !t.faulted && t.frames == [[0xB6, 0x5C, 0x01]]
      && t.final.state == ReadingBlock && t.final.offset == 3 && |t.final.data| == BufferSize
      && t.final.data[..3] == [0xC5, 0x6B, 0x02]
  {
    var s4 := Transition(s3, 0xC5).0;
    var step5 := Transition(s4, 0x6B);
    var s5 := step5.0;
    var s6 := Transition(s5, 0x02).0;
    var f: seq<seq<Byte>> := [[0xB6, 0x5C, 0x01]];
    assert s4.state == FirstByte && s4.offset == 4 && s4.data[..3] == s3.data[..3] && s4.data[3] == 0xC5;
    assert step5.1 == Emitted([0xB6, 0x5C, 0x01]) by {
      assert s4.data[4 := 0x6B][..3] == s4.data[..3] == s3.data[..3];
    }
    assert s5.state == ReadingBlock && s5.offset == 2 && s5.data[0] == 0xC5 && s5.data[1] == 0x6B;
    assert s6.state == ReadingBlock && s6.offset == 3 && s6.data[..3] == [0xC5, 0x6B, 0x02];
    assert Run(s6, []) == Trace(s6, [], false);
    assert Run(s5, ys[2..]) == Trace(s6, [], false) by { assert ys[2..][1..] == []; }
    assert Run(s4, ys[1..]) == Trace(s6, f, false) by { assert ys[1..][1..] == ys[2..]; }
  }

  /** The class `TelegramParser`: its three fields and the per-byte switch. */
  class TelegramParser {
    var state: States
    var data: array<Byte>
    var offset: nat

    /** The fields as a `Sync` value. */
    function Abs(): Sync
      reads this, data
    {
      Sync(state, data[..], offset)
    }

    constructor ()
      ensures Abs() == Init()
    {
      state := NoBlock;
      data := new Byte[BufferSize](_ => 0);
      offset := 0;
    }

    /** The body of the `switch (state)` for one byte. */
    method Step(b: Byte) returns (outcome: Outcome)
      modifies this, data
      ensures (Abs(), outcome) == Transition(old(Abs()), b)
      ensures data == old(data) || fresh(data)
    {
      match state
      case NoBlock =>
        if IsFirstByte(b) {
          if offset >= data.Length {
            offset := offset + 1;
            return IndexFault;
          }
          data[offset] := b;
          offset := offset + 1;
          state := FirstByte;
        }
        outcome := Consumed;
      case FirstByte =>
        if offset >= data.Length {
          offset := offset + 1;
          return IndexFault;
        }
        data[offset] := b;
        offset := offset + 1;
        outcome := Consumed;
        if IsSecondByte(b) {
          if offset > 2 {
            var telegram := data[..offset - 2];
            outcome := Emitted(telegram);
            var buf := new Byte[data.Length](_ => 0);
            buf[0] := data[offset - 2];
            buf[1] := data[offset - 1];
            assert buf[..] == Restart(buf[0], buf[1], buf.Length);
            offset := 2;
            data := buf;
          }
          state := ReadingBlock;
        } else if offset != 0 {
          state := ReadingBlock;
        } else {
          // Dead: `offset` was just incremented.
          assert false;
        }
      case ReadingBlock =>
        if offset >= data.Length {
          offset := offset + 1;
          return IndexFault;
        }
        data[offset] := b;
        offset := offset + 1;
        if IsFirstByte(b) {
          state := FirstByte;
        }
        outcome := Consumed;
    }

    /**
     * `ParseFile` over the bytes of a file; `frames` are the arguments of
     * the `NewTelegram` events in order, and `faulted` says the loop ended
     * in an IndexOutOfRangeException.
     */
    method ParseBytes(bytes: seq<Byte>) returns (frames: seq<seq<Byte>>, faulted: bool)
      modifies this, data
      ensures Trace(Abs(), frames, faulted) == Run(old(Abs()), bytes)
      ensures data == old(data) || fresh(data)
    {
      frames := [];
      faulted := false;
      var i := 0;
      assert bytes[0..] == bytes;
      while i < |bytes| && !faulted
        invariant 0 <= i <= |bytes|
        invariant data == old(data) || fresh(data)
        invariant Run(old(Abs()), bytes) == Then(Trace(Abs(), frames, faulted), bytes[i..])
        decreases |bytes| - i
      {
        ThenStep(Abs(), frames, bytes[i..]);
        var outcome := Step(bytes[i]);
        assert bytes[i..][1..] == bytes[i + 1..];
        if outcome == IndexFault {
          faulted := true;
        } else {
          frames := frames + Out(outcome);
        }
        i := i + 1;
      }
    }
  }

  /** One step of the loop of `ParseFile` in terms of `Then`. */
  lemma ThenStep(s: Sync, frames: seq<seq<Byte>>, bytes: seq<Byte>)
    requires bytes != []
    ensures var step := Transition(s, bytes[0]);
      Then(Trace(s, frames, false), bytes) ==
        Then(Trace(step.0, frames + Out(step.1), step.1 == IndexFault), bytes[1..])
  {
    var step := Transition(s, bytes[0]);
    if step.1 != IndexFault {
      var rest := Run(step.0, bytes[1..]);
      assert frames + (Out(step.1) + rest.frames) == frames + Out(step.1) + rest.frames;
    }
  }
}
