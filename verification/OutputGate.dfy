/** The bounded buffer for terminal output that arrives before the window streams
    (`PendingTerminalOutput` and `TerminalOutputGate` in remote.rs). */
module OutputGate {
  import opened Bytes

  const USIZE_MAX := 0xFFFF_FFFF_FFFF_FFFF
  const MAX_TERMINAL_STARTUP_OUTPUT_BYTES := 4 * 1024 * 1024

  function SaturatingAdd(a: nat, b: nat): nat {
    if a + b > USIZE_MAX then USIZE_MAX else a + b
  }

  function SaturatingSub(a: nat, b: nat): nat {
    if a < b then 0 else a - b
  }

  // --------------------------------------------------------------------- frames

  datatype Kind = Output | Error | System

  /** The header byte that opens the buffer, and the payload after it. */
  datatype Frame = Frame(header: Byte, payload: seq<Byte>)

  function NewFrame(kind: Kind, bytes: seq<Byte>): Frame {
    Frame(match kind case Output => 0 case Error => 1 case System => 2, bytes)
  }

  function KindOf(header: Byte): Kind {
    match header % 4
    case 1 => Error
    case 2 => System
    case _ => Output
  }

  /** One payload byte with the kind of the frame that carried it. */
  datatype Tagged = Tagged(kind: Kind, byte: Byte)

  function Tag(frame: Frame): (r: seq<Tagged>)
    ensures |r| == |frame.payload|
  {
    seq(|frame.payload|, i requires 0 <= i < |frame.payload| => Tagged(KindOf(frame.header), frame.payload[i]))
  }

  function Flatten(frames: seq<Frame>): seq<Tagged> {
    if frames == [] then [] else Flatten(frames[..|frames| - 1]) + Tag(frames[|frames| - 1])
  }

  /** Payload bytes of the frames from index `from` on. */
  function SizeFrom(frames: seq<Frame>, from: nat): nat
    decreases |frames| - from
  {
    if from >= |frames| then 0 else |frames[from].payload| + SizeFrom(frames, from + 1)
  }

  function Total(frames: seq<Frame>): nat {
    SizeFrom(frames, 0)
  }

  // ------------------------------------------------------- what one push leaves

  /** An oversized frame keeps its header and its last `cap` payload bytes. */
  function Clip(cap: nat, frame: Frame): (r: Frame) {
    if |frame.payload| > cap then frame.(payload := frame.payload[|frame.payload| - cap..]) else frame
  }

  /** The first frame, from `from` on, that can stay when `size` more bytes come. */
  function FirstKept(cap: nat, pending: seq<Frame>, size: nat, from: nat): (k: nat)
    requires from <= |pending|
    ensures from <= k <= |pending|
    ensures SizeFrom(pending, k) + size <= cap || k == |pending|
    ensures k > from ==> SizeFrom(pending, k - 1) + size > cap
    decreases |pending| - from
  {
    if from == |pending| || SizeFrom(pending, from) + size <= cap then from
    else FirstKept(cap, pending, size, from + 1)
  }

  function DropToFit(cap: nat, pending: seq<Frame>, size: nat): seq<Frame> {
    pending[FirstKept(cap, pending, size, 0)..]
  }

  function Push(cap: nat, pending: seq<Frame>, frame: Frame): seq<Frame> {
    if cap == 0 || frame.payload == [] then pending
    else DropToFit(cap, pending, |Clip(cap, frame).payload|) + [Clip(cap, frame)]
  }

  /** The buffer after pushing frames one after the other. */
  function Buffer(cap: nat, frames: seq<Frame>): seq<Frame> {
    if frames == [] then [] else Push(cap, Buffer(cap, frames[..|frames| - 1]), frames[|frames| - 1])
  }

  // ----------------------------------------------------------------- the object

  class TerminalOutputGate {
    var streaming: bool
    var pending: seq<Frame>
    var pendingBytes: nat
    const maxPendingBytes: nat
    /** Everything pushed before streaming began. */
    ghost var pushed: seq<Frame>

    ghost predicate Valid()
      reads this
    {
      && maxPendingBytes < USIZE_MAX
      && pending == (if streaming then [] else Buffer(maxPendingBytes, pushed))
      && pendingBytes == Total(pending)
    }

    constructor (maxPendingBytes: nat)
      requires maxPendingBytes < USIZE_MAX
      ensures Valid() && !streaming && pushed == [] && this.maxPendingBytes == maxPendingBytes
    {
      this.streaming, this.pending, this.pendingBytes := false, [], 0;
      this.maxPendingBytes := maxPendingBytes;
      this.pushed := [];
    }

    /** `push_pending`. */
    method PushPending(frame: Frame)
      requires Valid() && !streaming
      modifies this
      ensures Valid() && !streaming && pushed == old(pushed) + [frame]
    {
      pushed := pushed + [frame];
      assert pushed[..|pushed| - 1] == old(pushed);
      if maxPendingBytes == 0 || frame.payload == [] {
        return;
      }
      var output := frame;
      if |output.payload| > maxPendingBytes {
        output := output.(payload := output.payload[|output.payload| - maxPendingBytes..]);
      }
      MakeRoom(|output.payload|);
      SizeSnoc(pending, output, 0);
      pendingBytes := pendingBytes + |output.payload|;
      pending := pending + [output];
    }

    /** The loop of `push_pending`: frames leave at the front until `size` bytes fit. */
    method MakeRoom(size: nat)
      requires maxPendingBytes < USIZE_MAX && pendingBytes == Total(pending)
      modifies `pending, `pendingBytes
      ensures pending == DropToFit(maxPendingBytes, old(pending), size)
      ensures pendingBytes == Total(pending)
    {
      ghost var k := 0;
      assert old(pending)[0..] == pending;
      while SaturatingAdd(pendingBytes, size) > maxPendingBytes
        invariant pendingBytes == Total(pending)
        invariant k <= |old(pending)| && pending == old(pending)[k..]
        invariant FirstKept(maxPendingBytes, old(pending), size, k)
               == FirstKept(maxPendingBytes, old(pending), size, 0)
        decreases |pending|
      {
        if pending == [] {
          break;
        }
        var dropped := pending[0];
        SizeOfTail(old(pending), k, 0);
        SizeOfTail(old(pending), k + 1, 0);
        pending := pending[1..];
        k := k + 1;
        pendingBytes := SaturatingSub(pendingBytes, |dropped.payload|);
      }
      SizeOfTail(old(pending), k, 0);
    }

    /** `route`: a frame is handed on when streaming and buffered otherwise. */
    method Route(kind: Kind, bytes: seq<Byte>) returns (direct: seq<Frame>)
      requires Valid()
      modifies this
      ensures Valid() && streaming == old(streaming)
      ensures streaming ==> direct == [NewFrame(kind, bytes)] && pushed == old(pushed)
      ensures !streaming ==> direct == [] && pushed == old(pushed) + [NewFrame(kind, bytes)]
    {
      var output := NewFrame(kind, bytes);
      if streaming {
        direct := [output];
      } else {
        PushPending(output);
        direct := [];
      }
    }

    /** `start`: the buffer is handed over once; a second call hands over nothing. */
    method Start() returns (handed: seq<Frame>)
      requires Valid()
      modifies this
      ensures Valid() && streaming && pushed == old(pushed)
      ensures handed == if old(streaming) then [] else Buffer(maxPendingBytes, pushed)
    {
      if streaming {
        return [];
      }
      streaming := true;
      pendingBytes := 0;
      handed := pending;
      pending := [];
    }
  }

  lemma {:induction false} SizeOfTail(frames: seq<Frame>, k: nat, from: nat)
    requires k <= |frames|
    ensures SizeFrom(frames[k..], from) == SizeFrom(frames, k + from)
    decreases |frames| - k - from
  {
    if k + from < |frames| {
      SizeOfTail(frames, k, from + 1);
    }
  }

  lemma {:induction false} SizeSnoc(frames: seq<Frame>, last: Frame, from: nat)
    requires from <= |frames|
    ensures SizeFrom(frames + [last], from) == SizeFrom(frames, from) + |last.payload|
    decreases |frames| - from
  {
    if from < |frames| {
      SizeSnoc(frames, last, from + 1);
    }
  }

  // ------------------------------------------------------ what the buffer holds

  ghost predicate IsSuffix<T(!new)>(small: seq<T>, big: seq<T>) {
    |small| <= |big| && big[|big| - |small|..] == small
  }

  /** Frames with a payload, clipped: what each push would buffer on its own. */
  function Clipped(cap: nat, frames: seq<Frame>): seq<Frame> {
    if frames == [] then []
    else
      var before, last := Clipped(cap, frames[..|frames| - 1]), frames[|frames| - 1];
      if cap == 0 || last.payload == [] then before else before + [Clip(cap, last)]
  }

  /** The frames from `k` on fit, and one more frame would not. */
  predicate LongestFitting(cap: nat, frames: seq<Frame>, k: int) {
    && 0 <= k <= |frames|
    && SizeFrom(frames, k) <= cap
    && (k > 0 ==> SizeFrom(frames, k - 1) > cap)
  }

  lemma {:induction false} TotalFlatten(frames: seq<Frame>)
    ensures |Flatten(frames)| == Total(frames)
  {
    if frames != [] {
      var init, last := frames[..|frames| - 1], frames[|frames| - 1];
      TotalFlatten(init);
      SizeSnoc(init, last, 0);
      assert init + [last] == frames;
    }
  }

  /** After any pushes the buffer is the longest run of whole clipped frames, counted
      from the newest, that fits in the cap. */
  lemma {:induction false} BufferIsLongestFitting(cap: nat, frames: seq<Frame>)
    ensures HoldsLongest(cap, Clipped(cap, frames), Buffer(cap, frames))
  {
    if frames != [] {
      var init, last := frames[..|frames| - 1], frames[|frames| - 1];
      BufferIsLongestFitting(cap, init);
      if cap != 0 && last.payload != [] {
        PushedBuffer(cap, Clipped(cap, init), Buffer(cap, init), Clip(cap, last));
      }
    }
  }

  ghost predicate HoldsLongest(cap: nat, frames: seq<Frame>, kept: seq<Frame>) {
    var k := |frames| - |kept|;
    LongestFitting(cap, frames, k) && kept == frames[k..]
  }

  lemma PushedBuffer(cap: nat, frames: seq<Frame>, kept: seq<Frame>, last: Frame)
    requires HoldsLongest(cap, frames, kept) && |last.payload| <= cap
    ensures HoldsLongest(cap, frames + [last], DropToFit(cap, kept, |last.payload|) + [last])
  {
    var k := |frames| - |kept|;
    PushKeepsLongest(cap, frames, k, last);
    var j := FirstKept(cap, frames[k..], |last.payload|, 0);
    assert |(frames + [last])[k + j..]| == |frames| + 1 - (k + j);
  }

  lemma PushKeepsLongest(cap: nat, frames: seq<Frame>, k: nat, last: Frame)
    requires LongestFitting(cap, frames, k) && |last.payload| <= cap
    ensures var j := FirstKept(cap, frames[k..], |last.payload|, 0);
            && LongestFitting(cap, frames + [last], k + j)
            && DropToFit(cap, frames[k..], |last.payload|) + [last] == (frames + [last])[k + j..]
  {
    var j := FirstKept(cap, frames[k..], |last.payload|, 0);
    assert frames[k..][j..] + [last] == (frames + [last])[k + j..];
    SizesAt(frames, last, k, j);
    if j > 0 {
      SizesAt(frames, last, k, j - 1);
    } else if k > 0 {
      SizeSnoc(frames, last, k - 1);
    }
  }

  lemma SizesAt(frames: seq<Frame>, last: Frame, k: nat, j: nat)
    requires k + j <= |frames|
    ensures SizeFrom(frames + [last], k + j) == SizeFrom(frames[k..], j) + |last.payload|
  {
    SizeOfTail(frames, k, j);
    SizeSnoc(frames, last, k + j);
  }

  lemma {:induction false} FlattenSuffix(frames: seq<Frame>, kept: seq<Frame>)
    requires IsSuffix(kept, frames)
    ensures IsSuffix(Flatten(kept), Flatten(frames))
  {
    if kept != [] {
      var n, k := |frames|, |kept|;
      assert frames[n - 1] == kept[k - 1];
      assert kept[..k - 1] == frames[..n - 1][n - k..];
      FlattenSuffix(frames[..n - 1], kept[..k - 1]);
    }
  }

  /** Clipping never reorders: the clipped byte is a suffix of its own payload, and the
      clipped frame alone fills the cap. */
  lemma ClipSuffix(cap: nat, frame: Frame)
    ensures IsSuffix(Tag(Clip(cap, frame)), Tag(frame))
    ensures Clip(cap, frame) != frame ==> |Tag(Clip(cap, frame))| == cap
  {
  }

  lemma {:induction false} BufferCarries(cap: nat, frames: seq<Frame>)
    ensures forall f :: f in Buffer(cap, frames) ==> f.payload != []
  {
    if frames != [] {
      BufferCarries(cap, frames[..|frames| - 1]);
    }
  }

  lemma SuffixAppend<T(!new)>(small: seq<T>, big: seq<T>, end: seq<T>)
    requires IsSuffix(small, big)
    ensures IsSuffix(small + end, big + end)
  {
    assert (big + end)[|big| - |small|..] == small + end;
  }

  lemma SuffixOf<T(!new)>(small: seq<T>, end: seq<T>, big: seq<T>)
    requires IsSuffix(small, end)
    ensures IsSuffix(small, big + end)
  {
    assert (big + end)[|big| + |end| - |small|..] == small;
  }

  lemma SuffixTransitive<T(!new)>(a: seq<T>, b: seq<T>, c: seq<T>)
    requires IsSuffix(a, b) && IsSuffix(b, c)
    ensures IsSuffix(a, c)
  {
    assert c[|c| - |a|..] == b[|b| - |a|..];
  }

  lemma FlattenSnoc(frames: seq<Frame>, last: Frame)
    ensures Flatten(frames + [last]) == Flatten(frames) + Tag(last)
  {
    assert (frames + [last])[..|frames|] == frames;
  }

  /** The buffered bytes, each with its kind, are the end of everything pushed. */
  lemma {:induction false} BufferIsSuffix(cap: nat, frames: seq<Frame>)
    ensures IsSuffix(Flatten(Buffer(cap, frames)), Flatten(frames))
  {
    if frames != [] {
      var init, last := frames[..|frames| - 1], frames[|frames| - 1];
      BufferIsSuffix(cap, init);
      if cap != 0 && last.payload != [] {
        PushIsSuffix(cap, init, last);
      } else {
        BufferWithinCap(cap, init);
        assert last.payload == [] ==> Flatten(frames) == Flatten(init);
      }
    }
  }

  lemma PushIsSuffix(cap: nat, init: seq<Frame>, last: Frame)
    requires cap != 0 && IsSuffix(Flatten(Buffer(cap, init)), Flatten(init))
    ensures IsSuffix(Flatten(DropToFit(cap, Buffer(cap, init), |Clip(cap, last).payload|) + [Clip(cap, last)]),
                     Flatten(init) + Tag(last))
  {
    var clip := Clip(cap, last);
    var kept := DropToFit(cap, Buffer(cap, init), |clip.payload|);
    FlattenSnoc(kept, clip);
    if clip == last {
      FlattenSuffix(Buffer(cap, init), kept);
      SuffixTransitive(Flatten(kept), Flatten(Buffer(cap, init)), Flatten(init));
      SuffixAppend(Flatten(kept), Flatten(init), Tag(last));
    } else {
      BufferCarries(cap, init);
      assert kept == [];
      assert Flatten(kept) + Tag(clip) == Tag(clip);
      ClipSuffix(cap, last);
      SuffixOf(Tag(clip), Tag(last), Flatten(init));
    }
  }

  /** `pending_bytes`: the number of bytes buffered, never above the cap. */
  lemma BufferWithinCap(cap: nat, frames: seq<Frame>)
    ensures |Flatten(Buffer(cap, frames))| == Total(Buffer(cap, frames)) <= cap
  {
    TotalFlatten(Buffer(cap, frames));
    BufferIsLongestFitting(cap, frames);
    var k := |Clipped(cap, frames)| - |Buffer(cap, frames)|;
    SizeOfTail(Clipped(cap, frames), k, 0);
  }

  /** While everything pushed fits, everything pushed is there. */
  lemma {:induction false} NothingLostWhileItFits(cap: nat, frames: seq<Frame>)
    requires |Flatten(frames)| <= cap
    ensures Flatten(Buffer(cap, frames)) == Flatten(frames)
  {
    if frames != [] {
      var init, last := frames[..|frames| - 1], frames[|frames| - 1];
      NothingLostWhileItFits(cap, init);
      var pending := Buffer(cap, init);
      BufferWithinCap(cap, init);
      if cap != 0 && last.payload != [] {
        assert Clip(cap, last) == last;
        assert DropToFit(cap, pending, |last.payload|) == pending;
        assert (pending + [last])[..|pending|] == pending;
      }
    }
  }

  /** The sum in the loop test of `push_pending` saturates when `next` comes after `frames`. */
  predicate Saturates(cap: nat, frames: seq<Frame>, next: Frame) {
    var total, size := Total(Buffer(cap, frames)), |Clip(cap, next).payload|;
    SaturatingAdd(total, size) != total + size
  }

  lemma FullBuffer(cap: nat, frame: Frame)
    requires cap > 0 && |frame.payload| == cap
    ensures Buffer(cap, [frame]) == [frame] && Total([frame]) == cap
  {
    assert [frame][..0] == [];
    assert Buffer(cap, []) == [];
    assert Push(cap, [], frame) == [frame];
    assert SizeFrom([frame], 1) == 0;
  }

  /** No sequence of pushes ever saturates the sum, if and only if the cap is at most half the
      address space; the default is. */
  lemma NoSaturation(cap: nat)
    ensures (forall frames, next :: !Saturates(cap, frames, next)) <==> 2 * cap <= USIZE_MAX
    ensures 2 * MAX_TERMINAL_STARTUP_OUTPUT_BYTES <= USIZE_MAX
  {
    if 2 * cap <= USIZE_MAX {
      forall frames, next
        ensures !Saturates(cap, frames, next)
      {
        BufferWithinCap(cap, frames);
      }
    } else {
      var frame := Frame(0, seq(cap, _ => 0));
      FullBuffer(cap, frame);
      assert Saturates(cap, [frame], frame);
    }
  }

  /** The subtraction for a dropped frame never saturates, and is exact. */
  lemma DropIsExact(cap: nat, frames: seq<Frame>, k: nat)
    requires k < |Buffer(cap, frames)|
    ensures var pending := Buffer(cap, frames)[k..];
            SaturatingSub(Total(pending), |pending[0].payload|) == Total(pending[1..])
            && |pending[0].payload| <= Total(pending)
  {
    SizeOfTail(Buffer(cap, frames)[k..], 1, 0);
  }

  /** A frame carries its kind and its bytes. */
  lemma FrameCarriesKind(kind: Kind, bytes: seq<Byte>)
    ensures KindOf(NewFrame(kind, bytes).header) == kind && NewFrame(kind, bytes).payload == bytes
    ensures forall i :: 0 <= i < |bytes| ==> Tag(NewFrame(kind, bytes))[i] == Tagged(kind, bytes[i])
  {
  }
}
