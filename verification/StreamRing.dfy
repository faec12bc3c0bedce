/** The stream buffer as it is coded: copies in two pieces around the end of the ring, then one index update. */
module StreamRing {
  import opened Common
  import opened Rings
  import opened StreamBuffers
  import opened StreamProofs

  /** The ring after data has been stored byte by byte from position `at`. */
  function Store(ring: seq<Byte>, at: nat, data: seq<Byte>): (r: seq<Byte>)
    requires |ring| > 0
    ensures |r| == |ring|
    decreases |data|
  {
    if data == [] then ring
    else
      var k := |data| - 1;
      Store(ring, at, data[..k])[Pos(at + k, |ring|) := data[k]]
  }

  /** The bytes read from position `at`. */
  function Fetch(ring: seq<Byte>, at: nat, count: nat): (r: seq<Byte>)
    requires |ring| > 0
    ensures |r| == count
  {
    if count == 0 then [] else Fetch(ring, at, count - 1) + [ring[Pos(at + (count - 1), |ring|)]]
  }

  /** k consecutive copy steps of the writer. */
  function WriteSteps(s: Stream, k: nat): Stream {
    if k == 0 then s else Next(WriteSteps(s, k - 1), WriteByte)
  }

  lemma {:induction false} WriteStepsStore(s: Stream, k: nat)
    requires Inv(s) && s.writer.Writing? && s.writer.done == 0 && k <= |s.writer.data|
    ensures Inv(WriteSteps(s, k))
    ensures WriteSteps(s, k) == s.(buffer := Store(s.buffer, s.head, s.writer.data[..k]), writer := s.writer.(done := k))
  {
    hide Pos, Inv;
    assert |s.buffer| > 0 by { InvSizes(s); }
    if k > 0 {
      WriteStepsStore(s, k - 1);
      NextKeeps(WriteSteps(s, k - 1), WriteByte);
      assert s.writer.data[..k][..k - 1] == s.writer.data[..k - 1];
    }
  }

  /** Storing two pieces one after the other. */
  lemma {:induction false} StoreAppend(ring: seq<Byte>, at: nat, a: seq<Byte>, b: seq<Byte>)
    requires at < |ring| && |a| <= |ring| && |b| <= |ring|
    ensures Store(ring, at, a + b) == Store(Store(ring, at, a), Advance(at, |a|, |ring|), b)
    decreases |b|
  {
    hide Pos;
    if b == [] {
      assert a + b == a;
    } else {
      var k, l := |b| - 1, |ring|;
      assert (a + b)[..|a| + k] == a + b[..k];
      StoreAppend(ring, at, a, b[..k]);
      PosStep(at, |a|, l);
      PosChunks(at, l);
      PosStep(at + |a|, k, l);
      assert Pos(Advance(at, |a|, l) + k, l) == Pos(at + (|a| + k), l);
    }
  }

  /** A whole write that nothing interrupts: every copy step and the publication. */
  lemma WriteWhole(s: Stream, d: seq<Byte>, publish: bool) returns (r: Stream)
    requires Inv(s) && s.writer.WriterIdle? && WriterValid(s.(writer := Writing(d, 0, publish)))
    ensures Inv(r) && |s.buffer| > 0
    ensures r == (
      var t := s.(buffer := Store(s.buffer, s.head, d));
      if !publish then t
      else t.(head := Advance(s.head, |d|, |s.buffer|), accepted := s.accepted + d,
              sent := if s.message && |d| >= PREFIX then s.sent + [d[PREFIX..]] else s.sent))
  {
    hide Pos, Frames, Frame;
    InvSizes(s);
    var t := s.(writer := Writing(d, 0, publish));
    assert Written(t) == Written(s);
    WriteStepsStore(t, |d|);
    assert d[..|d|] == d;
    var u := WriteSteps(t, |d|);
    PublishKeeps(u);
    r := Next(u, Publish);
  }

  /** The bytes found n positions after the tail are the next unread ones. */
  lemma {:induction false} FetchUnread(s: Stream, k: nat, n: nat)
    requires Inv(s) && |s.received| + k + n <= |s.accepted|
    ensures |s.buffer| > 0
    ensures Fetch(s.buffer, Advance(s.tail, k, |s.buffer|), n) == s.accepted[|s.received| + k..|s.received| + k + n]
  {
    hide Pos, Holds, FramesValid, ReaderValid, Frame;
    if n > 0 {
      FetchUnread(s, k, n - 1);
      var r, l, at := |s.received|, |s.buffer|, |s.received| + k + (n - 1);
      PosStep(r, k, l);
      PosStep(r + k, n - 1, l);
      HoldsAt(s.buffer, Written(s), r, at);
      assert Written(s)[at] == s.accepted[at];
      assert s.accepted[r + k..at + 1] == s.accepted[r + k..at] + [s.accepted[at]];
    }
  }

  /** Consuming what has been read. */
  lemma ReadWhole(s: Stream, want: nat) returns (r: Stream)
    requires Inv(s) && s.reader.ReaderIdle? && 0 < want <= |s.accepted| - |s.received|
    requires s.message ==> |s.delivered| < |s.sent| && want == PREFIX + |s.sent[|s.delivered|]|
    ensures Inv(r) && |s.received| <= |s.accepted|
    ensures r == (
      var t := s.(tail := Advance(s.tail, want, |s.buffer|),
                  received := s.received + s.accepted[|s.received|..|s.received| + want]);
      if s.message then t.(delivered := s.delivered + [s.sent[|s.delivered|]]) else t)
  {
    hide Pos, Frame, Holds;
    var got := s.accepted[|s.received|..|s.received| + want];
    var t := s.(reader := Reading(|s.accepted| - |s.received|, want, got, want, |s.sent|));
    assert s.sent[..|s.sent|] == s.sent;
    assert s.message ==> s.sent[|s.delivered|] in s.sent;
    assert Written(t) == Written(s);
    ConsumeKeeps(t);
    r := Next(t, Consume);
  }

  /** The bytes of the messages seen include all of the oldest. */
  lemma SeenCovers(s: Stream, seen: nat)
    requires Inv(s) && s.message && |s.delivered| < seen <= |s.sent|
    ensures |s.received| + PREFIX + |s.sent[|s.delivered|]| <= |Frames(s.sent[..seen])|
  {
    hide Pos, Frames, Holds, EncodeLength;
    var m := s.sent[|s.delivered|];
    assert m in s.sent;
    LengthRoundTrip(|m|);
    FramesNext(s.sent, |s.delivered|, seen);
  }

  /** What a message buffer holds in front: the length of the oldest message, then the message. */
  lemma Front(s: Stream)
    requires Inv(s) && s.message && s.reader.ReaderIdle?
    ensures |s.received| <= |s.accepted|
    ensures s.delivered == s.sent <==> |s.accepted| == |s.received|
    ensures s.delivered != s.sent ==>
      && |s.delivered| < |s.sent|
      && var m, r := s.sent[|s.delivered|], |s.received|;
      && IsMessage(m) && r + PREFIX + |m| <= |s.accepted|
      && s.accepted[r..r + PREFIX] == EncodeLength(|m|) && s.accepted[r + PREFIX..r + PREFIX + |m|] == m
  {
    hide Pos, Frames, EncodeLength, Holds;
    if s.delivered != s.sent {
      var d, r := |s.delivered|, |s.received|;
      assert s.sent[..|s.sent|] == s.sent;
      var m := s.sent[d];
      assert m in s.sent;
      FramesNext(s.sent, d, |s.sent|);
      LengthRoundTrip(|m|);
      var t := s.(reader := Reading(|s.accepted| - r, 0, [], PREFIX, |s.sent|));
      assert Written(t) == Written(s);
      OldestMessage(t);
      assert s.accepted[r..r + PREFIX + |m|][PREFIX..] == s.accepted[r + PREFIX..r + PREFIX + |m|];
      assert Frame(m)[PREFIX..] == m;
    }
  }

  lemma InvSizes(s: Stream)
    requires Inv(s)
    ensures |s.buffer| > 0 && s.head < |s.buffer| && s.tail < |s.buffer|
    ensures |s.received| <= |s.accepted|
  {
    hide Pos, Written, WriterValid, ReaderValid, FramesValid;
    PosStep(|s.accepted|, 0, |s.buffer|);
    PosStep(|s.received|, 0, |s.buffer|);
  }

  class StreamBuffer {
    var buffer: array<Byte>
    var head: nat
    var tail: nat
    const message: bool
    ghost var accepted: seq<Byte>
    ghost var received: seq<Byte>
    ghost var sent: seq<seq<Byte>>
    ghost var delivered: seq<seq<Byte>>

    ghost function Model(): Stream
      reads this, buffer
    {
      Stream(buffer[..], head, tail, message, WriterIdle, ReaderIdle, accepted, received, sent, delivered)
    }

    ghost predicate Valid()
      reads this, buffer
    {
      Inv(Model())
    }

    /** prvInitialiseNewStreamBuffer */
    constructor (size: nat, isMessage: bool)
      requires size > 1
      ensures Valid() && fresh(buffer) && buffer.Length == size && message == isMessage
      ensures accepted == [] && received == [] && sent == [] && delivered == []
    {
      buffer := new Byte[size](_ => 0);
      head, tail, message := 0, 0, isMessage;
      accepted, received, sent, delivered := [], [], [], [];
      new;
      InitialInv(Model());
    }

    method BytesAvailable() returns (count: nat)
      requires Valid()
      ensures count == |accepted| - |received|
    {
      InvSizes(Model());
      CountsExact(|accepted|, |received|, buffer.Length);
      count := buffer.Length + head - tail;
      if count >= buffer.Length {
        count := count - buffer.Length;
      }
    }

    method SpacesAvailable() returns (space: nat)
      requires Valid()
      ensures space == buffer.Length - 1 - (|accepted| - |received|)
    {
      InvSizes(Model());
      CountsExact(|accepted|, |received|, buffer.Length);
      space := buffer.Length + tail - head - 1;
      if space >= buffer.Length {
        space := space - buffer.Length;
      }
    }

    /** The memcpy of bytes from..to of data, to the ring from position `start` on. */
    method CopyIn(data: seq<Byte>, from: nat, to: nat, at: nat, start: nat, ghost was: seq<Byte>)
      requires from <= to <= |data| && |was| == buffer.Length > 0
      requires at < buffer.Length && start == Advance(at, from, buffer.Length) && start + (to - from) <= buffer.Length
      requires buffer[..] == Store(was, at, data[..from])
      modifies buffer
      ensures buffer[..] == Store(was, at, data[..to])
    {
      hide Pos;
      var i := from;
      while i < to
        invariant from <= i <= to
        invariant buffer[..] == Store(was, at, data[..i])
      {
        assert data[..i + 1][..i] == data[..i];
        PosChunks(at + i, buffer.Length);
        buffer[start + (i - from)] := data[i];
        i := i + 1;
      }
    }

    /** prvWriteBytesToBuffer */
    method WriteBytes(data: seq<Byte>, at: nat) returns (next: nat)
      requires at < buffer.Length && 0 < |data| <= buffer.Length
      modifies buffer
      ensures buffer[..] == Store(old(buffer[..]), at, data)
      ensures next == Advance(at, |data|, buffer.Length) && next < buffer.Length
    {
      hide Pos;
      var first := Min(buffer.Length - at, |data|);
      CopyIn(data, 0, first, at, at, buffer[..]);
      if |data| > first {
        CopyIn(data, first, |data|, at, 0, old(buffer[..]));
      }
      assert data[..|data|] == data;
      next := at + |data|;
      if next >= buffer.Length {
        next := next - buffer.Length;
      }
    }

    method CopyOut(soFar: seq<Byte>, at: nat, start: nat, count: nat) returns (data: seq<Byte>)
      requires at < buffer.Length && start == Advance(at, |soFar|, buffer.Length) && start + count <= buffer.Length
      requires soFar == Fetch(buffer[..], at, |soFar|)
      ensures |data| == |soFar| + count && data == Fetch(buffer[..], at, |data|)
    {
      hide Pos;
      data := soFar;
      var i := 0;
      while i < count
        invariant 0 <= i <= count && |data| == |soFar| + i
        invariant data == Fetch(buffer[..], at, |data|)
      {
        PosChunks(at + |data|, buffer.Length);
        assert |data| + 1 - 1 == |data|;
        data := data + [buffer[start + i]];
        i := i + 1;
      }
    }

    /** prvReadBytesFromBuffer */
    method ReadBytes(count: nat, at: nat) returns (data: seq<Byte>, next: nat)
      requires at < buffer.Length && 0 < count <= buffer.Length
      ensures data == Fetch(buffer[..], at, count)
      ensures next == Advance(at, count, buffer.Length) && next < buffer.Length
    {
      hide Pos;
      var first := Min(buffer.Length - at, count);
      data := CopyOut([], at, at, first);
      if count > first {
        data := CopyOut(data, at, 0, count - first);
      }
      next := at + count;
      if next >= buffer.Length {
        next := next - buffer.Length;
      }
    }

    /** prvWriteMessageToBuffer, with a space reading that may be out of date because the reader has gone on since. */
    method WriteMessage(data: seq<Byte>, space: nat) returns (written: nat)
      requires Valid() && |data| < MAX_SIZE
      requires space <= buffer.Length - 1 - (|accepted| - |received|)
      modifies this, buffer
      ensures Valid() && buffer == old(buffer)
      ensures tail == old(tail) && received == old(received) && delivered == old(delivered)
      ensures message ==> written == if |data| + PREFIX <= space then |data| else 0
      ensures message ==> sent == if written > 0 then old(sent) + [data] else old(sent)
      ensures !message ==> written == Min(|data|, space) && accepted == old(accepted) + data[..written]
    {
      hide Pos, Store, Frames, EncodeLength, Holds;
      ghost var s := Model();
      InvSizes(s);
      var nextHead := head;
      written := |data|;
      ghost var d := data;
      if message {
        if space >= |data| + PREFIX {
          LengthRoundTrip(|data|);
          nextHead := WriteBytes(EncodeLength(|data|), nextHead);
          d := Frame(data);
          assert d[PREFIX..] == data == data[..|data|];
          assert data == [] ==> d == EncodeLength(|data|);
          StoreAppend(s.buffer, head, EncodeLength(|data|), data);
        } else {
          written := 0;
        }
      } else {
        written := Min(|data|, space);
        d := data[..written];
      }
      ghost var r := s;
      if message ==> space >= |data| + PREFIX {
        if d != [] { r := WriteWhole(s, d, written > 0); }
      }
      if written != 0 {
        head := WriteBytes(data[..written], nextHead);
      }
      accepted, sent := r.accepted, r.sent;
      assert Model() == r;
    }

    /** prvReadMessageFromBuffer, after the caller has found more than a length prefix (or at least one byte).  The
        count of available bytes may be out of date because the writer has gone on since: `seen` is the number of
        messages there were then. */
    method ReadMessage(room: nat, available: nat, ghost seen: nat) returns (data: seq<Byte>)
      requires Valid() && available > if message then PREFIX else 0
      requires !message ==> available <= |accepted| - |received|
      requires message ==> |delivered| < seen <= |sent| && |received| + available == |Frames(sent[..seen])|
      modifies this
      ensures Valid() && buffer == old(buffer)
      ensures buffer[..] == old(buffer[..])
      ensures head == old(head) && accepted == old(accepted) && sent == old(sent)
      ensures message ==>
        && |old(delivered)| < |sent|
        && var m := sent[|old(delivered)|];
           if |m| <= room then data == m && delivered == old(delivered) + [m]
           else data == [] && delivered == old(delivered) && tail == old(tail) && received == old(received)
      ensures !message ==> |data| == Min(room, available) && received == old(received) + data
    {
      hide Pos, Fetch, Frames, EncodeLength, DecodeLength, Holds;
      ghost var s := Model();
      InvSizes(s);
      var nextTail := tail;
      var nextLength := room;
      var rest := available;
      ghost var skip := 0;
      if message {
        Front(s);
        FetchUnread(s, 0, PREFIX);
        LengthRoundTrip(|sent[|delivered|]|);
        SeenCovers(s, seen);
        var length;
        length, nextTail := ReadBytes(PREFIX, nextTail);
        nextLength := DecodeLength(length);
        rest := available - PREFIX;
        if nextLength > room {
          nextLength := 0;
        }
        skip := PREFIX;
      }
      var count := Min(nextLength, rest);
      data := [];
      if count != 0 {
        FetchUnread(s, skip, count);
        data, tail := ReadBytes(count, nextTail);
        ghost var r := ReadWhole(s, skip + count);
        received, delivered := r.received, r.delivered;
        assert Model() == r;
      }
    }

    /** xStreamBufferNextMessageLengthBytes */
    method NextMessageLength() returns (n: nat)
      requires Valid()
      ensures n == if message && |delivered| < |sent| then |sent[|delivered|]| else 0
    {
      hide Pos, Fetch, Frames, EncodeLength, DecodeLength, Holds;
      ghost var s := Model();
      InvSizes(s);
      n := 0;
      if message {
        Front(s);
        var available := BytesAvailable();
        if available > PREFIX {
          FetchUnread(s, 0, PREFIX);
          LengthRoundTrip(|sent[|delivered|]|);
          var length, _ := ReadBytes(PREFIX, tail);
          n := DecodeLength(length);
        } else {
          assert available == 0;
        }
      }
    }
  }
}
