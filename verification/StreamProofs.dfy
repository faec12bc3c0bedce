/** Why the unlocked ring is safe: the proofs behind StreamBuffers. */
module StreamProofs {
  import opened Common
  import opened Rings
  import opened StreamBuffers

  // ---- Counting.

  /** The two counts are exact for every writer position w and reader position r of the unbounded stream. */
  lemma CountsExact(w: nat, r: nat, l: nat)
    requires r <= w < r + l
    ensures BytesInBuffer(Pos(w, l), Pos(r, l), l) == w - r
    ensures SpacesAvailable(Pos(w, l), Pos(r, l), l) == l - 1 - (w - r)
  {
    hide Pos;
    PosStep(r, w - r, l);
    assert r + (w - r) == w;
  }

  // ---- Frames.

  lemma LengthRoundTrip(n: nat)
    requires n < MAX_SIZE
    ensures |EncodeLength(n)| == PREFIX && DecodeLength(EncodeLength(n)) == n
  {
    var a, b := n / 0x100, n / 0x1_0000;
    assert n / 0x1_0000 == a / 0x100;
    assert n / 0x100_0000 == b / 0x100 && b / 0x100 < 0x100;
  }

  lemma {:induction false} FramesSplit(a: seq<seq<Byte>>, b: seq<seq<Byte>>)
    ensures Frames(a + b) == Frames(a) + Frames(b)
  {
    hide Frame;
    if a == [] {
      assert a + b == b;
    } else {
      assert (a + b)[1..] == a[1..] + b;
      FramesSplit(a[1..], b);
    }
  }

  lemma FramesAppend(ms: seq<seq<Byte>>, m: seq<Byte>)
    ensures Frames(ms + [m]) == Frames(ms) + Frame(m)
  {
    hide Frame;
    FramesSplit(ms, [m]);
    assert [m][1..] == [];
  }

  /** Taking the oldest of the pending messages off the front. */
  lemma FramesNext(ms: seq<seq<Byte>>, d: nat, seen: nat)
    requires d < seen <= |ms|
    ensures Frames(ms[..seen]) == Frames(ms[..d]) + Frame(ms[d]) + Frames(ms[d + 1..seen])
    ensures Frames(ms[..d + 1]) == Frames(ms[..d]) + Frame(ms[d])
  {
    hide Frame;
    assert ms[..seen] == (ms[..d] + [ms[d]]) + ms[d + 1..seen];
    FramesSplit(ms[..d] + [ms[d]], ms[d + 1..seen]);
    FramesAppend(ms[..d], ms[d]);
    assert ms[..d + 1] == ms[..d] + [ms[d]];
  }

  lemma FramesPrefix(ms: seq<seq<Byte>>, k: nat)
    requires k <= |ms|
    ensures |Frames(ms[..k])| <= |Frames(ms)|
    ensures Frames(ms)[..|Frames(ms[..k])|] == Frames(ms[..k])
  {
    hide Frames, Frame;
    assert ms == ms[..k] + ms[k..];
    FramesSplit(ms[..k], ms[k..]);
  }

  // ---- Every step keeps the invariant.

  /** Storing the byte that comes after those in the ring, when there is room for it. */
  lemma HoldsExtend(buffer: seq<Byte>, bytes: seq<Byte>, from: nat, b: Byte)
    requires Holds(buffer, bytes, from, |bytes|) && from <= |bytes| < from + |buffer|
    ensures Pos(|bytes|, |buffer|) < |buffer|
    ensures Holds(buffer[Pos(|bytes|, |buffer|) := b], bytes + [b], from, |bytes| + 1)
    ensures forall i :: from <= i < |bytes| ==> Pos(i, |buffer|) != Pos(|bytes|, |buffer|)
  {
    hide Pos;
    var l, at := |buffer|, |bytes|;
    PosStep(at, 0, l);
    forall i | from <= i < at ensures Pos(i, l) != Pos(at, l) && Pos(i, l) < l {
      PosDistinct(i, at, l);
      PosStep(i, 0, l);
    }
  }

  lemma HoldsPrefix(buffer: seq<Byte>, bytes: seq<Byte>, from: nat, to: nat)
    requires Holds(buffer, bytes, from, |bytes|) && from <= to <= |bytes|
    ensures Holds(buffer, bytes[..to], from, to)
    ensures Holds(buffer, bytes, to, |bytes|)
  {
    hide Pos;
  }

  lemma HoldsAt(buffer: seq<Byte>, bytes: seq<Byte>, from: nat, at: nat)
    requires Holds(buffer, bytes, from, |bytes|) && from <= at < |bytes|
    ensures Pos(at, |buffer|) < |buffer| && buffer[Pos(at, |buffer|)] == bytes[at]
  {
    hide Pos;
    PosStep(at, 0, |buffer|);
  }

  lemma HoldsStep(s: Stream)
    requires RingValid(s) && WriterValid(s) && Enabled(s, WriteByte)
    ensures RingValid(Next(s, WriteByte))
    // the byte goes to the position it will be read from, and that position holds no unread byte
    ensures Pos(s.head + s.writer.done, |s.buffer|) == Pos(|s.accepted| + s.writer.done, |s.buffer|)
    ensures forall i :: |s.received| <= i < |s.accepted| + s.writer.done ==>
      Pos(i, |s.buffer|) != Pos(s.head + s.writer.done, |s.buffer|)
  {
    hide Pos, Holds, Frame;
    var w, l := s.writer, |s.buffer|;
    PosStep(|s.accepted|, w.done, l);
    HoldsExtend(s.buffer, Written(s), |s.received|, w.data[w.done]);
    assert w.data[..w.done + 1] == w.data[..w.done] + [w.data[w.done]];
    assert Written(Next(s, WriteByte)) == Written(s) + [w.data[w.done]];
  }

  lemma WriteByteKeeps(s: Stream)
    requires Inv(s) && Enabled(s, WriteByte)
    ensures Inv(Next(s, WriteByte))
  {
    hide RingValid, Pos, Frame, Frames;
    HoldsStep(s);
    PosStep(s.head + s.writer.done, 0, |s.buffer|);
  }

  lemma SendKeeps(s: Stream, data: seq<Byte>)
    requires Inv(s) && Enabled(s, Send(data))
    ensures Inv(Next(s, Send(data)))
  {
    hide Pos, Frames, SpacesAvailable, BytesInBuffer;
    CountsExact(|s.accepted|, |s.received|, |s.buffer|);
    var n := Next(s, Send(data));
    assert n.writer.Writing? ==> Written(n) == s.accepted;
    if n.writer.Writing? && s.message {
      assert n.writer.data[PREFIX..] == data;
    }
  }

  lemma PublishRing(s: Stream)
    requires RingValid(s) && WriterValid(s) && Enabled(s, Publish)
    ensures RingValid(Next(s, Publish))
  {
    hide Pos, Frame, Holds;
    var w := s.writer;
    assert w.data[..w.done] == w.data;
    PosStep(|s.accepted|, |w.data|, |s.buffer|);
    if !w.publish {
      HoldsPrefix(s.buffer, Written(s), |s.received|, |s.accepted|);
      assert Written(s)[..|s.accepted|] == s.accepted;
    }
  }

  lemma PublishFrames(s: Stream)
    requires WriterValid(s) && FramesValid(s) && Enabled(s, Publish)
    ensures FramesValid(Next(s, Publish))
  {
    hide Pos, Frames, Frame;
    var w, n := s.writer, Next(s, Publish);
    if w.publish && s.message {
      FramesAppend(s.sent, w.data[PREFIX..]);
      assert n.sent[..|s.delivered|] == s.sent[..|s.delivered|];
      assert s.reader.Reading? ==> n.sent[..s.reader.seen] == s.sent[..s.reader.seen];
    }
  }

  lemma PublishKeeps(s: Stream)
    requires Inv(s) && Enabled(s, Publish)
    ensures Inv(Next(s, Publish))
  {
    hide Pos, RingValid, FramesValid, Frame;
    PublishRing(s);
    PublishFrames(s);
  }

  lemma ReceiveKeeps(s: Stream, room: nat, trigger: nat)
    requires Inv(s) && Enabled(s, Receive(room, trigger))
    ensures Inv(Next(s, Receive(room, trigger)))
  {
    hide Pos, Frame, SpacesAvailable, BytesInBuffer;
    CountsExact(|s.accepted|, |s.received|, |s.buffer|);
    assert s.sent[..|s.sent|] == s.sent;
  }

  lemma ReadByteKeeps(s: Stream)
    requires Inv(s) && Enabled(s, ReadByte)
    ensures Inv(Next(s, ReadByte))
    // the byte read has been published, and it is the next one of the stream
    ensures |s.received| + |s.reader.got| < |s.accepted|
    ensures s.buffer[Pos(s.tail + |s.reader.got|, |s.buffer|)] == s.accepted[|s.received| + |s.reader.got|]
  {
    hide Pos, RingValid, WriterValid, Frame, Frames;
    var r, at := |s.received|, |s.received| + |s.reader.got|;
    ByteToRead(s);
    SliceMore(s.accepted, r, at);
    SameRing(s, s.reader.(got := s.reader.got + [s.accepted[at]]));
  }

  lemma ByteToRead(s: Stream)
    requires RingValid(s) && ReaderValid(s) && Enabled(s, ReadByte)
    ensures |s.received| + |s.reader.got| < |s.accepted|
    ensures Pos(s.tail + |s.reader.got|, |s.buffer|) < |s.buffer|
    ensures s.buffer[Pos(s.tail + |s.reader.got|, |s.buffer|)] == s.accepted[|s.received| + |s.reader.got|]
  {
    hide Pos, Holds;
    var at := |s.received| + |s.reader.got|;
    PosStep(|s.received|, |s.reader.got|, |s.buffer|);
    HoldsAt(s.buffer, Written(s), |s.received|, at);
    assert Written(s)[at] == s.accepted[at];
  }

  lemma SliceMore<T>(s: seq<T>, i: nat, j: nat)
    requires i <= j < |s|
    ensures s[i..j + 1] == s[i..j] + [s[j]]
  {
  }

  /** The reader's progress concerns neither the ring nor the writer. */
  lemma SameRing(s: Stream, reader: Reader)
    ensures RingValid(s.(reader := reader)) == RingValid(s) && WriterValid(s.(reader := reader)) == WriterValid(s)
  {
  }

  /** The oldest message, as the reader finds it in the stream. */
  lemma OldestMessage(s: Stream)
    requires Inv(s) && s.message && s.reader.Reading?
    ensures |s.delivered| < |s.sent|
    ensures var m, r := s.sent[|s.delivered|], |s.received|;
      && IsMessage(m) && PREFIX + |m| <= s.reader.avail <= |s.accepted| - r
      && s.accepted[r..r + PREFIX + |m|] == Frame(m) && s.accepted[r..r + PREFIX] == EncodeLength(|m|)
      && Frames(s.sent[..|s.delivered| + 1]) == s.received + Frame(m)
  {
    hide Pos, Frames, EncodeLength, RingValid, WriterValid;
    var d, seen := |s.delivered|, s.reader.seen;
    var m, r := s.sent[d], |s.received|;
    assert m in s.sent;
    LengthRoundTrip(|m|);
    FramesNext(s.sent, d, seen);
    FramesPrefix(s.sent, seen);
    var f := Frames(s.sent[..seen]);
    assert f[r..r + |Frame(m)|] == Frame(m);
    assert s.accepted[..|f|][r..r + |Frame(m)|] == s.accepted[r..r + |Frame(m)|];
    assert Frame(m)[..PREFIX] == EncodeLength(|m|);
    assert s.accepted[r..r + |Frame(m)|][..PREFIX] == s.accepted[r..r + PREFIX];
  }

  /** With the length read, the reader takes the whole oldest message, or nothing if the caller's buffer is too small. */
  lemma DecideExact(s: Stream)
    requires Inv(s) && Enabled(s, Decide)
    ensures Inv(Next(s, Decide))
    ensures |s.delivered| < |s.sent|
    ensures var m := s.sent[|s.delivered|];
      Next(s, Decide) ==
        if |m| > s.reader.room then s.(reader := ReaderIdle) else s.(reader := s.reader.(want := PREFIX + |m|))
  {
    hide Pos, Frames, EncodeLength, DecodeLength, Holds;
    OldestMessage(s);
    var m := s.sent[|s.delivered|];
    LengthRoundTrip(|m|);
    assert s.reader.got == EncodeLength(|m|);
    hide RingValid, WriterValid;
  }

  lemma ConsumeRing(s: Stream)
    requires RingValid(s) && ReaderValid(s) && Enabled(s, Consume)
    ensures RingValid(Next(s, Consume))
  {
    hide Pos, Holds;
    var r, want := |s.received|, s.reader.want;
    PosStep(r, want, |s.buffer|);
    assert s.accepted[..r] + s.accepted[r..r + want] == s.accepted[..r + want];
    HoldsPrefix(s.buffer, Written(s), r, r + want);
  }

  lemma ConsumeFrames(s: Stream)
    requires Inv(s) && Enabled(s, Consume) && s.message
    ensures FramesValid(Next(s, Consume))
    ensures |s.delivered| < |s.sent| && Next(s, Consume).delivered == s.delivered + [s.sent[|s.delivered|]]
  {
    hide Pos, Frames, EncodeLength, RingValid, WriterValid;
    OldestMessage(s);
    var d := |s.delivered|;
    LengthRoundTrip(|s.sent[d]|);
    assert s.sent[..d + 1] == s.sent[..d] + [s.sent[d]];
  }

  lemma ConsumeKeeps(s: Stream)
    requires Inv(s) && Enabled(s, Consume)
    ensures Inv(Next(s, Consume))
    ensures s.message ==> |s.delivered| < |s.sent| && Next(s, Consume).delivered == s.delivered + [s.sent[|s.delivered|]]
    ensures !s.message ==> Next(s, Consume).received == s.received + s.reader.got
  {
    hide Pos, RingValid, Frames, Frame;
    ConsumeRing(s);
    if s.message { ConsumeFrames(s); }
  }

  lemma NextKeeps(s: Stream, a: Action)
    requires Inv(s)
    ensures Inv(Next(s, a)) && Next(s, a).message == s.message
  {
    hide Inv;
    if Enabled(s, a) {
      match a
      case Send(data) => SendKeeps(s, data);
      case WriteByte => WriteByteKeeps(s);
      case Publish => PublishKeeps(s);
      case Receive(room, trigger) => ReceiveKeeps(s, room, trigger);
      case ReadByte => ReadByteKeeps(s);
      case Decide => DecideExact(s);
      case Consume => ConsumeKeeps(s);
    }
  }

  lemma InitialInv(s: Stream)
    requires Initial(s)
    ensures Inv(s)
  {
    PosStep(0, 0, |s.buffer|);
  }

  lemma {:induction false} RunKeeps(s: Stream, actions: seq<Action>)
    requires Initial(s)
    ensures Inv(Run(s, actions)) && Run(s, actions).message == s.message
  {
    hide Inv, Next, Initial;
    if actions == [] {
      InitialInv(s);
    } else {
      RunKeeps(s, actions[..|actions| - 1]);
      NextKeeps(Run(s, actions[..|actions| - 1]), actions[|actions| - 1]);
    }
  }

  // ---- The theorems.

  /** In every interleaving, the bytes received are a prefix of the bytes accepted; the reader reads only published bytes
      and the writer overwrites only consumed ones. */
  lemma StreamSafety(s0: Stream, actions: seq<Action>)
    requires Initial(s0)
    ensures var s := Run(s0, actions);
      && |s.received| <= |s.accepted| && s.received == s.accepted[..|s.received|]
      && |s.buffer| > 0
      && (Enabled(s, ReadByte) ==>
            && |s.received| + |s.reader.got| < |s.accepted|
            && s.buffer[Pos(s.tail + |s.reader.got|, |s.buffer|)] == s.accepted[|s.received| + |s.reader.got|])
      && (Enabled(s, WriteByte) ==>
            forall i :: |s.received| <= i < |s.accepted| ==>
              Pos(i, |s.buffer|) != Pos(s.head + s.writer.done, |s.buffer|))
  {
    hide Pos, Next, Frames, Run, Written, WriterValid, FramesValid;
    RunKeeps(s0, actions);
    var s := Run(s0, actions);
    if Enabled(s, ReadByte) { ReadByteKeeps(s); }
    if Enabled(s, WriteByte) { HoldsStep(s); }
  }

  /** In every interleaving, a message buffer delivers the messages it accepted, whole and in order, and what it stores
      is nothing, or more than one length prefix. */
  lemma MessageRoundTrip(s0: Stream, actions: seq<Action>)
    requires Initial(s0) && s0.message
    ensures var s := Run(s0, actions);
      && |s.delivered| <= |s.sent| && s.delivered == s.sent[..|s.delivered|]
      && (forall m :: m in s.sent ==> IsMessage(m))
      && |s.received| <= |s.accepted| && s.accepted[|s.received|..] == Frames(s.sent[|s.delivered|..])
      && (var n := BytesInBuffer(s.head, s.tail, |s.buffer|);
          && n == |Frames(s.sent[|s.delivered|..])|
          && (if s.delivered == s.sent then n == 0 else n > PREFIX))
  {
    hide Pos, Next, BytesInBuffer, EncodeLength, Run, Written, WriterValid;
    RunKeeps(s0, actions);
    var s := Run(s0, actions);
    CountsExact(|s.accepted|, |s.received|, |s.buffer|);
    var d := |s.delivered|;
    assert s.sent == s.sent[..d] + s.sent[d..];
    FramesSplit(s.sent[..d], s.sent[d..]);
    if d < |s.sent| {
      assert IsMessage(s.sent[d..][0]);
      LengthRoundTrip(|s.sent[d]|);
    }
  }

  /** The space test accepts exactly what fits: all of a message or none of it, and as much of a stream as there is
      room for. */
  lemma SendExact(s: Stream, data: seq<Byte>)
    requires Inv(s) && s.writer.WriterIdle? && |data| < MAX_SIZE
    ensures var n, free := Next(s, Send(data)), |s.buffer| - 1 - (|s.accepted| - |s.received|);
      if s.message then
        if |data| + PREFIX <= free then n == s.(writer := Writing(Frame(data), 0, |data| > 0)) else n == s
      else if Min(|data|, free) > 0 then n == s.(writer := Writing(data[..Min(|data|, free)], 0, true)) else n == s
  {
    hide Pos, SpacesAvailable, Frames, Frame;
    CountsExact(|s.accepted|, |s.received|, |s.buffer|);
  }

  /** A receive begins if there is more than the length prefix, or more than the trigger level and room for a byte; it
      then reads the prefix first, or as many bytes as there are and fit. */
  lemma ReceiveExact(s: Stream, room: nat, trigger: nat)
    requires Inv(s) && s.reader.ReaderIdle?
    ensures var n, stored := Next(s, Receive(room, trigger)), |s.accepted| - |s.received|;
      && n == s.(reader := n.reader)
      && (n.reader.Reading? <==> if s.message then stored > PREFIX else stored > trigger && room > 0)
      && (n.reader.Reading? ==>
            && n.reader.got == [] && n.reader.avail == stored && n.reader.room == room
            && n.reader.want == if s.message then PREFIX else Min(room, stored))
  {
    hide Pos, BytesInBuffer, SpacesAvailable, Frames, Frame;
    CountsExact(|s.accepted|, |s.received|, |s.buffer|);
  }

  /** Publishing makes what the writer has copied part of the stream, and of the messages sent; a message of length 0 is
      not published. */
  lemma PublishExact(s: Stream)
    requires Inv(s) && Enabled(s, Publish)
    ensures var n, d := Next(s, Publish), s.writer.data;
      && n.writer.WriterIdle? && n.buffer == s.buffer && n.tail == s.tail && n.reader == s.reader
      && n.received == s.received && n.delivered == s.delivered
      && (!s.message ==> n.accepted == s.accepted + d && n.sent == s.sent)
      && (s.message && |d| > PREFIX ==> n.accepted == s.accepted + d && n.sent == s.sent + [d[PREFIX..]])
      && (s.message && |d| <= PREFIX ==> n.accepted == s.accepted && n.sent == s.sent && n.head == s.head)
  {
    hide Pos, Frames, Frame, Holds;
  }

  /** A copy step of the writer or the reader moves one byte, and nothing is published or consumed by it. */
  lemma CopyExact(s: Stream)
    requires Inv(s)
    ensures Enabled(s, WriteByte) ==>
      var n := Next(s, WriteByte);
      && n == s.(buffer := n.buffer, writer := s.writer.(done := s.writer.done + 1))
      && Pos(s.head + s.writer.done, |s.buffer|) < |s.buffer|
      && n.buffer == s.buffer[Pos(s.head + s.writer.done, |s.buffer|) := s.writer.data[s.writer.done]]
    ensures Enabled(s, ReadByte) ==>
      var n := Next(s, ReadByte);
      && |s.received| + |s.reader.got| < |s.accepted|
      && n == s.(reader := s.reader.(got := s.reader.got + [s.accepted[|s.received| + |s.reader.got|]]))
  {
    hide Pos, Frames, Frame, Holds;
    if Enabled(s, WriteByte) { PosStep(s.head + s.writer.done, 0, |s.buffer|); }
    if Enabled(s, ReadByte) { ByteToRead(s); }
  }
}
