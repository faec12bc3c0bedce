/**
 Stream and message buffers: one writer, one reader, and no lock.  The writer takes a snapshot of the space, copies
 byte by byte and then publishes xHead; the reader takes a snapshot of the bytes available, copies and then publishes
 xTail.  The steps of the two interleave freely.
 */
module StreamBuffers {
  import opened Common
  import opened Rings

  /** sbBYTES_TO_STORE_MESSAGE_LENGTH, for a 32-bit size_t. */
  const PREFIX: nat := 4
  const MAX_SIZE: nat := 0x1_0000_0000

  /** prvBytesInBuffer and xStreamBufferSpacesAvailable */
  function BytesInBuffer(head: nat, tail: nat, l: nat): int {
    var count := l + head - tail;
    if count >= l then count - l else count
  }

  function SpacesAvailable(head: nat, tail: nat, l: nat): int {
    var space := l + tail - head - 1;
    if space >= l then space - l else space
  }

  /** The length of a message as stored in front of it. */
  function EncodeLength(n: nat): seq<Byte> {
    [n % 0x100, n / 0x100 % 0x100, n / 0x1_0000 % 0x100, n / 0x100_0000 % 0x100]
  }

  function DecodeLength(b: seq<Byte>): nat
    requires |b| == PREFIX
  {
    var b0: int, b1: int, b2: int, b3: int := b[0], b[1], b[2], b[3];
    b0 + 0x100 * b1 + 0x1_0000 * b2 + 0x100_0000 * b3
  }

  function Frame(m: seq<Byte>): seq<Byte> {
    EncodeLength(|m|) + m
  }

  predicate IsMessage(m: seq<Byte>) {
    1 <= |m| < MAX_SIZE
  }

  function Frames(ms: seq<seq<Byte>>): seq<Byte> {
    if ms == [] then [] else Frame(ms[0]) + Frames(ms[1..])
  }

  /** The writer copies `data`; a message of length 0 is written but never published. */
  datatype Writer = WriterIdle | Writing(data: seq<Byte>, done: nat, publish: bool)

  /** The reader has `avail` bytes to choose from, copied `got`, and stops at `want`.  `seen` is the number of messages
      that `avail` covers. */
  datatype Reader = ReaderIdle | Reading(avail: nat, room: nat, got: seq<Byte>, want: nat, seen: nat)

  /**
   A stream buffer, or a message buffer if `message` is set.  The last four fields are history: the bytes published and
   consumed, and the messages they carry.
   */
  datatype Stream = Stream(
    buffer: seq<Byte>,
    head: nat,
    tail: nat,
    message: bool,
    writer: Writer,
    reader: Reader,
    accepted: seq<Byte>,
    received: seq<Byte>,
    sent: seq<seq<Byte>>,
    delivered: seq<seq<Byte>>)

  datatype Action =
    | Send(data: seq<Byte>)      // snapshot of the space, and what to write
    | WriteByte
    | Publish
    | Receive(room: nat, trigger: nat)  // snapshot of the bytes available
    | ReadByte
    | Decide                     // the length prefix has been read
    | Consume

  function StartSend(s: Stream, data: seq<Byte>): Stream
    requires |s.buffer| > 0
  {
    var space := SpacesAvailable(s.head, s.tail, |s.buffer|);
    if s.message then
      if |data| < MAX_SIZE && |data| + PREFIX <= space then s.(writer := Writing(Frame(data), 0, |data| > 0)) else s
    else
      var n := Min(|data|, space);
      if n > 0 then s.(writer := Writing(data[..n], 0, true)) else s
  }

  /** A stream is read only if it holds more than `trigger` bytes: the trigger level of a batching buffer, else 0. */
  function StartReceive(s: Stream, room: nat, trigger: nat): Stream
    requires |s.buffer| > 0
  {
    var avail := BytesInBuffer(s.head, s.tail, |s.buffer|);
    if s.message then
      if avail > PREFIX then s.(reader := Reading(avail, room, [], PREFIX, |s.sent|)) else s
    else if avail > trigger && room > 0 then s.(reader := Reading(avail, room, [], Min(room, avail), |s.sent|))
    else s
  }

  predicate Enabled(s: Stream, a: Action) {
    |s.buffer| > 0 &&
    match a
    case Send(_) => s.writer.WriterIdle?
    case WriteByte => s.writer.Writing? && s.writer.done < |s.writer.data|
    case Publish => s.writer.Writing? && s.writer.done == |s.writer.data|
    case Receive(_, _) => s.reader.ReaderIdle?
    case ReadByte => s.reader.Reading? && |s.reader.got| < s.reader.want
    case Decide => s.message && s.reader.Reading? && |s.reader.got| == PREFIX == s.reader.want
    case Consume => s.reader.Reading? && |s.reader.got| == s.reader.want && (s.message ==> PREFIX < s.reader.want)
  }

  /** What the reader does once it knows the length: leave the message alone if the caller's buffer is too small. */
  function DecideLength(r: Reader): Reader
    requires r.Reading? && |r.got| == PREFIX
  {
    var next := DecodeLength(r.got);
    var length := if next > r.room then 0 else next;
    var count := Min(length, r.avail - PREFIX);
    if count > 0 then r.(want := PREFIX + count) else ReaderIdle
  }

  function Next(s: Stream, a: Action): Stream {
    if !Enabled(s, a) then s else
    var l := |s.buffer|;
    match a
    case Send(data) => StartSend(s, data)
    case WriteByte =>
      var w := s.writer;
      s.(buffer := s.buffer[Pos(s.head + w.done, l) := w.data[w.done]], writer := w.(done := w.done + 1))
    case Publish =>
      var w := s.writer;
      if !w.publish then s.(writer := WriterIdle)
      else s.(head := Advance(s.head, |w.data|, l), writer := WriterIdle, accepted := s.accepted + w.data,
              sent := if s.message && |w.data| >= PREFIX then s.sent + [w.data[PREFIX..]] else s.sent)
    case Receive(room, trigger) => StartReceive(s, room, trigger)
    case ReadByte =>
      var r := s.reader;
      s.(reader := r.(got := r.got + [s.buffer[Pos(s.tail + |r.got|, l)]]))
    case Decide => s.(reader := DecideLength(s.reader))
    case Consume =>
      var r := s.reader;
      s.(tail := Advance(s.tail, r.want, l), reader := ReaderIdle, received := s.received + r.got,
         delivered := if s.message && |r.got| >= PREFIX then s.delivered + [r.got[PREFIX..]] else s.delivered)
  }

  function Run(s: Stream, actions: seq<Action>): Stream {
    if actions == [] then s else Next(Run(s, actions[..|actions| - 1]), actions[|actions| - 1])
  }

  predicate Initial(s: Stream) {
    && |s.buffer| > 1 && s.head == 0 && s.tail == 0 && s.writer.WriterIdle? && s.reader.ReaderIdle?
    && s.accepted == [] && s.received == [] && s.sent == [] && s.delivered == []
  }

  /** The invariant. */

  /** The bytes from `from` up to `to` of a stream are in their places in the ring. */
  ghost predicate Holds(buffer: seq<Byte>, bytes: seq<Byte>, from: nat, to: nat) {
    && |buffer| > 0 && to <= |bytes|
    && forall i :: from <= i < to ==> buffer[Pos(i, |buffer|)] == bytes[i]
  }

  /** The bytes accepted and those the writer has copied so far. */
  function Written(s: Stream): seq<Byte> {
    if s.writer.Writing? && s.writer.done <= |s.writer.data| then s.accepted + s.writer.data[..s.writer.done]
    else s.accepted
  }

  ghost predicate RingValid(s: Stream) {
    var w, r, l := |s.accepted|, |s.received|, |s.buffer|;
    && 0 < l && s.head == Pos(w, l) && s.tail == Pos(r, l)
    && r <= w < r + l
    && s.received == s.accepted[..r]
    && Holds(s.buffer, Written(s), r, |Written(s)|)
  }

  /** What the writer is about to write fits in front of the oldest unread byte. */
  ghost predicate WriterValid(s: Stream) {
    s.writer.Writing? ==>
      && s.writer.done <= |s.writer.data|
      && |s.accepted| + |s.writer.data| < |s.received| + |s.buffer|
      && (s.message ==> |s.writer.data| >= PREFIX && |s.writer.data| - PREFIX < MAX_SIZE
                        && s.writer.data == Frame(s.writer.data[PREFIX..])
                        && (s.writer.publish <==> |s.writer.data| > PREFIX))
      && (!s.message ==> s.writer.publish)
  }

  /** What the reader has copied is what comes next in the stream. */
  ghost predicate ReaderValid(s: Stream) {
    s.reader.Reading? ==>
      var r := |s.received|;
      && |s.reader.got| <= s.reader.want <= s.reader.avail <= |s.accepted| - r
      && s.reader.got == s.accepted[r..r + |s.reader.got|]
  }

  /** A message buffer holds whole messages, and what the reader has seen is whole messages. */
  ghost predicate FramesValid(s: Stream) {
    s.message ==>
      && (forall m :: m in s.sent ==> IsMessage(m))
      && |s.delivered| <= |s.sent| && s.delivered == s.sent[..|s.delivered|]
      && s.accepted == Frames(s.sent) && s.received == Frames(s.delivered)
      && (s.reader.Reading? ==>
            && |s.delivered| < s.reader.seen <= |s.sent|
            && |s.received| + s.reader.avail == |Frames(s.sent[..s.reader.seen])|
            && s.reader.want >= PREFIX
            && (s.reader.want > PREFIX ==> s.reader.want == PREFIX + |s.sent[|s.delivered|]|))
  }

  ghost predicate Inv(s: Stream) {
    RingValid(s) && WriterValid(s) && ReaderValid(s) && FramesValid(s)
  }
}
