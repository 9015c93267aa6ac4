/**
  JSONL framing: the incremental buffer of `src/jsonl.rs`, and the blocking
  reader and the writer of `src/relay_protocol.rs` that it has to agree with.
  A frame is the byte sequence that is handed to the JSON decoder.
*/
module Jsonl {
  import opened Options

  newtype byte = x: int | 0 <= x < 256

  const NEWLINE: byte := 10
  const RETURN: byte := 13

  // ----- Lines of a byte stream -----

  predicate HasNewline(s: seq<byte>) {
    NEWLINE in s
  }

  /** The position of the first newline. */
  function FirstNewline(s: seq<byte>): (p: nat)
    requires HasNewline(s)
    ensures p < |s| && s[p] == 10 && 10 !in s[..p]
  {
    if s[0] == NEWLINE then 0
    else
      assert s == [s[0]] + s[1..];
      var p := 1 + FirstNewline(s[1..]);
      assert s[..p] == [s[0]] + s[1..][..p - 1];
      p
  }

  function FirstLineOf(s: seq<byte>): seq<byte>
    requires HasNewline(s)
  {
    s[..FirstNewline(s)]
  }

  function AfterFirstLine(s: seq<byte>): seq<byte>
    requires HasNewline(s)
  {
    s[FirstNewline(s) + 1..]
  }

  /** The complete lines, without their newlines. */
  function Lines(s: seq<byte>): seq<seq<byte>>
    decreases |s|
  {
    if !HasNewline(s) then [] else [FirstLineOf(s)] + Lines(AfterFirstLine(s))
  }

  /** What follows the last newline. */
  function Partial(s: seq<byte>): seq<byte>
    decreases |s|
  {
    if !HasNewline(s) then s else Partial(AfterFirstLine(s))
  }

  /** One trailing carriage return is not part of the frame. */
  function StripReturn(line: seq<byte>): seq<byte> {
    if line != [] && line[|line| - 1] == RETURN then line[..|line| - 1] else line
  }

  function Frame(line: seq<byte>, keepDelimiter: bool): seq<byte> {
    if keepDelimiter then line + [NEWLINE] else StripReturn(line)
  }

  /** A frame keeps the newline if that is asked for; otherwise it ends before the newline, or before CRLF. */
  lemma FrameMeans(line: seq<byte>)
    ensures Frame(line, true) == line + [10]
    ensures Frame(line + [13], false) == line
    ensures line == [] || line[|line| - 1] != 13 ==> Frame(line, false) == line
  {
    assert (line + [13])[..|line|] == line;
  }

  lemma FirstFrameMeans(unread: seq<byte>, keepDelimiter: bool)
    requires HasNewline(unread)
    ensures 10 in unread
    ensures var p := FirstNewline(unread);
      && AfterFirstLine(unread) == unread[p + 1..]
      && Frame(FirstLineOf(unread), keepDelimiter)
         == if keepDelimiter then unread[..p + 1]
            else if p > 0 && unread[p - 1] == 13 then unread[..p - 1] else unread[..p]
  {
    var p := FirstNewline(unread);
    assert unread[..p] + [NEWLINE] == unread[..p + 1];
    assert p > 0 ==> unread[..p][..p - 1] == unread[..p - 1];
  }

  function Frames(lines: seq<seq<byte>>, keepDelimiter: bool): seq<seq<byte>> {
    seq(|lines|, i requires 0 <= i < |lines| => Frame(lines[i], keepDelimiter))
  }

  lemma FramesAppend(lines: seq<seq<byte>>, line: seq<byte>, keepDelimiter: bool)
    ensures Frames(lines + [line], keepDelimiter) == Frames(lines, keepDelimiter) + [Frame(line, keepDelimiter)]
  {
  }

  lemma FramesConcat(before: seq<seq<byte>>, after: seq<seq<byte>>, keepDelimiter: bool)
    ensures Frames(before + after, keepDelimiter) == Frames(before, keepDelimiter) + Frames(after, keepDelimiter)
  {
  }

  /** A position that holds a newline and has none before it is the first. */
  lemma FirstIs(s: seq<byte>, p: nat)
    requires p < |s| && s[p] == NEWLINE && !HasNewline(s[..p])
    ensures HasNewline(s) && FirstNewline(s) == p
  {
    NotBefore(s, p);
    NotBefore(s, FirstNewline(s));
  }

  lemma NotBefore(s: seq<byte>, p: nat)
    requires p <= |s| && !HasNewline(s[..p])
    ensures forall i :: 0 <= i < p ==> s[i] != NEWLINE
  {
    assert forall i :: 0 <= i < p ==> s[..p][i] == s[i];
  }

  lemma SplitAt(line: seq<byte>, rest: seq<byte>)
    requires !HasNewline(line)
    ensures HasNewline(line + [NEWLINE] + rest)
    ensures FirstNewline(line + [NEWLINE] + rest) == |line|
    ensures (line + [NEWLINE] + rest)[..|line|] == line
    ensures (line + [NEWLINE] + rest)[|line| + 1..] == rest
  {
    var s := line + [NEWLINE] + rest;
    assert s[..|line|] == line;
    FirstIs(s, |line|);
  }

  lemma LinesOfLine(line: seq<byte>, rest: seq<byte>)
    requires !HasNewline(line)
    ensures Lines(line + [NEWLINE] + rest) == [line] + Lines(rest)
    ensures Partial(line + [NEWLINE] + rest) == Partial(rest)
  {
    SplitAt(line, rest);
  }

  // ----- The incremental buffer -----

  function Sum(xs: seq<nat>): nat {
    if xs == [] then 0 else Sum(xs[..|xs| - 1]) + xs[|xs| - 1]
  }

  lemma {:induction false} SumAtMost(xs: seq<nat>)
    requires forall i :: 0 <= i < |xs| ==> xs[i] <= 1
    ensures Sum(xs) <= |xs|
  {
    if xs != [] {
      SumAtMost(xs[..|xs| - 1]);
    }
  }

  /** Lines, each with its newline. */
  function Written(lines: seq<seq<byte>>): seq<byte> {
    if lines == [] then [] else Written(lines[..|lines| - 1]) + lines[|lines| - 1] + [NEWLINE]
  }

  predicate Complete(lines: seq<seq<byte>>) {
    forall i :: 0 <= i < |lines| ==> !HasNewline(lines[i])
  }

  lemma WrittenAppend(lines: seq<seq<byte>>, line: seq<byte>)
    ensures Written(lines + [line]) == Written(lines) + line + [NEWLINE]
  {
    assert (lines + [line])[..|lines|] == lines;
  }

  lemma Associate<T>(a: seq<T>, b: seq<T>, c: seq<T>)
    ensures (a + b) + c == a + (b + c)
  {
  }

  lemma WrittenFirst(lines: seq<seq<byte>>, rest: seq<byte>)
    requires lines != []
    ensures Written(lines) + rest == Written(lines[..|lines| - 1]) + (lines[|lines| - 1] + [NEWLINE] + rest)
    ensures lines == lines[..|lines| - 1] + [lines[|lines| - 1]]
  {
    Associate(Written(lines[..|lines| - 1]), lines[|lines| - 1], [NEWLINE]);
    Associate(Written(lines[..|lines| - 1]), lines[|lines| - 1] + [NEWLINE], rest);
  }

  /** Complete lines in front of anything are its first lines. */
  lemma {:induction false} LinesOfWritten(lines: seq<seq<byte>>, rest: seq<byte>)
    requires Complete(lines)
    ensures Lines(Written(lines) + rest) == lines + Lines(rest)
    ensures Partial(Written(lines) + rest) == Partial(rest)
  {
    if lines == [] {
      assert Written(lines) + rest == rest;
    } else {
      var before, line := lines[..|lines| - 1], lines[|lines| - 1];
      LinesOfWritten(before, line + [NEWLINE] + rest);
      LinesOfLastLine(before, line, rest);
      WrittenFirst(lines, rest);
    }
  }

  lemma LinesOfLastLine(before: seq<seq<byte>>, line: seq<byte>, rest: seq<byte>)
    requires !HasNewline(line)
    ensures before + Lines(line + [NEWLINE] + rest) == before + [line] + Lines(rest)
    ensures Partial(line + [NEWLINE] + rest) == Partial(rest)
  {
    LinesOfLine(line, rest);
    Associate(before, [line], Lines(rest));
  }

  predicate NoNewline(bytes: seq<byte>, from: nat, to: nat)
    requires from <= to <= |bytes|
  {
    forall k :: from <= k < to ==> bytes[k] != NEWLINE
  }

  /** How the buffer stands to everything that was appended and returned so far. */
  ghost predicate Framing(stream: seq<byte>, bytes: seq<byte>, consumed: nat, scanned: nat, yielded: seq<seq<byte>>) {
    && consumed <= scanned <= |bytes| <= |stream|
    && NoNewline(bytes, consumed, scanned)
    && Complete(yielded)
    && stream == Written(yielded) + bytes[consumed..]
  }

  lemma FramingAppend(stream: seq<byte>, bytes: seq<byte>, consumed: nat, scanned: nat, yielded: seq<seq<byte>>,
      chunk: seq<byte>)
    requires Framing(stream, bytes, consumed, scanned, yielded)
    ensures Framing(stream + chunk, bytes + chunk, consumed, scanned, yielded)
    ensures (bytes + chunk)[consumed..] == bytes[consumed..] + chunk
  {
    assert (bytes + chunk)[consumed..] == bytes[consumed..] + chunk;
    Associate(Written(yielded), bytes[consumed..], chunk);
  }

  /** A newline at `newline` ends the next line. */
  lemma NextLine(bytes: seq<byte>, consumed: nat, newline: nat)
    requires consumed <= newline < |bytes| && bytes[newline] == NEWLINE && NoNewline(bytes, consumed, newline)
    ensures !HasNewline(bytes[consumed..newline])
    ensures HasNewline(bytes[consumed..])
    ensures FirstLineOf(bytes[consumed..]) == bytes[consumed..newline]
    ensures AfterFirstLine(bytes[consumed..]) == bytes[newline + 1..]
  {
    var unread := bytes[consumed..];
    assert unread[..newline - consumed] == bytes[consumed..newline];
    FirstIs(unread, newline - consumed);
  }

  lemma FramingNext(stream: seq<byte>, bytes: seq<byte>, consumed: nat, scanned: nat, yielded: seq<seq<byte>>,
      newline: nat)
    requires Framing(stream, bytes, consumed, scanned, yielded)
    requires scanned <= newline < |bytes| && bytes[newline] == NEWLINE && !HasNewline(bytes[consumed..newline])
    ensures Framing(stream, bytes, newline + 1, newline + 1, yielded + [bytes[consumed..newline]])
  {
    var line := bytes[consumed..newline];
    WrittenAppend(yielded, line);
    assert bytes[consumed..] == line + [NEWLINE] + bytes[newline + 1..];
    assert Written(yielded + [line]) + bytes[newline + 1..] == Written(yielded) + bytes[consumed..];
  }

  /** Every byte before the scan position was examined once, every later one never. */
  ghost predicate ExaminedOnce(examined: seq<nat>, size: nat, scannedTo: nat) {
    && |examined| == size
    && forall i :: 0 <= i < size ==> examined[i] == if i < scannedTo then 1 else 0
  }

  /** No byte was moved twice, and none at or after `from` was moved at all. */
  ghost predicate MovedOnce(moved: seq<nat>, size: nat, from: nat) {
    && |moved| == size
    && (forall i :: 0 <= i < size ==> moved[i] <= 1)
    && (forall i :: from <= i < size ==> moved[i] == 0)
  }

  ghost function MovedFrom(moved: seq<nat>, from: nat): seq<nat> {
    seq(|moved|, i requires 0 <= i < |moved| => if i < from then moved[i] else moved[i] + 1)
  }

  class JsonlBuffer {
    var bytes: seq<byte>
    var consumed: nat
    var scanned: nat
    // Everything that was ever appended, and what happened to each byte of it.
    ghost var stream: seq<byte>
    ghost var examined: seq<nat>
    ghost var moved: seq<nat>
    // How many bytes at the front of the buffer have been moved there.
    ghost var shifted: nat
    ghost var yielded: seq<seq<byte>>

    ghost predicate Valid()
      reads this
    {
      && Framing(stream, bytes, consumed, scanned, yielded)
      && ExaminedOnce(examined, |stream|, |stream| - |bytes| + scanned)
      && MovedOnce(moved, |stream|, |stream| - |bytes| + shifted)
      && (if consumed == 0 then shifted <= scanned else shifted <= consumed)
    }

    /** The bytes that have not been returned in a frame yet. */
    function Unread(): seq<byte>
      requires consumed <= |bytes|
      reads this
    {
      bytes[consumed..]
    }

    constructor ()
      ensures Valid() && stream == [] && yielded == []
    {
      bytes, consumed, scanned := [], 0, 0;
      stream, examined, moved, shifted, yielded := [], [], [], 0, [];
    }

    method Append(chunk: seq<byte>)
      requires Valid()
      modifies this
      ensures Valid() && stream == old(stream) + chunk && yielded == old(yielded)
      ensures Unread() == old(Unread()) + chunk
    {
      FramingAppend(stream, bytes, consumed, scanned, yielded, chunk);
      bytes := bytes + chunk;
      stream := stream + chunk;
      examined := examined + seq(|chunk|, _ => 0);
      moved := moved + seq(|chunk|, _ => 0);
    }

    method HasBufferedData() returns (buffered: bool)
      requires Valid()
      ensures buffered <==> Unread() != []
    {
      buffered := consumed < |bytes|;
    }

    /**
      The next complete frame. A frame is consumed whether or not it decodes.
      Without one, the buffer shifts its partial tail to the front, once.
    */
    method DecodeNext(keepDelimiter: bool) returns (frame: Option<seq<byte>>)
      requires Valid()
      modifies this
      ensures Valid() && stream == old(stream)
      ensures frame.Some? <==> 10 in old(Unread())
      ensures frame.Some? ==>
        var unread := old(Unread()); var p := FirstNewline(unread);
        && Unread() == unread[p + 1..]
        && frame.value == if keepDelimiter then unread[..p + 1]
                          else if p > 0 && unread[p - 1] == 13 then unread[..p - 1] else unread[..p]
      ensures frame.Some? ==>
        && yielded == old(yielded) + [FirstLineOf(old(Unread()))]
        && frame.value == Frame(FirstLineOf(old(Unread())), keepDelimiter)
        && Unread() == AfterFirstLine(old(Unread()))
      ensures frame.None? ==> yielded == old(yielded) && Unread() == old(Unread()) && consumed == 0
    {
      var newline := Find();
      if newline < |bytes| {
        FirstFrameMeans(Unread(), keepDelimiter);
        var line := TakeLine(newline);
        frame := Some(Frame(line, keepDelimiter));
      } else {
        Exhaust();
        frame := None;
      }
    }

    /** The search has looked at every unread byte up to and including `newline`. */
    ghost predicate Searched(newline: nat)
      reads this
    {
      && Framing(stream, bytes, consumed, scanned, yielded)
      && scanned <= newline <= |bytes|
      && NoNewline(bytes, consumed, newline)
      && (newline < |bytes| ==> bytes[newline] == NEWLINE)
      && ExaminedOnce(examined, |stream|, |stream| - |bytes| + newline + if newline < |bytes| then 1 else 0)
      && MovedOnce(moved, |stream|, |stream| - |bytes| + shifted)
      && (if consumed == 0 then shifted <= scanned else shifted <= consumed)
    }

    /** The newline search: it starts where the last one stopped. */
    method Find() returns (newline: nat)
      requires Valid()
      modifies this`examined
      ensures Searched(newline)
    {
      newline := scanned;
      ghost var base := |stream| - |bytes|;
      while newline < |bytes|
        invariant scanned <= newline <= |bytes| && NoNewline(bytes, consumed, newline)
        invariant ExaminedOnce(examined, |stream|, base + newline)
      {
        examined := examined[base + newline := examined[base + newline] + 1];
        if bytes[newline] == NEWLINE {
          return;
        }
        newline := newline + 1;
      }
    }

    /** The search found a newline: everything before it is the next line. */
    method TakeLine(newline: nat) returns (line: seq<byte>)
      requires Searched(newline) && newline < |bytes|
      modifies this`consumed, this`scanned, this`yielded
      ensures Valid()
      ensures HasNewline(old(Unread())) && line == FirstLineOf(old(Unread()))
      ensures Unread() == AfterFirstLine(old(Unread())) && yielded == old(yielded) + [line]
    {
      NextLine(bytes, consumed, newline);
      FramingNext(stream, bytes, consumed, scanned, yielded, newline);
      line := bytes[consumed..newline];
      consumed := newline + 1;
      scanned := consumed;
      yielded := yielded + [line];
    }

    /** Nothing complete is left: drops the returned frames and moves the tail to the front. */
    method Exhaust()
      requires Searched(|bytes|)
      modifies this`bytes, this`consumed, this`scanned, this`moved, this`shifted
      ensures Valid() && consumed == 0 && !HasNewline(old(Unread())) && bytes == old(Unread())
    {
      scanned := |bytes|;
      if consumed != 0 {
        moved := MovedFrom(moved, |stream| - |bytes| + consumed);
        bytes := bytes[consumed..];
        scanned := scanned - consumed;
        consumed := 0;
        shifted := |bytes|;
      }
    }

    /** Over any run the search and the compactions touch each byte at most once each. */
    lemma WorkIsLinear()
      requires Valid()
      ensures forall i :: 0 <= i < |stream| ==> examined[i] <= 1 && moved[i] <= 1
      ensures Sum(examined) + Sum(moved) <= 2 * |stream|
    {
      SumAtMost(examined);
      SumAtMost(moved);
    }
  }

  // ----- Any interleaving of appends and reads -----

  datatype Op = Append(chunk: seq<byte>) | Next

  function Appended(ops: seq<Op>): seq<byte> {
    if ops == [] then []
    else
      var last := ops[|ops| - 1];
      Appended(ops[..|ops| - 1]) + if last.Append? then last.chunk else []
  }

  /**
    Whatever the chunks and whenever the reads: the frames returned so far, and
    the lines still in the buffer, are the lines of all bytes appended. They are
    also what the blocking reader receives from the same bytes.
  */
  method Interleave(ops: seq<Op>, keepDelimiter: bool) returns (frames: seq<seq<byte>>, buffer: JsonlBuffer)
    ensures fresh(buffer) && buffer.Valid() && buffer.stream == Appended(ops)
    ensures Lines(Appended(ops)) == buffer.yielded + Lines(buffer.Unread())
    ensures Partial(Appended(ops)) == Partial(buffer.Unread())
    ensures frames == Frames(buffer.yielded, keepDelimiter)
    ensures !keepDelimiter ==> frames + ReceivedFrames(buffer.Unread()) == ReceivedFrames(Appended(ops))
  {
    buffer := new JsonlBuffer();
    frames := [];
    for i := 0 to |ops|
      invariant fresh(buffer) && buffer.Valid() && buffer.stream == Appended(ops[..i])
      invariant frames == Frames(buffer.yielded, keepDelimiter)
    {
      assert ops[..i + 1][..i] == ops[..i];
      match ops[i] {
        case Append(chunk) =>
          buffer.Append(chunk);
        case Next =>
          ghost var yielded, unread := buffer.yielded, buffer.Unread();
          var frame := buffer.DecodeNext(keepDelimiter);
          if frame.Some? {
            FramesAppend(yielded, FirstLineOf(unread), keepDelimiter);
            frames := frames + [frame.value];
          }
      }
    }
    assert ops[..|ops|] == ops;
    LinesOfWritten(buffer.yielded, buffer.Unread());
    ReaderAgreesWithBuffer(Appended(ops));
    ReaderAgreesWithBuffer(buffer.Unread());
    FramesConcat(buffer.yielded, Lines(buffer.Unread()), false);
  }

  /** Reading on until nothing is left yields exactly the lines of the stream. */
  method Drain(buffer: JsonlBuffer, keepDelimiter: bool) returns (frames: seq<seq<byte>>)
    requires buffer.Valid()
    modifies buffer
    ensures buffer.Valid() && buffer.stream == old(buffer.stream)
    ensures buffer.yielded == Lines(buffer.stream) && buffer.Unread() == Partial(buffer.stream)
    ensures frames == Frames(Lines(old(buffer.Unread())), keepDelimiter)
  {
    frames := [];
    ghost var seen: seq<seq<byte>> := [];
    while true
      invariant buffer.Valid() && buffer.stream == old(buffer.stream)
      invariant Lines(old(buffer.Unread())) == seen + Lines(buffer.Unread())
      invariant frames == Frames(seen, keepDelimiter)
      decreases |buffer.Unread()|
    {
      ghost var unread := buffer.Unread();
      var frame := buffer.DecodeNext(keepDelimiter);
      if frame.None? {
        LinesOfWritten(buffer.yielded, buffer.Unread());
        return;
      }
      Associate(seen, [FirstLineOf(unread)], Lines(buffer.Unread()));
      FramesAppend(seen, FirstLineOf(unread), keepDelimiter);
      frames := frames + [frame.value];
      seen := seen + [FirstLineOf(unread)];
    }
  }

  // ----- The blocking reader -----

  datatype Received = Message(frame: seq<byte>) | EndOfStream | UnexpectedEof

  /** What one `receive` makes of the unread stream. */
  function Receive(unread: seq<byte>): (Received, seq<byte>) {
    if unread == [] then (EndOfStream, [])
    else if !HasNewline(unread) then (UnexpectedEof, [])
    else (Message(StripReturn(FirstLineOf(unread))), AfterFirstLine(unread))
  }

  /** Nothing, a message cut short, or the first line without its newline or CRLF. */
  lemma ReceiveMeans(unread: seq<byte>)
    ensures unread == [] ==> Receive(unread) == (EndOfStream, [])
    ensures unread != [] && 10 !in unread ==> Receive(unread) == (UnexpectedEof, [])
    ensures 10 in unread ==>
      var p := FirstNewline(unread);
      Receive(unread)
      == (Message(if p > 0 && unread[p - 1] == 13 then unread[..p - 1] else unread[..p]), unread[p + 1..])
  {
    if 10 in unread {
      FirstFrameMeans(unread, false);
    }
  }

  class JsonlReader {
    var stream: seq<byte>
    var position: nat
    var buffer: seq<byte>

    ghost predicate Valid()
      reads this
    {
      position <= |stream|
    }

    constructor (stream: seq<byte>)
      ensures Valid() && this.stream == stream && position == 0
    {
      this.stream, position, buffer := stream, 0, [];
    }

    /** Appends bytes up to and including the delimiter, or the end of the stream. */
    method ReadUntilNewline()
      requires Valid() && buffer == []
      modifies this`position, this`buffer
      ensures Valid() && position == old(position) + |buffer|
      ensures buffer == stream[old(position)..position]
      ensures if buffer != [] && buffer[|buffer| - 1] == NEWLINE then !HasNewline(buffer[..|buffer| - 1])
              else position == |stream| && !HasNewline(buffer)
    {
      while position < |stream|
        invariant Valid() && position == old(position) + |buffer|
        invariant buffer == stream[old(position)..position] && !HasNewline(buffer)
      {
        ghost var before := buffer;
        buffer := buffer + [stream[position]];
        position := position + 1;
        assert buffer[..|buffer| - 1] == before;
        if buffer[|buffer| - 1] == NEWLINE {
          return;
        }
      }
    }

    method ReceiveNext() returns (received: Received)
      requires Valid()
      modifies this
      ensures Valid() && stream == old(stream)
      ensures (received, stream[position..]) == Receive(old(stream[position..]))
    {
      buffer := [];
      ghost var unread := stream[position..];
      ReadUntilNewline();
      received := Decode(unread);
    }

    /** What the bytes that were read are: a message, the end of the stream, or a message cut short. */
    method Decode(ghost unread: seq<byte>) returns (received: Received)
      requires Valid() && |buffer| <= |unread| && buffer == unread[..|buffer|]
      requires if buffer != [] && buffer[|buffer| - 1] == NEWLINE then !HasNewline(buffer[..|buffer| - 1])
               else |buffer| == |unread| && !HasNewline(buffer)
      modifies this`buffer
      ensures (received, unread[|old(buffer)|..]) == Receive(unread)
    {
      if buffer == [] {
        return EndOfStream;
      }
      if buffer[|buffer| - 1] != NEWLINE {
        assert unread[..|buffer|] == unread && unread[|buffer|..] == [];
        return UnexpectedEof;
      }
      assert unread[..|buffer| - 1] == buffer[..|buffer| - 1];
      FirstIs(unread, |buffer| - 1);
      buffer := buffer[..|buffer| - 1];
      if buffer != [] && buffer[|buffer| - 1] == RETURN {
        buffer := buffer[..|buffer| - 1];
      }
      return Message(buffer);
    }
  }

  /** Everything that the reader receives before the end of the stream or an error. */
  function ReceivedFrames(unread: seq<byte>): seq<seq<byte>>
    decreases |unread|
  {
    match Receive(unread)
    case (Message(frame), rest) => [frame] + ReceivedFrames(rest)
    case _ => []
  }

  /** The reader yields the frames that the buffer yields, and then reports the partial line. */
  lemma {:induction false} ReaderAgreesWithBuffer(stream: seq<byte>)
    ensures ReceivedFrames(stream) == Frames(Lines(stream), false)
    decreases |stream|
  {
    if stream != [] && HasNewline(stream) {
      ReaderAgreesWithBuffer(stream[FirstNewline(stream) + 1..]);
    }
  }

  // ----- The writer -----

  class JsonlWriter {
    var written: seq<byte>

    ghost var sent: seq<seq<byte>>

    constructor ()
      ensures written == Written(sent) && sent == []
    {
      written, sent := [], [];
    }

    /** Appends one serialized message and the delimiter. */
    method Send(message: seq<byte>)
      requires written == Written(sent)
      modifies this
      ensures sent == old(sent) + [message] && written == Written(sent) == old(written) + message + [10]
    {
      WrittenAppend(sent, message);
      written := written + message;
      written := written + [NEWLINE];
      sent := sent + [message];
    }
  }

  /** No newline and no final carriage return, as RFC 8259, section 7, promises of a serialized message. */
  predicate Clean(message: seq<byte>) {
    10 !in message && (message == [] || message[|message| - 1] != 13)
  }

  function Newlines(s: seq<byte>): nat {
    if s == [] then 0 else (if s[0] == NEWLINE then 1 else 0) + Newlines(s[1..])
  }

  lemma {:induction false} NewlinesAppend(s: seq<byte>, t: seq<byte>)
    ensures Newlines(s + t) == Newlines(s) + Newlines(t)
  {
    if s == [] {
      assert s + t == t;
    } else {
      assert (s + t)[1..] == s[1..] + t;
      NewlinesAppend(s[1..], t);
    }
  }

  lemma {:induction false} NewlinesNone(s: seq<byte>)
    ensures Newlines(s) == 0 <==> !HasNewline(s)
  {
    if s != [] {
      assert s == [s[0]] + s[1..];
      NewlinesNone(s[1..]);
    }
  }

  lemma {:induction false} LinesCount(s: seq<byte>)
    ensures |Lines(s)| == Newlines(s)
    decreases |s|
  {
    NewlinesNone(s);
    if HasNewline(s) {
      var p := FirstNewline(s);
      assert s == s[..p] + ([NEWLINE] + s[p + 1..]);
      NewlinesAppend(s[..p], [NEWLINE] + s[p + 1..]);
      NewlinesNone(s[..p]);
      LinesCount(s[p + 1..]);
    }
  }

  lemma {:induction false} WrittenCount(messages: seq<seq<byte>>)
    ensures Newlines(Written(messages)) >= |messages|
    ensures Newlines(Written(messages)) == |messages| ==> Complete(messages)
  {
    if messages != [] {
      var before, message := messages[..|messages| - 1], messages[|messages| - 1];
      WrittenCount(before);
      NewlinesAppend(Written(before) + message, [NEWLINE]);
      NewlinesAppend(Written(before), message);
      NewlinesNone(message);
      assert Newlines([NEWLINE]) == 1 + Newlines([]);
      assert messages == before + [message];
    }
  }

  /**
    Messages that are written come back as they were, in order and with nothing
    left over, exactly when none contains a newline or ends in a carriage return.
  */
  lemma WrittenMessagesComeBack(messages: seq<seq<byte>>)
    ensures var clean :=
        forall m: seq<byte> :: m in messages ==> 10 !in m && (m == [] || m[|m| - 1] != 13);
      && (Frames(Lines(Written(messages)), false) == messages <==> clean)
      && (ReceivedFrames(Written(messages)) == messages <==> clean)
      && (clean ==> Partial(Written(messages)) == [])
  {
    ReaderAgreesWithBuffer(Written(messages));
    assert (forall i :: 0 <= i < |messages| ==> Clean(messages[i])) <==> forall m :: m in messages ==> Clean(m);
    if Complete(messages) {
      LinesOfWritten(messages, []);
      assert Written(messages) + [] == Written(messages);
      FramesAre(messages, messages);
    } else {
      LinesCount(Written(messages));
      WrittenCount(messages);
      assert |Frames(Lines(Written(messages)), false)| != |messages|;
    }
  }

  lemma FramesAre(lines: seq<seq<byte>>, messages: seq<seq<byte>>)
    requires |lines| == |messages|
    ensures Frames(lines, false) == messages
      <==> forall i :: 0 <= i < |messages| ==> StripReturn(lines[i]) == messages[i]
  {
    assert forall i :: 0 <= i < |lines| ==> Frames(lines, false)[i] == StripReturn(lines[i]);
  }
}
