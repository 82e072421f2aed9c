/** The cap on captured output: the batch form of the Kubernetes runtime and the streaming form of
  * the Docker runtime. */
module OutputBudget {
  import opened Strings
  import opened Utf8

  /** The truncation suffix, the same text in both runtimes. */
  function Notice(limit: nat): string {
    "\n[output truncated at " + Decimal(limit) + " bytes]\n"
  }

  // ---------------------------------------------------------------- batch (Kubernetes)

  /** `_bounded_outputs`. */
  function BoundedOutputs(stdout: string, stderr: string, limit: nat): (string, string) {
    var capturedOut := Take(Encode(stdout), limit);
    var remaining := if limit >= |capturedOut| then limit - |capturedOut| else 0;
    var capturedErr := Take(Encode(stderr), remaining);
    var truncated := |Encode(stdout)| + |Encode(stderr)| > limit;
    (Decode(capturedOut), Decode(capturedErr) + if truncated then Notice(limit) else "")
  }

  /** Each channel is a character prefix, the two channels together hold at most one replacement
    * for a split character, the captured text is at most two bytes over the cap when encoded again,
    * and the notice appears exactly when something was dropped. */
  lemma BoundedOutputsTheorem(stdout: string, stderr: string, limit: nat)
    ensures var k := CharsWithin(stdout, limit);
      var room := if |Encode(stdout)| < limit then limit - |Encode(stdout)| else 0;
      var j := CharsWithin(stderr, room);
      var out, err := stdout[..k] + CutMark(stdout, limit), stderr[..j] + CutMark(stderr, room);
      var total := |Encode(stdout)| + |Encode(stderr)|;
      && BoundedOutputs(stdout, stderr, limit)
         == (out, err + if total > limit then "\n[output truncated at " + Decimal(limit) + " bytes]\n" else "")
      && |CutMark(stdout, limit)| + |CutMark(stderr, room)| <= 1
      && |Encode(out)| + |Encode(err)| <= limit + 2
      && (total <= limit ==> out == stdout && err == stderr)
  {
    hide Decode, EncodeChar, Decimal;
    var room := if |Encode(stdout)| < limit then limit - |Encode(stdout)| else 0;
    TruncatedDecode(stdout, limit);
    TruncatedDecode(stderr, room);
    TruncatedSize(stdout, limit);
    TruncatedSize(stderr, room);
    if |Encode(stdout)| >= limit {
      assert stderr[..0] == "";
      assert CharsWithin(stderr, 0) == 0;
      assert Encode(stderr[..0]) == [];
    } else {
      var k := CharsWithin(stdout, limit);
      assert CutMark(stdout, limit) == "" && stdout[..k] == stdout;
      assert stdout[..k] + "" == stdout;
    }
    if |Encode(stdout)| + |Encode(stderr)| <= limit {
      var j := CharsWithin(stderr, room);
      assert CutMark(stdout, limit) == "" && CutMark(stderr, room) == "";
      assert stderr[..j] + "" == stderr && stdout[..CharsWithin(stdout, limit)] + "" == stdout;
    }
  }

  // ---------------------------------------------------------------- streaming (Docker)

  datatype Stream = Stdout | Stderr

  /** A message of the attached stream: a demultiplexed pair, or the reader's failure. */
  datatype Message = Output(stdout: seq<byte>, stderr: seq<byte>) | Broken

  datatype Chunk = Data(stream: Stream, text: string) | Status(exitCode: int)

  /** How one exec ends: its status was delivered, the reader failed, the host deadline passed (the
    * sandbox is destroyed), or the in-container timeout killed the process. */
  datatype Ending = Finished | ReaderFailed | Expired | ProcessTimedOut

  type Payload = (Stream, seq<byte>)

  /** The non-empty payloads in the order they are handled: stdout first within a message. */
  function Payloads(messages: seq<Message>): seq<Payload>
    requires forall i :: 0 <= i < |messages| ==> messages[i].Output?
  {
    if messages == [] then []
    else PairPayloads(messages[0]) + Payloads(messages[1..])
  }

  function PairPayloads(message: Message): seq<Payload>
    requires message.Output?
  {
    (if message.stdout != [] then [(Stdout, message.stdout)] else [])
    + (if message.stderr != [] then [(Stderr, message.stderr)] else [])
  }

  function Tag(stream: Stream, bytes: seq<byte>): seq<(Stream, byte)> {
    seq(|bytes|, i requires 0 <= i < |bytes| => (stream, bytes[i]))
  }

  /** The interleaved stream: every byte with the stream it was written to. */
  function Tagged(payloads: seq<Payload>): seq<(Stream, byte)> {
    if payloads == [] then [] else Tag(payloads[0].0, payloads[0].1) + Tagged(payloads[1..])
  }

  function TotalBytes(payloads: seq<Payload>): nat {
    if payloads == [] then 0 else |payloads[0].1| + TotalBytes(payloads[1..])
  }

  /** What fits of one payload: nothing at all is not delivered. */
  function Piece(payload: Payload, room: nat): seq<Payload> {
    if Take(payload.1, room) == [] then [] else [(payload.0, Take(payload.1, room))]
  }

  function RoomLeft(room: nat, used: nat): nat {
    if used < room then room - used else 0
  }

  /** The payload pieces that fit in a budget. */
  function Captured(payloads: seq<Payload>, room: nat): seq<Payload> {
    if payloads == [] then []
    else Piece(payloads[0], room) + Captured(payloads[1..], RoomLeft(room, |payloads[0].1|))
  }

  /** The chunks that carry captured pieces. */
  function Chunks(pieces: seq<Payload>): seq<Chunk> {
    if pieces == [] then [] else [Data(pieces[0].0, Decode(pieces[0].1))] + Chunks(pieces[1..])
  }

  /** The text of one stream, as `exec` joins its chunks. */
  function Joined(chunks: seq<Chunk>, stream: Stream): string {
    if chunks == [] then ""
    else (if chunks[0].Data? && chunks[0].stream == stream then chunks[0].text else "") + Joined(chunks[1..], stream)
  }

  /** The text of every chunk, in order, as the execution log keeps it. */
  function Logged(chunks: seq<Chunk>): string {
    if chunks == [] then "" else (if chunks[0].Data? then chunks[0].text else "") + Logged(chunks[1..])
  }

  /** `_stream_data`: the text, what is left of the budget, and whether something was dropped. */
  function StreamData(payload: seq<byte>, remaining: nat): (string, nat, bool) {
    if remaining == 0 then ("", 0, payload != [])
    else
      var captured := Take(payload, remaining);
      (Decode(captured), remaining - |captured|, |payload| > remaining)
  }

  /** The leading messages that carry output, before the reader's failure if there is one. */
  function Readable(messages: seq<Message>): (prefix: seq<Message>)
    ensures prefix <= messages
    ensures forall i :: 0 <= i < |prefix| ==> prefix[i].Output?
    ensures |prefix| < |messages| ==> messages[|prefix|].Broken?
  {
    if messages == [] || messages[0].Broken? then [] else [messages[0]] + Readable(messages[1..])
  }

  /** What the loop of `_iter_exec` knows after handling some payloads. */
  ghost predicate Accounts(handled: seq<Payload>, limit: nat, remaining: nat, chunks: seq<Chunk>, body: string,
                           truncated: bool) {
    && remaining == RoomLeft(limit, TotalBytes(handled))
    && chunks == Chunks(Captured(handled, limit))
    && body == Logged(chunks)
    && (truncated <==> TotalBytes(handled) > limit)
  }

  lemma DeliveredChunks(handled: seq<Payload>, payload: Payload, limit: nat, piece: seq<byte>)
    requires piece == Take(payload.1, RoomLeft(limit, TotalBytes(handled)))
    ensures var before := Chunks(Captured(handled, limit));
      var after := Chunks(Captured(handled + [payload], limit));
      if piece == [] then after == before
      else after == before + [Data(payload.0, Decode(piece))] && Logged(after) == Logged(before) + Decode(piece)
  {
    hide Decode;
    CapturedSnoc(handled, payload, limit);
    var before := Captured(handled, limit);
    if piece == [] {
      assert before + [] == before;
    } else {
      var chunk := Data(payload.0, Decode(piece));
      assert [(payload.0, piece)][1..] == [] && [chunk][1..] == [];
      assert Chunks([(payload.0, piece)]) == [chunk];
      ChunksConcat(before, [(payload.0, piece)]);
      LoggedConcat(Chunks(before), [chunk]);
      assert Logged([chunk]) == chunk.text + "" == chunk.text;
    }
  }

  /** One payload of `_iter_exec`, shared by the stdout and the stderr branch. */
  method Deliver(stream: Stream, payload: seq<byte>, remaining: nat, chunks: seq<Chunk>, body: string, truncated: bool,
                 ghost handled: seq<Payload>, ghost limit: nat)
    returns (remaining': nat, chunks': seq<Chunk>, body': string, truncated': bool)
    requires payload != []
    requires Accounts(handled, limit, remaining, chunks, body, truncated)
    ensures Accounts(handled + [(stream, payload)], limit, remaining', chunks', body', truncated')
  {
    hide Captured, Chunks, Logged, DecodeHead;
    var (data, left, dropped) := StreamData(payload, remaining);
    remaining', chunks', body', truncated' := left, chunks, body, truncated || dropped;
    DeliveredChunks(handled, (stream, payload), limit, Take(payload, remaining));
    CapturedSnoc(handled, (stream, payload), limit);
    if data != "" {
      body' := body' + data;
      chunks' := chunks' + [Data(stream, data)];
    }
  }

  /** One message of the loop: its stdout, then its stderr. */
  method DeliverMessage(message: Message, remaining: nat, chunks: seq<Chunk>, body: string, truncated: bool,
                        ghost handled: seq<Payload>, ghost limit: nat)
    returns (remaining': nat, chunks': seq<Chunk>, body': string, truncated': bool)
    requires message.Output?
    requires Accounts(handled, limit, remaining, chunks, body, truncated)
    ensures Accounts(handled + PairPayloads(message), limit, remaining', chunks', body', truncated')
  {
    hide Accounts;
    remaining', chunks', body', truncated' := remaining, chunks, body, truncated;
    ghost var now := handled;
    if message.stdout != [] {
      remaining', chunks', body', truncated' :=
        Deliver(Stdout, message.stdout, remaining', chunks', body', truncated', now, limit);
      now := now + [(Stdout, message.stdout)];
    }
    if message.stderr != [] {
      remaining', chunks', body', truncated' :=
        Deliver(Stderr, message.stderr, remaining', chunks', body', truncated', now, limit);
      now := now + [(Stderr, message.stderr)];
    }
    assert now == handled + PairPayloads(message);
  }

  /** The messages that are handled, if the host deadline falls before a given one of them. */
  function Handled(messages: seq<Message>, expiresAt: Option<nat>): (handled: seq<Message>)
    ensures forall i :: 0 <= i < |handled| ==> handled[i].Output?
  {
    var readable := Readable(messages);
    if expiresAt.Some? && expiresAt.value <= |readable| then readable[..expiresAt.value] else readable
  }

  /** Why the stream stops before its end marker, if it does. */
  function Stopped(messages: seq<Message>, expiresAt: Option<nat>): Option<Ending> {
    var readable := Readable(messages);
    if expiresAt.Some? && expiresAt.value <= |readable| then Some(Expired)
    else if |readable| < |messages| then Some(ReaderFailed)
    else None
  }

  ghost predicate AllOutput(messages: seq<Message>) {
    forall i :: 0 <= i < |messages| ==> messages[i].Output?
  }

  lemma {:induction false} ReadableReaches(messages: seq<Message>, n: nat)
    requires n <= |messages| && AllOutput(messages[..n])
    ensures n <= |Readable(messages)|
  {
    if n > 0 {
      assert messages[..n][0] == messages[0] && messages[..n][1..] == messages[1..][..n - 1];
      ReadableReaches(messages[1..], n - 1);
    }
  }

  /** How a stream ends, from its messages: with the reader's failure, once all before it is handled; with
    * the host deadline, once all that came in time is handled, whatever comes after; or as it should,
    * exactly if every message is output and the deadline does not fall within them. */
  lemma StoppedExactly(messages: seq<Message>, expiresAt: Option<nat>)
    ensures forall n | 0 <= n < |messages| && AllOutput(messages[..n]) && messages[n].Broken? ::
      (expiresAt.Some? ==> expiresAt.value > n) ==>
        Stopped(messages, expiresAt) == Some(ReaderFailed) && Handled(messages, expiresAt) == messages[..n]
    ensures expiresAt.Some? && expiresAt.value <= |messages| && AllOutput(messages[..expiresAt.value]) ==>
      Stopped(messages, expiresAt) == Some(Expired) && Handled(messages, expiresAt) == messages[..expiresAt.value]
    ensures Stopped(messages, expiresAt) == None
       <==> AllOutput(messages) && (expiresAt.Some? ==> expiresAt.value > |messages|)
    ensures Stopped(messages, expiresAt) == None ==> Handled(messages, expiresAt) == messages
  {
    forall n | 0 <= n < |messages| && AllOutput(messages[..n]) ensures n <= |Readable(messages)| {
      ReadableReaches(messages, n);
    }
    assert messages[..|messages|] == messages;
    if AllOutput(messages) {
      ReadableReaches(messages, |messages|);
    }
    if expiresAt.Some? && expiresAt.value <= |messages| && AllOutput(messages[..expiresAt.value]) {
      ReadableReaches(messages, expiresAt.value);
    }
  }

  lemma NothingHandled(limit: nat)
    ensures Accounts([], limit, limit, [], "", false) && Payloads([]) == []
  {
  }

  /** The loop of `_iter_exec`: consume the attached stream under the budget. */
  method Consume(messages: seq<Message>, limit: nat, expiresAt: Option<nat>)
    returns (chunks: seq<Chunk>, body: string, truncated: bool, stopped: Option<Ending>)
    ensures var handled := Payloads(Handled(messages, expiresAt));
      && chunks == Chunks(Captured(handled, limit))
      && body == Logged(chunks)
      && (truncated <==> TotalBytes(handled) > limit)
    ensures stopped == Stopped(messages, expiresAt)
  {
    NothingHandled(limit);
    hide Captured, Chunks, Logged, TotalBytes, PairPayloads;
    var remaining := limit;
    truncated := false;
    chunks, body := [], "";
    ghost var readable := Readable(messages);
    ghost var handled: seq<Payload> := [];
    var n := 0;
    while n < |messages| && expiresAt != Some(n) && messages[n].Output?
      invariant 0 <= n <= |readable|
      invariant expiresAt.Some? ==> n <= expiresAt.value
      invariant handled == Payloads(readable[..n])
      invariant Accounts(handled, limit, remaining, chunks, body, truncated)
    {
      remaining, chunks, body, truncated :=
        DeliverMessage(messages[n], remaining, chunks, body, truncated, handled, limit);
      PayloadsSnoc(readable, n);
      handled := handled + PairPayloads(messages[n]);
      n := n + 1;
    }
    assert readable[..|readable|] == readable;
    stopped := if expiresAt == Some(n) then Some(Expired) else if n < |messages| then Some(ReaderFailed) else None;
  }

  /** `_iter_exec` after the process was started. The log is kept only when the stream ended. */
  method IterExec(display: string, messages: seq<Message>, limit: nat, expiresAt: Option<nat>, exitCode: int,
                  wrapped: bool)
    returns (chunks: seq<Chunk>, log: Option<string>, ending: Ending)
    ensures var handled := Payloads(Handled(messages, expiresAt));
      var data := Chunks(Captured(handled, limit));
      var notice := "\n[output truncated at " + Decimal(limit) + " bytes]\n";
      var full := data + if TotalBytes(handled) > limit then [Data(Stderr, notice)] else [];
      var start := "$ " + display + "\n" + Logged(full);
      var code := if exitCode < 0 then "-" + Decimal(-exitCode) else Decimal(exitCode);
      if Stopped(messages, expiresAt).Some? then
        ending == Stopped(messages, expiresAt).value && chunks == data && log == None
      else if wrapped && (exitCode == 124 || exitCode == 137) then
        ending == ProcessTimedOut && chunks == full && log == Some(start + "[timed out]\n")
      else
        && ending == Finished && chunks == full + [Status(exitCode)]
        && log == Some(start + "[exit=" + code + "]\n")
  {
    hide Captured, Chunks, Payloads, Handled;
    var body, truncated, stopped;
    chunks, body, truncated, stopped := Consume(messages, limit, expiresAt);
    if stopped.Some? {
      return chunks, None, stopped.value;
    }
    if truncated {
      var suffix := Notice(limit);
      NoticeLogged(chunks, suffix);
      body := body + suffix;
      chunks := chunks + [Data(Stderr, suffix)];
    } else {
      assert chunks + [] == chunks;
    }
    if wrapped && (exitCode == 124 || exitCode == 137) {
      return chunks, Some("$ " + display + "\n" + body + "[timed out]\n"), ProcessTimedOut;
    }
    var code := if exitCode < 0 then "-" + Decimal(-exitCode) else Decimal(exitCode);
    log := Some("$ " + display + "\n" + body + "[exit=" + code + "]\n");
    chunks := chunks + [Status(exitCode)];
    ending := Finished;
  }

  lemma NoticeLogged(chunks: seq<Chunk>, suffix: string)
    ensures Logged(chunks + [Data(Stderr, suffix)]) == Logged(chunks) + suffix
  {
    LoggedConcat(chunks, [Data(Stderr, suffix)]);
    assert [Data(Stderr, suffix)][1..] == [];
    assert suffix + "" == suffix;
  }

  /** The truncation notice of a stream, as a chunk. */
  function NoticeChunk(payloads: seq<Payload>, limit: nat): seq<Chunk> {
    if TotalBytes(payloads) > limit then [Data(Stderr, Notice(limit))] else []
  }

  // ---------------------------------------------------------------- facts about the stream

  lemma PayloadsSnoc(messages: seq<Message>, n: nat)
    requires n < |messages| && forall i :: 0 <= i < |messages| ==> messages[i].Output?
    ensures Payloads(messages[..n + 1]) == Payloads(messages[..n]) + PairPayloads(messages[n])
    decreases n
  {
    if n == 0 {
      assert messages[..1][1..] == [] && messages[..0] == [];
    } else {
      assert messages[..n + 1][1..] == messages[1..][..n];
      assert messages[..n][1..] == messages[1..][..n - 1];
      PayloadsSnoc(messages[1..], n - 1);
    }
  }

  lemma {:induction false} CapturedConcat(left: seq<Payload>, right: seq<Payload>, room: nat)
    ensures Captured(left + right, room) == Captured(left, room) + Captured(right, RoomLeft(room, TotalBytes(left)))
    ensures TotalBytes(left + right) == TotalBytes(left) + TotalBytes(right)
  {
    hide Piece;
    if left == [] {
      assert left + right == right;
    } else {
      assert (left + right)[0] == left[0] && (left + right)[1..] == left[1..] + right;
      CapturedConcat(left[1..], right, RoomLeft(room, |left[0].1|));
    }
  }

  lemma CapturedSnoc(payloads: seq<Payload>, last: Payload, room: nat)
    ensures Captured(payloads + [last], room)
         == Captured(payloads, room) + Piece(last, RoomLeft(room, TotalBytes(payloads)))
    ensures TotalBytes(payloads + [last]) == TotalBytes(payloads) + |last.1|
  {
    CapturedConcat(payloads, [last], room);
    assert [last][1..] == [];
  }

  lemma {:induction false} ChunksConcat(left: seq<Payload>, right: seq<Payload>)
    ensures Chunks(left + right) == Chunks(left) + Chunks(right)
  {
    if left == [] {
      assert left + right == right;
    } else {
      assert (left + right)[1..] == left[1..] + right;
      ChunksConcat(left[1..], right);
    }
  }

  lemma {:induction false} LoggedConcat(left: seq<Chunk>, right: seq<Chunk>)
    ensures Logged(left + right) == Logged(left) + Logged(right)
  {
    if left == [] {
      assert left + right == right;
    } else {
      assert (left + right)[1..] == left[1..] + right;
      LoggedConcat(left[1..], right);
    }
  }

  lemma TakeConcat<T>(left: seq<T>, right: seq<T>, n: nat)
    ensures Take(left + right, n) == Take(left, n) + Take(right, n - |Take(left, n)|)
  {
  }

  lemma TagTake(stream: Stream, bytes: seq<byte>, n: nat)
    ensures Tag(stream, Take(bytes, n)) == Take(Tag(stream, bytes), n)
  {
  }

  lemma PieceTagged(payload: Payload, room: nat)
    ensures Tagged(Piece(payload, room)) == Take(Tag(payload.0, payload.1), room)
    ensures TotalBytes(Piece(payload, room)) == Min(room, |payload.1|)
  {
    var piece := Take(payload.1, room);
    TagTake(payload.0, payload.1, room);
    if piece != [] {
      assert [(payload.0, piece)][1..] == [];
      assert Tag(payload.0, piece) + [] == Tag(payload.0, piece);
    }
  }

  lemma {:induction false} TaggedConcat(left: seq<Payload>, right: seq<Payload>)
    ensures Tagged(left + right) == Tagged(left) + Tagged(right)
    ensures TotalBytes(left + right) == TotalBytes(left) + TotalBytes(right)
  {
    if left == [] {
      assert left + right == right;
    } else {
      assert (left + right)[1..] == left[1..] + right;
      TaggedConcat(left[1..], right);
    }
  }

  /** The captured pieces are exactly the first bytes of the interleaved stream, up to the cap. */
  lemma {:induction false} CapturedIsPrefix(payloads: seq<Payload>, limit: nat)
    ensures Tagged(Captured(payloads, limit)) == Take(Tagged(payloads), limit)
    ensures |Tagged(payloads)| == TotalBytes(payloads)
    ensures TotalBytes(Captured(payloads, limit)) == Min(limit, TotalBytes(payloads))
  {
    hide Piece;
    if payloads != [] {
      var (stream, payload) := payloads[0];
      var room := RoomLeft(limit, |payload|);
      PieceTagged(payloads[0], limit);
      TaggedConcat(Piece(payloads[0], limit), Captured(payloads[1..], room));
      CapturedIsPrefix(payloads[1..], room);
      TakeConcat(Tag(stream, payload), Tagged(payloads[1..]), limit);
    }
  }

  // ---------------------------------------------------------------- streaming equals batch

  /** A stream written in pieces that end on character boundaries; empty writes leave no payload. */
  function Pieces(stream: Stream, texts: seq<string>): seq<Payload> {
    if texts == [] then []
    else (if texts[0] == "" then [] else [(stream, Encode(texts[0]))]) + Pieces(stream, texts[1..])
  }

  function Concat(texts: seq<string>): string {
    if texts == [] then "" else texts[0] + Concat(texts[1..])
  }

  /** Decoding a cut of two texts, piece by piece. */
  lemma DecodeCutInTwo(first: string, rest: string, limit: nat)
    ensures Decode(Take(Encode(first + rest), limit))
         == Decode(Take(Encode(first), limit)) + Decode(Take(Encode(rest), RoomLeft(limit, |Encode(first)|)))
  {
    hide Decode, EncodeChar;
    var piece := Take(Encode(first), limit);
    var more := Take(Encode(rest), RoomLeft(limit, |Encode(first)|));
    EncodeConcat(first, rest);
    TakeConcat(Encode(first), Encode(rest), limit);
    if piece == Encode(first) {
      DecodeAfterText(first, more);
      RoundTrip(first);
    } else {
      assert more == [];
      DecodeNothing();
      assert piece + more == piece && Decode(piece) + "" == Decode(piece);
    }
  }

  /** The joined text of one payload's piece. */
  lemma PieceJoined(payload: Payload, room: nat, stream: Stream)
    ensures Joined(Chunks(Piece(payload, room)), stream)
         == if payload.0 == stream then Decode(Take(payload.1, room)) else ""
  {
    hide Decode;
    var piece := Take(payload.1, room);
    DecodeNothing();
    if piece != [] {
      assert [(payload.0, piece)][1..] == [];
      assert [Data(payload.0, Decode(piece))][1..] == [];
      assert Decode(piece) + "" == Decode(piece);
    }
  }

  /** The joined text of one stream, one payload at a time. */
  lemma JoinedStep(payloads: seq<Payload>, limit: nat, stream: Stream)
    requires payloads != []
    ensures Joined(Chunks(Captured(payloads, limit)), stream)
         == (if payloads[0].0 == stream then Decode(Take(payloads[0].1, limit)) else "")
          + Joined(Chunks(Captured(payloads[1..], RoomLeft(limit, |payloads[0].1|))), stream)
  {
    hide Decode, Piece, Joined, Chunks;
    var rest := Captured(payloads[1..], RoomLeft(limit, |payloads[0].1|));
    PieceJoined(payloads[0], limit, stream);
    ChunksConcat(Piece(payloads[0], limit), rest);
    JoinedConcat(Chunks(Piece(payloads[0], limit)), Chunks(rest), stream);
  }

  lemma PiecesStep(stream: Stream, texts: seq<string>)
    requires texts != []
    ensures texts[0] == "" ==> Pieces(stream, texts) == Pieces(stream, texts[1..])
    ensures texts[0] != "" ==> Pieces(stream, texts) == [(stream, Encode(texts[0]))] + Pieces(stream, texts[1..])
  {
    assert [] + Pieces(stream, texts[1..]) == Pieces(stream, texts[1..]);
  }

  lemma {:induction false} OneStreamCaptured(stream: Stream, texts: seq<string>, limit: nat)
    ensures Joined(Chunks(Captured(Pieces(stream, texts), limit)), stream) == Decode(Take(Encode(Concat(texts)), limit))
    ensures TotalBytes(Pieces(stream, texts)) == |Encode(Concat(texts))|
  {
    hide Decode, DecodeHead, EncodeChar, Captured, Chunks, Encode;
    if texts == [] {
      NothingCaptured(limit);
    } else {
      var first, rest := texts[0], Concat(texts[1..]);
      PiecesStep(stream, texts);
      EncodeConcat(first, rest);
      if first == "" {
        assert first + rest == rest;
        OneStreamCaptured(stream, texts[1..], limit);
      } else {
        JoinedStep(Pieces(stream, texts), limit, stream);
        OneStreamCaptured(stream, texts[1..], RoomLeft(limit, |Encode(first)|));
        DecodeCutInTwo(first, rest, limit);
      }
    }
  }

  lemma NothingCaptured(limit: nat)
    ensures Captured([], limit) == [] && Chunks([]) == [] && Decode(Take(Encode(""), limit)) == "" && Encode("") == []
  {
  }

  lemma {:induction false} OtherStreamEmpty(stream: Stream, texts: seq<string>, limit: nat, other: Stream)
    requires other != stream
    ensures Joined(Chunks(Captured(Pieces(stream, texts), limit)), other) == ""
  {
    hide Captured, Chunks, Encode;
    if texts == [] {
      NothingCaptured(limit);
    } else {
      PiecesStep(stream, texts);
      if texts[0] == "" {
        OtherStreamEmpty(stream, texts[1..], limit, other);
      } else {
        JoinedStep(Pieces(stream, texts), limit, other);
        OtherStreamEmpty(stream, texts[1..], RoomLeft(limit, |Encode(texts[0])|), other);
      }
    }
  }

  lemma {:induction false} JoinedConcat(left: seq<Chunk>, right: seq<Chunk>, stream: Stream)
    ensures Joined(left + right, stream) == Joined(left, stream) + Joined(right, stream)
  {
    if left == [] {
      assert left + right == right;
    } else {
      assert (left + right)[1..] == left[1..] + right;
      JoinedConcat(left[1..], right, stream);
    }
  }

  /** What the streaming runtime's `exec` returns for a stream of payloads. */
  function StreamedOutputs(payloads: seq<Payload>, limit: nat): (string, string) {
    var chunks := Chunks(Captured(payloads, limit)) + NoticeChunk(payloads, limit);
    (Joined(chunks, Stdout), Joined(chunks, Stderr))
  }

  lemma JoinedWithNotice(chunks: seq<Chunk>, payloads: seq<Payload>, limit: nat)
    ensures Joined(chunks + NoticeChunk(payloads, limit), Stdout) == Joined(chunks, Stdout)
    ensures Joined(chunks + NoticeChunk(payloads, limit), Stderr)
         == Joined(chunks, Stderr) + if TotalBytes(payloads) > limit then Notice(limit) else ""
  {
    hide Notice;
    var suffix := NoticeChunk(payloads, limit);
    JoinedConcat(chunks, suffix, Stdout);
    JoinedConcat(chunks, suffix, Stderr);
    if suffix != [] {
      assert suffix[1..] == [];
      assert Notice(limit) + "" == Notice(limit);
    }
  }

  /** When all of stdout precedes all of stderr and every payload ends on a character boundary, the
    * streaming runtime returns what the batch runtime returns, suffix included. */
  lemma StreamingEqualsBatch(outs: seq<string>, errs: seq<string>, limit: nat)
    ensures StreamedOutputs(Pieces(Stdout, outs) + Pieces(Stderr, errs), limit)
         == BoundedOutputs(Concat(outs), Concat(errs), limit)
  {
    hide Decode, Encode, Notice, Captured, Chunks, Pieces, Concat, TotalBytes, Joined, NoticeChunk;
    var left, right := Pieces(Stdout, outs), Pieces(Stderr, errs);
    var room := RoomLeft(limit, TotalBytes(left));
    CapturedConcat(left, right, limit);
    OneStreamCaptured(Stdout, outs, limit);
    OneStreamCaptured(Stderr, errs, room);
    OtherStreamEmpty(Stdout, outs, limit, Stderr);
    OtherStreamEmpty(Stderr, errs, room, Stdout);
    var a, b := Chunks(Captured(left, limit)), Chunks(Captured(right, room));
    ChunksConcat(Captured(left, limit), Captured(right, room));
    JoinedConcat(a, b, Stdout);
    JoinedConcat(a, b, Stderr);
    assert Joined(a, Stdout) + "" == Joined(a, Stdout) && "" + Joined(b, Stderr) == Joined(b, Stderr);
    JoinedWithNotice(a + b, left + right, limit);
  }
}
