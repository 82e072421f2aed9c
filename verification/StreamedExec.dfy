/** The Docker runtime's `exec`: it joins the chunks of the stream into one result, and that result is
  * the Kubernetes runtime's for the same output. */
module StreamedExec {
  import opened Strings
  import opened Utf8
  import opened OutputBudget

  datatype ExecutionResult = ExecutionResult(exitCode: int, stdout: string, stderr: string)

  function ExitCode(chunks: seq<Chunk>): int {
    if chunks == [] then 0
    else if chunks[|chunks| - 1].Status? then chunks[|chunks| - 1].exitCode
    else ExitCode(chunks[..|chunks| - 1])
  }

  lemma JoinedSnoc(chunks: seq<Chunk>, last: Chunk, stream: Stream)
    ensures Joined(chunks + [last], stream)
         == Joined(chunks, stream) + if last.Data? && last.stream == stream then last.text else ""
  {
    JoinedConcat(chunks, [last], stream);
    assert [last][1..] == [];
    if last.Data? {
      assert last.text + "" == last.text;
    }
  }

  /** The loop of `exec` over the chunks: texts by stream, and the exit code of the status. */
  method Gather(chunks: seq<Chunk>) returns (result: ExecutionResult)
    ensures result == ExecutionResult(ExitCode(chunks), Joined(chunks, Stdout), Joined(chunks, Stderr))
  {
    var stdout, stderr, exitCode := "", "", 0;
    for k := 0 to |chunks|
      invariant stdout == Joined(chunks[..k], Stdout) && stderr == Joined(chunks[..k], Stderr)
      invariant exitCode == ExitCode(chunks[..k])
    {
      assert chunks[..k + 1] == chunks[..k] + [chunks[k]];
      JoinedSnoc(chunks[..k], chunks[k], Stdout);
      JoinedSnoc(chunks[..k], chunks[k], Stderr);
      assert chunks[..k + 1][..k] == chunks[..k];
      match chunks[k]
      case Data(stream, text) =>
        if stream == Stdout {
          stdout := stdout + text;
        } else {
          stderr := stderr + text;
        }
      case Status(code) => exitCode := code;
    }
    assert chunks[..|chunks|] == chunks;
    result := ExecutionResult(exitCode, stdout, stderr);
  }

  /** What `exec` returns for the messages of a finished stream; an exception passes through it. */
  method Exec(display: string, messages: seq<Message>, limit: nat, expiresAt: Option<nat>, exitCode: int, wrapped: bool)
    returns (result: Result<ExecutionResult, Ending>)
    ensures
      if Stopped(messages, expiresAt).Some? then result == Err(Stopped(messages, expiresAt).value)
      else if wrapped && (exitCode == 124 || exitCode == 137) then result == Err(ProcessTimedOut)
      else
        var (stdout, stderr) := StreamedOutputs(Payloads(Handled(messages, expiresAt)), limit);
        result == Ok(ExecutionResult(exitCode, stdout, stderr))
    ensures result.Ok? <==> AllOutput(messages) && (expiresAt.Some? ==> expiresAt.value > |messages|)
                            && !(wrapped && (exitCode == 124 || exitCode == 137))
  {
    StoppedExactly(messages, expiresAt);
    hide Captured, Chunks, Payloads, Handled, Logged;
    var chunks, _, ending := IterExec(display, messages, limit, expiresAt, exitCode, wrapped);
    if ending != Finished {
      return Err(ending);
    }
    ghost var handled := Payloads(Handled(messages, expiresAt));
    ghost var full := Chunks(Captured(handled, limit)) + NoticeChunk(handled, limit);
    JoinedSnoc(full, Status(exitCode), Stdout);
    JoinedSnoc(full, Status(exitCode), Stderr);
    assert Joined(full, Stdout) + "" == Joined(full, Stdout) && Joined(full, Stderr) + "" == Joined(full, Stderr);
    var gathered := Gather(chunks);
    result := Ok(gathered);
  }

  // ---------------------------------------------------------------- the same as the batch form

  /** Messages whose parts end on character boundaries: what they say on either stream. */
  function Sent(texts: seq<(string, string)>): (messages: seq<Message>)
    ensures forall i :: 0 <= i < |messages| ==> messages[i].Output?
  {
    if texts == [] then [] else [Output(Encode(texts[0].0), Encode(texts[0].1))] + Sent(texts[1..])
  }

  function Outs(texts: seq<(string, string)>): seq<string> {
    if texts == [] then [] else [texts[0].0] + Outs(texts[1..])
  }

  function Errs(texts: seq<(string, string)>): seq<string> {
    if texts == [] then [] else [texts[0].1] + Errs(texts[1..])
  }

  /** Nothing is written to stdout after something was written to stderr. */
  ghost predicate StdoutFirst(texts: seq<(string, string)>) {
    forall i, j :: 0 <= i < j < |texts| ==> texts[i].1 == "" || texts[j].0 == ""
  }

  lemma {:induction false} SentReadable(texts: seq<(string, string)>)
    ensures Readable(Sent(texts)) == Sent(texts)
  {
    if texts != [] {
      SentReadable(texts[1..]);
      assert Sent(texts)[1..] == Sent(texts[1..]);
    }
  }

  lemma {:induction false} NoOuts(texts: seq<(string, string)>)
    requires forall i :: 0 <= i < |texts| ==> texts[i].0 == ""
    ensures Pieces(Stdout, Outs(texts)) == []
  {
    if texts != [] {
      NoOuts(texts[1..]);
      PiecesStep(Stdout, Outs(texts));
      assert Outs(texts)[1..] == Outs(texts[1..]);
    }
  }

  function Part(stream: Stream, text: string): seq<Payload> {
    if text == "" then [] else [(stream, Encode(text))]
  }

  /** The first message, taken apart. */
  lemma FirstSent(texts: seq<(string, string)>)
    requires texts != []
    ensures Payloads(Sent(texts)) == Part(Stdout, texts[0].0) + Part(Stderr, texts[0].1) + Payloads(Sent(texts[1..]))
    ensures Pieces(Stdout, Outs(texts)) == Part(Stdout, texts[0].0) + Pieces(Stdout, Outs(texts[1..]))
    ensures Pieces(Stderr, Errs(texts)) == Part(Stderr, texts[0].1) + Pieces(Stderr, Errs(texts[1..]))
  {
    hide EncodeChar;
    assert Outs(texts)[1..] == Outs(texts[1..]) && Errs(texts)[1..] == Errs(texts[1..]);
    assert Sent(texts)[1..] == Sent(texts[1..]);
    PiecesStep(Stdout, Outs(texts));
    PiecesStep(Stderr, Errs(texts));
    assert PairPayloads(Sent(texts)[0]) == Part(Stdout, texts[0].0) + Part(Stderr, texts[0].1) by {
      EncodesNothing(texts[0].0);
      EncodesNothing(texts[0].1);
      hide Encode;
    }
  }

  lemma EncodesNothing(text: string)
    ensures Encode(text) == [] <==> text == ""
  {
  }

  /** A first message before messages of which stdout comes first. */
  lemma OneMoreSent(out: seq<Payload>, err: seq<Payload>, outs: seq<Payload>, errs: seq<Payload>)
    requires err == [] || outs == []
    ensures (out + err) + (outs + errs) == (out + outs) + (err + errs)
  {
    if err == [] {
      assert out + err == out && err + errs == errs;
    } else {
      assert outs + errs == errs && out + outs == out;
    }
  }

  /** In order of handling, all of stdout comes first. */
  lemma {:induction false} SentPayloads(texts: seq<(string, string)>)
    requires StdoutFirst(texts)
    ensures Payloads(Sent(texts)) == Pieces(Stdout, Outs(texts)) + Pieces(Stderr, Errs(texts))
  {
    if texts != [] {
      var rest := texts[1..];
      SentPayloads(rest);
      FirstSent(texts);
      if texts[0].1 != "" {
        assert forall i :: 0 <= i < |rest| ==> rest[i] == texts[i + 1] && rest[i].0 == "";
        NoOuts(rest);
      } else {
        PartNothing(Stderr);
      }
      hide *;
      var out, err := Part(Stdout, texts[0].0), Part(Stderr, texts[0].1);
      OneMoreSent(out, err, Pieces(Stdout, Outs(rest)), Pieces(Stderr, Errs(rest)));
    }
  }

  lemma PartNothing(stream: Stream)
    ensures Part(stream, "") == []
  {
  }

  /** From messages to results: when all of stdout comes before all of stderr and the parts end on
    * character boundaries, `exec` of the streaming runtime returns the texts that the batch runtime
    * returns for the whole output, suffix included. */
  lemma MessagesEqualBatch(texts: seq<(string, string)>, limit: nat)
    requires StdoutFirst(texts)
    ensures Stopped(Sent(texts), None) == None
    ensures StreamedOutputs(Payloads(Handled(Sent(texts), None)), limit)
         == BoundedOutputs(Concat(Outs(texts)), Concat(Errs(texts)), limit)
  {
    hide StreamedOutputs, BoundedOutputs, Pieces, Payloads, Concat;
    SentReadable(texts);
    SentPayloads(texts);
    StreamingEqualsBatch(Outs(texts), Errs(texts), limit);
  }
}
