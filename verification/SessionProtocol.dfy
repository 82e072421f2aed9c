/** The file-based session protocol between the host and the interpreter inside the sandbox, as a
  * transition system over the session directory. The evaluator is any function from a snippet and a
  * namespace to a response and a namespace. */
module SessionProtocol {

  type Evaluator<!C, !N, R> = (C, N) -> (R, N)

  /** What a response file holds: `json.dump` may have written only a part of it. */
  datatype Content<R> = Partial | Whole(response: R)

  /** A request file: the snippet, and which submission wrote it. */
  datatype Request<C> = Request(code: C, attempt: nat)

  /** Where the server is in its loop. */
  datatype Server<C, R> =
    | Waiting                          // polls for the request of its index
    | Found                            // has seen that the request exists
    | Loaded(code: C)                  // has read it
    | Answered(response: R)            // has executed it
    | Drafting(response: R)            // has opened the temporary file
    | Drafted                          // has written and closed it
    | Published                        // has renamed it to the response file

  /** Where the client is: outside `run`, or polling for the response to one submission. The mark
    * `late` records that the server had already read a request of this index when it was made. */
  datatype Client = Idle | Polling(attempt: nat, late: bool)

  /** A response returned by `run`, with the submission it was returned to. */
  datatype Answer<R> = Answer(attempt: nat, late: bool, content: Content<R>)

  datatype State<C, N, R> = State(
    requests: map<nat, Request<C>>,        // req-<n>.py
    drafts: map<nat, Content<R>>,          // resp-<n>.tmp
    responses: map<nat, Content<R>>,       // resp-<n>.json
    index: nat,                            // the client's counter
    client: Client,
    serverIndex: nat,                      // the server's counter
    server: Server<C, R>,
    namespace: N,
    submissions: seq<(nat, C)>,            // every submission: its index and its snippet
    loads: seq<nat>,                       // the submission the server read at each index
    executed: seq<nat>,                    // the indices whose snippets were executed, in order
    answers: seq<Answer<R>>,               // what `run` returned at each index
    timeouts: nat                          // how many calls gave up
  )

  datatype Step<C> =
    | Submit(code: C) | Poll | Expire
    | Look | Load | Execute | OpenDraft | CloseDraft | Publish | Retire

  predicate Enabled<C, N, R>(s: State<C, N, R>, step: Step<C>) {
    match step
    case Submit(_) => s.client.Idle?
    case Poll => s.client.Polling?
    case Expire => s.client.Polling?
    case Look => s.server.Waiting?
    case Load => s.server.Found? && s.serverIndex in s.requests
    case Execute => s.server.Loaded?
    case OpenDraft => s.server.Answered?
    case CloseDraft => s.server.Drafting?
    case Publish => s.server.Drafted? && s.serverIndex in s.drafts
    case Retire => s.server.Published?
  }

  function Next<C, N, R>(s: State<C, N, R>, step: Step<C>, eval: Evaluator<C, N, R>): State<C, N, R>
    requires Enabled(s, step)
  {
    match step
    case Submit(code) =>
      var attempt := |s.submissions|;
      s.(requests := s.requests[s.index := Request(code, attempt)],
         submissions := s.submissions + [(s.index, code)],
         client := Polling(attempt, s.index < |s.loads|))
    case Poll =>
      if s.index !in s.responses then s
      else s.(index := s.index + 1,
              client := Idle,
              answers := s.answers + [Answer(s.client.attempt, s.client.late, s.responses[s.index])])
    case Expire => s.(client := Idle, timeouts := s.timeouts + 1)
    case Look => if s.serverIndex in s.requests then s.(server := Found) else s
    case Load =>
      var request := s.requests[s.serverIndex];
      s.(server := Loaded(request.code), loads := s.loads + [request.attempt])
    case Execute =>
      var (response, namespace) := eval(s.server.code, s.namespace);
      s.(server := Answered(response), namespace := namespace, executed := s.executed + [s.serverIndex])
    case OpenDraft => s.(server := Drafting(s.server.response), drafts := s.drafts[s.serverIndex := Partial])
    case CloseDraft => s.(server := Drafted, drafts := s.drafts[s.serverIndex := Whole(s.server.response)])
    case Publish =>
      s.(server := Published,
         responses := s.responses[s.serverIndex := s.drafts[s.serverIndex]],
         drafts := s.drafts - {s.serverIndex})
    case Retire => s.(server := Waiting, requests := s.requests - {s.serverIndex}, serverIndex := s.serverIndex + 1)
  }

  function Run<C, N, R>(s: State<C, N, R>, steps: seq<Step<C>>, eval: Evaluator<C, N, R>): State<C, N, R>
    decreases steps
  {
    if steps == [] then s
    else Run(if Enabled(s, steps[0]) then Next(s, steps[0], eval) else s, steps[1..], eval)
  }

  function Initial<C, N, R>(namespace: N): State<C, N, R> {
    State(map[], map[], map[], 0, Idle, 0, Waiting, namespace, [], [], [], [], 0)
  }

  // ---------------------------------------------------------------- sequential evaluation

  /** The namespace after evaluating snippets one after another. */
  function After<C, N, R>(eval: Evaluator<C, N, R>, namespace: N, codes: seq<C>): N {
    if codes == [] then namespace
    else eval(codes[|codes| - 1], After(eval, namespace, codes[..|codes| - 1])).1
  }

  /** The response to the n-th of a sequence of snippets. */
  function Reply<C, N, R>(eval: Evaluator<C, N, R>, namespace: N, codes: seq<C>, n: nat): R
    requires n < |codes|
  {
    eval(codes[n], After(eval, namespace, codes[..n])).0
  }

  /** The snippets that the server read, in index order. */
  function LoadedCodes<C, N, R>(s: State<C, N, R>): seq<C>
    requires forall n :: 0 <= n < |s.loads| ==> s.loads[n] < |s.submissions|
  {
    seq(|s.loads|, n requires 0 <= n < |s.loads| => s.submissions[s.loads[n]].1)
  }

  /** The snippets that the client submitted, in order. */
  function SubmittedCodes<C, N, R>(s: State<C, N, R>): seq<C> {
    seq(|s.submissions|, i requires 0 <= i < |s.submissions| => s.submissions[i].1)
  }

  // ---------------------------------------------------------------- the invariant

  ghost predicate HistoryKept<C, N, R>(s: State<C, N, R>) {
    && |s.loads| == s.serverIndex + (if s.server.Waiting? || s.server.Found? then 0 else 1)
    && |s.executed| == s.serverIndex + (if s.server.Waiting? || s.server.Found? || s.server.Loaded? then 0 else 1)
    && (forall i :: 0 <= i < |s.executed| ==> s.executed[i] == i)
    && (forall n :: 0 <= n < |s.loads| ==> s.loads[n] < |s.submissions| && s.submissions[s.loads[n]].0 == n)
    && |s.answers| == s.index
    && (forall i :: 0 <= i < |s.submissions| ==> s.submissions[i].0 <= s.index)
  }

  /** A request file holds the snippet of the submission that wrote it. */
  ghost predicate RequestKept<C, N, R>(s: State<C, N, R>, n: nat)
    requires n in s.requests
  {
    && s.requests[n].attempt < |s.submissions|
    && s.submissions[s.requests[n].attempt] == (n, s.requests[n].code)
  }

  ghost predicate RequestsKept<C, N, R>(s: State<C, N, R>) {
    && (forall n :: n in s.requests ==> n <= s.index)
    && (forall n :: n in s.requests ==> RequestKept(s, n))
    && (!s.server.Waiting? ==> s.serverIndex in s.requests)
    && s.serverIndex <= s.index + 1
  }

  /** The namespace and the server's local variables, in terms of the snippets read so far. */
  ghost predicate ServerKept<C, N, R>(s: State<C, N, R>, eval: Evaluator<C, N, R>, start: N)
    requires HistoryKept(s)
  {
    var codes := LoadedCodes(s);
    && s.namespace == After(eval, start, codes[..|s.executed|])
    && (s.server.Loaded? ==> s.server.code == codes[s.serverIndex])
    && (s.server.Answered? || s.server.Drafting? ==> s.server.response == Reply(eval, start, codes, s.serverIndex))
  }

  /** The draft and the response files: a published response is whole and is the right one. */
  ghost predicate FilesKept<C, N, R>(s: State<C, N, R>, eval: Evaluator<C, N, R>, start: N)
    requires HistoryKept(s)
  {
    var codes := LoadedCodes(s);
    && (s.server.Drafted? ==> s.serverIndex in s.drafts)
    && (s.server.Drafted? ==> s.drafts[s.serverIndex] == Whole(Reply(eval, start, codes, s.serverIndex)))
    && (forall n :: n in s.responses <==> 0 <= n < s.serverIndex + if s.server.Published? then 1 else 0)
    && (forall n :: n in s.responses ==> s.responses[n] == Whole(Reply(eval, start, codes, n)))
  }

  ghost predicate ClientKept<C, N, R>(s: State<C, N, R>) {
    && s.index <= s.serverIndex + (if s.server.Published? then 1 else 0)
    && (s.client.Polling? ==>
          && s.client.attempt == |s.submissions| - 1
          && s.submissions[s.client.attempt].0 == s.index
          && (s.client.late ==> s.index < |s.loads| && s.loads[s.index] < s.client.attempt)
          && (!s.client.late ==>
                if s.index < |s.loads| then s.loads[s.index] == s.client.attempt
                else s.index in s.requests && s.requests[s.index].attempt == s.client.attempt))
  }

  ghost predicate AnswersKept<C, N, R>(s: State<C, N, R>, eval: Evaluator<C, N, R>, start: N)
    requires HistoryKept(s)
  {
    forall i :: 0 <= i < |s.answers| ==>
      && i < |s.loads|
      && s.answers[i].content == Whole(Reply(eval, start, LoadedCodes(s), i))
      && s.answers[i].attempt < |s.submissions| && s.submissions[s.answers[i].attempt].0 == i
      && (if s.answers[i].late then s.loads[i] < s.answers[i].attempt else s.loads[i] == s.answers[i].attempt)
  }

  /** Without timeouts every index is submitted once, before anything of it is read. */
  ghost predicate PunctualKept<C, N, R>(s: State<C, N, R>) {
    s.timeouts == 0 ==>
      && |s.submissions| == s.index + (if s.client.Polling? then 1 else 0)
      && (forall i :: 0 <= i < |s.submissions| ==> s.submissions[i].0 == i)
      && (s.client.Polling? ==> !s.client.late)
      && (forall i :: 0 <= i < |s.answers| ==> !s.answers[i].late)
  }

  ghost predicate Inv<C, N, R>(s: State<C, N, R>, eval: Evaluator<C, N, R>, start: N) {
    && HistoryKept(s) && RequestsKept(s) && ServerKept(s, eval, start) && FilesKept(s, eval, start)
    && ClientKept(s) && AnswersKept(s, eval, start) && PunctualKept(s)
  }

  lemma HistoryNext<C, N, R>(s: State<C, N, R>, step: Step<C>, eval: Evaluator<C, N, R>, start: N)
    requires Enabled(s, step) && Inv(s, eval, start)
    ensures HistoryKept(Next(s, step, eval))
  {
    hide ServerKept, FilesKept, AnswersKept, PunctualKept, ClientKept;
  }

  lemma RequestsNext<C, N, R>(s: State<C, N, R>, step: Step<C>, eval: Evaluator<C, N, R>, start: N)
    requires Enabled(s, step) && Inv(s, eval, start)
    ensures RequestsKept(Next(s, step, eval))
  {
    hide ServerKept, FilesKept, AnswersKept, PunctualKept;
  }

  /** Reading another request, or submitting one, leaves the snippets read before in place. */
  lemma CodesNext<C, N, R>(s: State<C, N, R>, step: Step<C>, eval: Evaluator<C, N, R>, start: N)
    requires Enabled(s, step) && Inv(s, eval, start)
    ensures HistoryKept(Next(s, step, eval))
    ensures var codes, codes' := LoadedCodes(s), LoadedCodes(Next(s, step, eval));
      codes' == codes + if step.Load? then [s.requests[s.serverIndex].code] else []
    ensures forall n :: 0 <= n < |s.loads| ==>
      Reply(eval, start, LoadedCodes(Next(s, step, eval)), n) == Reply(eval, start, LoadedCodes(s), n)
  {
    hide ServerKept, FilesKept, AnswersKept, PunctualKept, ClientKept;
    HistoryNext(s, step, eval, start);
    var codes, codes' := LoadedCodes(s), LoadedCodes(Next(s, step, eval));
    forall n | 0 <= n < |s.loads| ensures codes'[..n] == codes[..n] && codes'[n] == codes[n] {
    }
  }

  lemma AfterStep<C, N, R>(eval: Evaluator<C, N, R>, start: N, codes: seq<C>, k: nat)
    requires k < |codes|
    ensures After(eval, start, codes[..k + 1]) == eval(codes[k], After(eval, start, codes[..k])).1
  {
    assert codes[..k + 1][..k] == codes[..k];
  }

  lemma ServerNext<C, N, R>(s: State<C, N, R>, step: Step<C>, eval: Evaluator<C, N, R>, start: N)
    requires Enabled(s, step) && Inv(s, eval, start)
    ensures HistoryKept(Next(s, step, eval)) && ServerKept(Next(s, step, eval), eval, start)
  {
    hide After, FilesKept, ClientKept, AnswersKept, PunctualKept;
    CodesNext(s, step, eval, start);
    var s' := Next(s, step, eval);
    var codes, codes' := LoadedCodes(s), LoadedCodes(s');
    if step.Execute? {
      AfterStep(eval, start, codes, s.serverIndex);
    } else {
      hide Reply;
      assert codes'[..|s'.executed|] == codes[..|s.executed|];
    }
  }

  lemma FilesNext<C, N, R>(s: State<C, N, R>, step: Step<C>, eval: Evaluator<C, N, R>, start: N)
    requires Enabled(s, step) && Inv(s, eval, start)
    ensures HistoryKept(Next(s, step, eval)) && FilesKept(Next(s, step, eval), eval, start)
  {
    hide After, Reply, ClientKept, AnswersKept, PunctualKept;
    CodesNext(s, step, eval, start);
  }

  lemma ClientNext<C, N, R>(s: State<C, N, R>, step: Step<C>, eval: Evaluator<C, N, R>, start: N)
    requires Enabled(s, step) && Inv(s, eval, start)
    ensures ClientKept(Next(s, step, eval))
  {
    hide After, Reply, ServerKept, AnswersKept, PunctualKept;
  }

  lemma AnswersNext<C, N, R>(s: State<C, N, R>, step: Step<C>, eval: Evaluator<C, N, R>, start: N)
    requires Enabled(s, step) && Inv(s, eval, start)
    ensures HistoryKept(Next(s, step, eval)) && AnswersKept(Next(s, step, eval), eval, start)
  {
    hide After, Reply, LoadedCodes, RequestsKept, ServerKept, PunctualKept;
    CodesNext(s, step, eval, start);
  }

  lemma PunctualNext<C, N, R>(s: State<C, N, R>, step: Step<C>, eval: Evaluator<C, N, R>, start: N)
    requires Enabled(s, step) && Inv(s, eval, start)
    ensures PunctualKept(Next(s, step, eval))
  {
    hide After, Reply, ServerKept, FilesKept;
    assert s.index < |s.loads| ==> s.submissions[s.loads[s.index]].0 == s.index;
  }

  /** Every step of either process keeps the invariant. */
  lemma InvNext<C, N, R>(s: State<C, N, R>, step: Step<C>, eval: Evaluator<C, N, R>, start: N)
    requires Enabled(s, step) && Inv(s, eval, start)
    ensures Inv(Next(s, step, eval), eval, start)
  {
    hide Next, HistoryKept, RequestsKept, ServerKept, FilesKept, ClientKept, AnswersKept, PunctualKept;
    RequestsNext(s, step, eval, start);
    ServerNext(s, step, eval, start);
    FilesNext(s, step, eval, start);
    ClientNext(s, step, eval, start);
    AnswersNext(s, step, eval, start);
    PunctualNext(s, step, eval, start);
  }

  lemma {:induction false} InvRun<C, N, R>(s: State<C, N, R>, steps: seq<Step<C>>, eval: Evaluator<C, N, R>, start: N)
    requires Inv(s, eval, start)
    ensures Inv(Run(s, steps, eval), eval, start)
    decreases steps
  {
    hide Inv, Next, Enabled;
    if steps != [] {
      if Enabled(s, steps[0]) {
        InvNext(s, steps[0], eval, start);
      }
      InvRun(if Enabled(s, steps[0]) then Next(s, steps[0], eval) else s, steps[1..], eval, start);
    }
  }

  lemma InitialInv<C, N, R>(eval: Evaluator<C, N, R>, start: N)
    ensures Inv(Initial(start), eval, start)
  {
    assert LoadedCodes(Initial<C, N, R>(start)) == [];
  }

  // ---------------------------------------------------------------- what holds in every run

  /** The state after any interleaving of client and server, from an empty session directory. */
  function Reached<C, N, R>(eval: Evaluator<C, N, R>, start: N, steps: seq<Step<C>>): State<C, N, R> {
    Run(Initial(start), steps, eval)
  }

  lemma ReachedInv<C, N, R>(eval: Evaluator<C, N, R>, start: N, steps: seq<Step<C>>)
    ensures Inv(Reached(eval, start, steps), eval, start)
  {
    InitialInv<C, N, R>(eval, start);
    InvRun(Initial(start), steps, eval, start);
  }

  /** With any timeouts and retries: the counters stay within one, every index is executed at most
    * once and in order, no response is read half-written, and the response returned at index n is
    * the evaluation of a snippet that was submitted under index n, after those read before it. */
  lemma SessionSafety<C, N, R>(eval: Evaluator<C, N, R>, start: N, steps: seq<Step<C>>)
    ensures var s := Reached(eval, start, steps);
      && s.index <= s.serverIndex + 1 && s.serverIndex <= s.index + 1
      && (forall i :: 0 <= i < |s.executed| ==> s.executed[i] == i)
      && (forall n :: n in s.responses ==> s.responses[n].Whole?)
      && |s.answers| == s.index && |s.answers| <= |s.loads|
      && (forall n :: 0 <= n < |s.loads| ==> s.loads[n] < |s.submissions| && s.submissions[s.loads[n]].0 == n)
      && (forall n :: 0 <= n < |s.answers| ==>
            && s.answers[n].content == Whole(Reply(eval, start, LoadedCodes(s), n))
            && s.submissions[s.loads[n]].0 == n)
  {
    ReachedInv(eval, start, steps);
    hide Reached, Run, Reply, ServerKept;
    var s := Reached(eval, start, steps);
    assert AnswersKept(s, eval, start) && HistoryKept(s) && ClientKept(s) && FilesKept(s, eval, start);
  }

  /** What is left in the session directory: a draft only while the server writes it, and a part of one
    * until it is closed; a request that was served only if it was submitted again after it was read. Every
    * submission was answered, given up on, or is being polled for. */
  ghost predicate DirectoryTidy<C, N, R>(s: State<C, N, R>) {
    && (forall n :: n in s.drafts <==> n == s.serverIndex && (s.server.Drafting? || s.server.Drafted?))
    && (s.server.Drafting? ==> s.drafts[s.serverIndex].Partial?)
    && (forall n :: n in s.requests && n < s.serverIndex ==> n < |s.loads| && s.loads[n] < s.requests[n].attempt)
    && |s.submissions| == |s.answers| + s.timeouts + (if s.client.Polling? then 1 else 0)
  }

  lemma TidyNext<C, N, R>(s: State<C, N, R>, step: Step<C>, eval: Evaluator<C, N, R>, start: N)
    requires Enabled(s, step) && Inv(s, eval, start) && DirectoryTidy(s)
    ensures DirectoryTidy(Next(s, step, eval))
  {
    hide ServerKept, FilesKept, AnswersKept, PunctualKept, ClientKept;
  }

  lemma {:induction false} TidyRun<C, N, R>(s: State<C, N, R>, steps: seq<Step<C>>, eval: Evaluator<C, N, R>, start: N)
    requires Inv(s, eval, start) && DirectoryTidy(s)
    ensures DirectoryTidy(Run(s, steps, eval))
    decreases steps
  {
    hide Inv, Next, Enabled, DirectoryTidy;
    if steps != [] {
      if Enabled(s, steps[0]) {
        InvNext(s, steps[0], eval, start);
        TidyNext(s, steps[0], eval, start);
      }
      TidyRun(if Enabled(s, steps[0]) then Next(s, steps[0], eval) else s, steps[1..], eval, start);
    }
  }

  /** In every run the session directory holds nothing that was dealt with, except requests that a retry
    * wrote too late. */
  lemma SessionLeavesNothing<C, N, R>(eval: Evaluator<C, N, R>, start: N, steps: seq<Step<C>>)
    ensures DirectoryTidy(Reached(eval, start, steps))
  {
    InitialInv<C, N, R>(eval, start);
    TidyRun(Initial(start), steps, eval, start);
  }

  /** Neither a new submission nor a timeout: the steps of one patient call and of the server. */
  ghost predicate OneCall<C>(steps: seq<Step<C>>) {
    forall i :: 0 <= i < |steps| ==> !steps[i].Submit? && !steps[i].Expire?
  }

  /** While a call is polling, what was true at its submission stays recorded. */
  lemma {:induction false} CallKeepsMark<C, N, R>(s: State<C, N, R>, steps: seq<Step<C>>, eval: Evaluator<C, N, R>,
                                                  n: nat, attempt: nat, late: bool)
    requires OneCall(steps) && n == |s.answers| == s.index && s.client == Polling(attempt, late)
    ensures var s' := Run(s, steps, eval);
      if |s'.answers| == n then s'.client == s.client && s'.index == n
      else |s'.answers| == n + 1 && s'.answers[n].attempt == attempt && s'.answers[n].late == late
    decreases steps
  {
    if steps != [] {
      var next := if Enabled(s, steps[0]) then Next(s, steps[0], eval) else s;
      if next.client.Polling? {
        CallKeepsMark(next, steps[1..], eval, n, attempt, late);
      } else {
        NothingReturned(next, steps[1..], eval);
      }
    }
  }

  lemma {:induction false} NothingReturned<C, N, R>(s: State<C, N, R>, steps: seq<Step<C>>, eval: Evaluator<C, N, R>)
    requires OneCall(steps) && s.client.Idle?
    ensures Run(s, steps, eval).answers == s.answers
    decreases steps
  {
    if steps != [] {
      NothingReturned(if Enabled(s, steps[0]) then Next(s, steps[0], eval) else s, steps[1..], eval);
    }
  }

  /** After any history, a call that returns gets the evaluation of its own snippet if and only if
    * the server had not yet read a request of the client's index when the call was made; otherwise
    * it gets that of an earlier snippet, submitted by a call that gave up. */
  lemma OwnAnswerExactlyWhenUnread<C, N, R>(eval: Evaluator<C, N, R>, start: N, before: seq<Step<C>>, code: C,
                                            after: seq<Step<C>>)
    requires Reached(eval, start, before).client.Idle? && OneCall(after)
    requires |Run(Next(Reached(eval, start, before), Submit(code), eval), after, eval).answers|
           > Reached(eval, start, before).index
    ensures var s := Reached(eval, start, before);
      var s' := Run(Next(s, Submit(code), eval), after, eval);
      var n := s.index;
      && (forall k :: 0 <= k < |s'.loads| ==> s'.loads[k] < |s'.submissions|)
      && n < |s'.loads| && s'.submissions[s'.loads[n]].0 == n
      && s'.answers[n].content == Whole(Reply(eval, start, LoadedCodes(s'), n))
      && (s'.loads[n] == |s.submissions| <==> |s.loads| <= n)
      && (|s.loads| > n ==> s'.loads[n] < |s.submissions|)
  {
    var s := Reached(eval, start, before);
    ReachedInv(eval, start, before);
    var s1 := Next(s, Submit(code), eval);
    CallKeepsMark(s1, after, eval, s.index, |s.submissions|, s.index < |s.loads|);
    InvNext(s, Submit(code), eval, start);
    InvRun(s1, after, eval, start);
    hide Reached, Run, Next, Reply, ServerKept, FilesKept, RequestsKept;
    var s' := Run(s1, after, eval);
    assert HistoryKept(s') && AnswersKept(s', eval, start);
  }

  lemma ReadIsSubmitted<C, N, R>(s: State<C, N, R>)
    requires HistoryKept(s)
    ensures s.index < |s.loads| ==>
              s.loads[s.index] < |s.submissions| && s.submissions[s.loads[s.index]].0 == s.index
  {
  }

  /** What the client can see for itself: if it has not submitted anything under the current index yet,
    * the server cannot have read such a request, and the call gets its own answer. */
  lemma FirstUseGetsOwnAnswer<C, N, R>(eval: Evaluator<C, N, R>, start: N, before: seq<Step<C>>, code: C,
                                       after: seq<Step<C>>)
    requires Reached(eval, start, before).client.Idle? && OneCall(after)
    requires var s := Reached(eval, start, before);
      && |Run(Next(s, Submit(code), eval), after, eval).answers| > s.index
      && forall k :: 0 <= k < |s.submissions| ==> s.submissions[k].0 != s.index
    ensures var s := Reached(eval, start, before);
      var s' := Run(Next(s, Submit(code), eval), after, eval);
      && |s.loads| <= s.index < |s'.loads| && s'.loads[s.index] == |s.submissions|
  {
    var s := Reached(eval, start, before);
    ReachedInv(eval, start, before);
    OwnAnswerExactlyWhenUnread(eval, start, before, code, after);
    hide Reached, Run, Next, ServerKept, FilesKept, RequestsKept, AnswersKept, HistoryKept;
    ReadIsSubmitted(s);
  }

  /** In a run without timeouts the session is sequential evaluation: the i-th call returns exactly
    * what evaluating the first i snippets and then the i-th one gives. */
  lemma SessionRefinesSequentialEvaluation<C, N, R>(eval: Evaluator<C, N, R>, start: N, steps: seq<Step<C>>)
    requires Reached(eval, start, steps).timeouts == 0
    ensures var s := Reached(eval, start, steps);
      && |s.answers| <= |s.submissions| <= |s.answers| + 1
      && (forall i :: 0 <= i < |s.answers| ==>
            s.answers[i].content == Whole(Reply(eval, start, SubmittedCodes(s), i)))
  {
    ReachedInv(eval, start, steps);
    hide Reached, Run, ServerKept;
    var s := Reached(eval, start, steps);
    assert HistoryKept(s) && AnswersKept(s, eval, start) && PunctualKept(s);
    forall i | 0 <= i < |s.answers| ensures s.answers[i].content == Whole(Reply(eval, start, SubmittedCodes(s), i)) {
      SameCodes(s, eval, start, i);
    }
  }

  lemma SameCodes<C, N, R>(s: State<C, N, R>, eval: Evaluator<C, N, R>, start: N, i: nat)
    requires Inv(s, eval, start) && s.timeouts == 0 && i < |s.answers|
    ensures |s.answers| <= |s.submissions| && |s.answers| <= |s.loads|
    ensures Reply(eval, start, LoadedCodes(s), i) == Reply(eval, start, SubmittedCodes(s), i)
  {
    hide After, ServerKept, FilesKept;
    var read, sent := LoadedCodes(s), SubmittedCodes(s);
    forall k | 0 <= k <= i ensures s.loads[k] == k {
      assert !s.answers[k].late && s.loads[k] == s.answers[k].attempt;
      assert s.submissions[s.loads[k]].0 == k;
    }
    assert read[..i] == sent[..i] && read[i] == sent[i];
  }

  /** One timeout is enough for a later call to get the response to an earlier snippet. */
  lemma RetryCanBeStale<C, N, R>(eval: Evaluator<C, N, R>, start: N, first: C, second: C) returns (steps: seq<Step<C>>)
    requires eval(first, start).0 != eval(second, start).0
    ensures var s := Reached(eval, start, steps);
      |s.answers| == 1 && s.submissions == [(0, first), (0, second)] && s.answers[0].attempt == 1
      && s.answers[0].content == Whole(eval(first, start).0) != Whole(eval(second, start).0)
  {
    steps := [Submit(first), Look, Load, Expire, Submit(second), Execute, OpenDraft, CloseDraft, Publish, Poll];
    StaleRun(eval, start, first, second);
  }

  lemma StaleRun<C, N, R>(eval: Evaluator<C, N, R>, start: N, first: C, second: C)
    ensures var s := Reached(eval, start,
              [Submit(first), Look, Load, Expire, Submit(second), Execute, OpenDraft, CloseDraft, Publish, Poll]);
      |s.answers| == 1 && s.submissions == [(0, first), (0, second)]
      && s.answers[0].attempt == 1 && s.answers[0].content == Whole(eval(first, start).0)
  {
    hide Next, Run;
    var early := [Submit(first), Look, Load, Expire, Submit(second)];
    var late := [Execute, OpenDraft, CloseDraft, Publish, Poll];
    assert early + late
        == [Submit(first), Look, Load, Expire, Submit(second), Execute, OpenDraft, CloseDraft, Publish, Poll];
    RunConcat(Initial(start), early, late, eval);
    GivingUp(eval, start, first, second);
    AnsweringLate(eval, start, first, second);
  }

  /** The server has read the first snippet, its caller has given up, and the second call is polling. */
  function SecondPolling<C, N, R>(start: N, first: C, second: C): State<C, N, R> {
    State(map[0 := Request(second, 1)], map[], map[], 0, Polling(1, true), 0, Loaded(first), start,
          [(0, first), (0, second)], [0], [], [], 1)
  }

  lemma GivingUp<C, N, R>(eval: Evaluator<C, N, R>, start: N, first: C, second: C)
    ensures Run(Initial(start), [Submit(first), Look, Load, Expire, Submit(second)], eval)
         == SecondPolling(start, first, second)
  {
    var s0 := Initial<C, N, R>(start);
    var s1 := Next(s0, Submit(first), eval);
    var s2 := Next(s1, Look, eval);
    var s3 := Next(s2, Load, eval);
    var s4 := Next(s3, Expire, eval);
    assert Next(s4, Submit(second), eval) == SecondPolling(start, first, second);
    hide Next;
    RunCons(s4, Submit(second), [], eval);
    RunCons(s3, Expire, [Submit(second)], eval);
    RunCons(s2, Load, [Expire, Submit(second)], eval);
    RunCons(s1, Look, [Load, Expire, Submit(second)], eval);
    RunCons(s0, Submit(first), [Look, Load, Expire, Submit(second)], eval);
  }

  lemma AnsweringLate<C, N, R>(eval: Evaluator<C, N, R>, start: N, first: C, second: C)
    ensures var s := Run(SecondPolling(start, first, second), [Execute, OpenDraft, CloseDraft, Publish, Poll], eval);
      |s.answers| == 1 && s.submissions == [(0, first), (0, second)]
      && s.answers[0].attempt == 1 && s.answers[0].content == Whole(eval(first, start).0)
  {
    var s5 := SecondPolling<C, N, R>(start, first, second);
    var s6 := Next(s5, Execute, eval);
    var s7 := Next(s6, OpenDraft, eval);
    var s8 := Next(s7, CloseDraft, eval);
    var s9 := Next(s8, Publish, eval);
    var s := Next(s9, Poll, eval);
    hide Next;
    RunCons(s9, Poll, [], eval);
    RunCons(s8, Publish, [Poll], eval);
    RunCons(s7, CloseDraft, [Publish, Poll], eval);
    RunCons(s6, OpenDraft, [CloseDraft, Publish, Poll], eval);
    RunCons(s5, Execute, [OpenDraft, CloseDraft, Publish, Poll], eval);
  }

  lemma {:induction false} RunConcat<C, N, R>(s: State<C, N, R>, left: seq<Step<C>>, right: seq<Step<C>>,
                                              eval: Evaluator<C, N, R>)
    ensures Run(s, left + right, eval) == Run(Run(s, left, eval), right, eval)
    decreases left
  {
    hide Next;
    if left == [] {
      assert left + right == right;
    } else {
      assert (left + right)[0] == left[0] && (left + right)[1..] == left[1..] + right;
      RunConcat(if Enabled(s, left[0]) then Next(s, left[0], eval) else s, left[1..], right, eval);
    }
  }

  lemma RunCons<C, N, R>(s: State<C, N, R>, step: Step<C>, rest: seq<Step<C>>, eval: Evaluator<C, N, R>)
    requires Enabled(s, step)
    ensures Run(s, [step] + rest, eval) == Run(Next(s, step, eval), rest, eval)
  {
    assert ([step] + rest)[1..] == rest;
  }
}
