/** The two loops of a session over their own fields and the shared directory: each method is one
  * step of the transition system, and `Call` is the polling loop of `PythonSession.run`. */
module PythonSession {
  import opened Strings
  import opened SessionProtocol

  /** The step that the server's loop takes next: its program is sequential. */
  function ServerStep<C, R>(server: Server<C, R>): Step<C> {
    match server
    case Waiting => Look
    case Found => Load
    case Loaded(_) => Execute
    case Answered(_) => OpenDraft
    case Drafting(_) => CloseDraft
    case Drafted => Publish
    case Published => Retire
  }

  /** How many server steps are left before the response the client polls for exists. */
  function Distance<C, N, R>(s: State<C, N, R>): nat {
    if s.index in s.responses then 0
    else if s.serverIndex < s.index then 7
    else
      match s.server
      case Waiting => 6
      case Found => 5
      case Loaded(_) => 4
      case Answered(_) => 3
      case Drafting(_) => 2
      case Drafted => 1
      case Published => 0
  }

  function Total(turns: seq<nat>): nat {
    if turns == [] then 0 else turns[0] + Total(turns[1..])
  }

  lemma {:induction false} TotalConcat(first: seq<nat>, second: seq<nat>)
    ensures Total(first + second) == Total(first) + Total(second)
    ensures |first| == 1 ==> Total(first) == first[0]
  {
    if first == [] {
      assert first + second == second;
    } else {
      assert (first + second)[1..] == first[1..] + second;
      TotalConcat(first[1..], second);
    }
  }

  lemma ServerStepEnabled<C, N, R>(s: State<C, N, R>, eval: Evaluator<C, N, R>, start: N)
    requires Inv(s, eval, start)
    ensures Enabled(s, ServerStep(s.server))
  {
    hide After, Reply, AnswersKept, PunctualKept, ServerKept;
  }

  /** While the client polls, every server step brings the response nearer. */
  lemma ServerStepAdvances<C, N, R>(s: State<C, N, R>, eval: Evaluator<C, N, R>, start: N)
    requires Inv(s, eval, start) && s.client.Polling? && Enabled(s, ServerStep(s.server))
    ensures var s' := Next(s, ServerStep(s.server), eval);
      && (Distance(s) == 0 <==> s.index in s.responses) && Distance(s) <= 7
      && (Distance(s') < Distance(s) || Distance(s') == 0)
      && s'.client == s.client && s'.index == s.index && s'.answers == s.answers
      && s'.submissions == s.submissions && s'.timeouts == s.timeouts && s.loads <= s'.loads
  {
    hide After, Reply, AnswersKept, PunctualKept, ServerKept;
  }

  class Session<C, N, R> {
    const eval: Evaluator<C, N, R>
    ghost const start: N
    var requests: map<nat, Request<C>>
    var drafts: map<nat, Content<R>>
    var responses: map<nat, Content<R>>
    var index: nat
    var client: Client
    var serverIndex: nat
    var server: Server<C, R>
    var namespace: N
    ghost var submissions: seq<(nat, C)>
    ghost var loads: seq<nat>
    ghost var executed: seq<nat>
    ghost var answers: seq<Answer<R>>
    ghost var timeouts: nat
    var submitted: nat           // how many requests were written: the tag of the next one
    var serverLoads: nat         // how many requests were read

    ghost function Abs(): State<C, N, R>
      reads this
    {
      State(requests, drafts, responses, index, client, serverIndex, server, namespace,
            submissions, loads, executed, answers, timeouts)
    }

    ghost predicate Valid()
      reads this
    {
      Inv(Abs(), eval, start) && submitted == |submissions| && serverLoads == |loads|
    }

    constructor (eval: Evaluator<C, N, R>, namespace: N)
      ensures Valid() && Abs() == Initial(namespace) && this.eval == eval && this.start == namespace
    {
      this.eval, this.start := eval, namespace;
      requests, drafts, responses := map[], map[], map[];
      index, client, serverIndex, server := 0, Idle, 0, Waiting;
      this.namespace := namespace;
      submissions, loads, executed, answers, timeouts := [], [], [], [], 0;
      submitted, serverLoads := 0, 0;
      new;
      InitialInv(eval, namespace);
    }

    /** Writing the request file, which replaces an earlier one of the same index. */
    method WriteRequest(code: C)
      requires Valid() && client.Idle?
      modifies this
      ensures Valid() && Abs() == Next(old(Abs()), Submit(code), eval)
      ensures client == Polling(|old(submissions)|, old(index) < |old(loads)|) && index == old(index)
      ensures submissions == old(submissions) + [(index, code)] && answers == old(answers) && timeouts == old(timeouts)
    {
      hide Inv;
      InvNext(Abs(), Submit(code), eval, start);
      requests := requests[index := Request(code, submitted)];
      client := Polling(submitted, index < serverLoads);
      submissions := submissions + [(index, code)];
      submitted := submitted + 1;
    }

    /** One poll for the response file. */
    method PollOnce() returns (content: Option<Content<R>>)
      requires Valid() && client.Polling?
      modifies this
      ensures Valid() && Abs() == Next(old(Abs()), Poll, eval)
      ensures content == if old(index) in old(responses) then Some(old(responses)[old(index)]) else None
      ensures submissions == old(submissions) && timeouts == old(timeouts)
      ensures content.None? ==> Abs() == old(Abs()) && Distance(Abs()) > 0
      ensures content.Some? ==> index == old(index) + 1 && client.Idle?
      ensures content.Some? ==>
        answers == old(answers) + [Answer(old(client).attempt, old(client).late, content.value)]
    {
      hide Inv;
      InvNext(Abs(), Poll, eval, start);
      DistanceZero(Abs(), eval, start);
      if index in responses {
        content := Some(responses[index]);
        answers := answers + [Answer(client.attempt, client.late, responses[index])];
        index := index + 1;
        client := Idle;
      } else {
        content := None;
      }
    }

    /** The deadline of a call: the counter stays where it is. */
    method GiveUp()
      requires Valid() && client.Polling?
      modifies this
      ensures Valid() && Abs() == Next(old(Abs()), Expire, eval)
      ensures client.Idle? && timeouts == old(timeouts) + 1 && index == old(index)
      ensures submissions == old(submissions) && answers == old(answers)
    {
      hide Inv;
      InvNext(Abs(), Expire, eval, start);
      client := Idle;
      timeouts := timeouts + 1;
    }

    /** The server's steps up to the evaluation of a snippet. */
    method ServeReading()
      requires Valid() && Enabled(Abs(), ServerStep(server))
      requires server.Waiting? || server.Found? || server.Loaded?
      modifies this
      ensures Valid() && Abs() == Next(old(Abs()), ServerStep(old(server)), eval)
    {
      hide Inv;
      InvNext(Abs(), ServerStep(server), eval, start);
      match server
      case Waiting =>
        if serverIndex in requests {
          server := Found;
        }
      case Found =>
        loads := loads + [requests[serverIndex].attempt];
        serverLoads := serverLoads + 1;
        server := Loaded(requests[serverIndex].code);
      case Loaded(code) =>
        var (response, after) := eval(code, namespace);
        namespace := after;
        executed := executed + [serverIndex];
        server := Answered(response);
    }

    /** The server's steps from a finished evaluation to the next request. */
    method ServeWriting()
      requires Valid() && Enabled(Abs(), ServerStep(server))
      requires server.Answered? || server.Drafting? || server.Drafted? || server.Published?
      modifies this
      ensures Valid() && Abs() == Next(old(Abs()), ServerStep(old(server)), eval)
    {
      hide Inv;
      InvNext(Abs(), ServerStep(server), eval, start);
      match server
      case Answered(response) =>
        drafts := drafts[serverIndex := Partial];
        server := Drafting(response);
      case Drafting(response) =>
        drafts := drafts[serverIndex := Whole(response)];
        server := Drafted;
      case Drafted =>
        responses := responses[serverIndex := drafts[serverIndex]];
        drafts := drafts - {serverIndex};
        server := Published;
      case Published =>
        requests := requests - {serverIndex};
        serverIndex := serverIndex + 1;
        server := Waiting;
    }

    /** One step of the server's loop. */
    method Serve()
      requires Valid()
      modifies this
      ensures Enabled(old(Abs()), ServerStep(old(server)))
      ensures Valid() && Abs() == Next(old(Abs()), ServerStep(old(server)), eval)
    {
      hide Inv, Next;
      ServerStepEnabled(Abs(), eval, start);
      if server.Waiting? || server.Found? || server.Loaded? {
        ServeReading();
      } else {
        ServeWriting();
      }
    }

    /** Any number of server steps while the client sleeps. */
    method ServeFor(steps: nat)
      requires Valid() && client.Polling?
      modifies this
      ensures Valid() && client == old(client) && index == old(index) && answers == old(answers)
      ensures submissions == old(submissions) && timeouts == old(timeouts) && old(loads) <= loads
      ensures Distance(Abs()) == 0 || Distance(Abs()) + steps <= Distance(old(Abs()))
    {
      hide Inv, Distance, Next, Enabled;
      for i := 0 to steps
        invariant Valid() && client == old(client) && index == old(index) && answers == old(answers)
        invariant submissions == old(submissions) && timeouts == old(timeouts) && old(loads) <= loads
        invariant Distance(Abs()) == 0 || Distance(Abs()) + i <= Distance(old(Abs()))
      {
        ServerStepEnabled(Abs(), eval, start);
        ServerStepAdvances(Abs(), eval, start);
        Serve();
      }
    }

    /** `run`: write the request, then poll until the response is there or the deadline passes. The
      * server takes `turns[k]` steps before the k-th poll; None stands for ExecutionTimeoutError. */
    method Call(code: C, turns: seq<nat>) returns (content: Option<Content<R>>)
      requires Valid() && client.Idle?
      modifies this
      ensures Valid() && client.Idle? && submissions == old(submissions) + [(old(index), code)]
      ensures content.None? ==> index == old(index) && timeouts == old(timeouts) + 1 && answers == old(answers)
      ensures content.Some? ==>
        && index == old(index) + 1 && timeouts == old(timeouts) && old(index) < |loads|
        && (forall k :: 0 <= k < |loads| ==> loads[k] < |submissions|)
        && content.value == Whole(Reply(eval, start, LoadedCodes(Abs()), old(index)))
        && (loads[old(index)] == |old(submissions)| <==> |old(loads)| <= old(index))
      ensures Total(turns) >= 7 ==> content.Some?
    {
      hide Inv, Reply, Distance, Next, Enabled;
      CounterCountsAnswers(Abs(), eval, start);
      WriteRequest(code);
      ghost var written := Abs();
      DistanceBound(written);
      content := None;
      var k := 0;
      while k < |turns|
        invariant 0 <= k <= |turns|
        invariant Valid() && client == written.client && index == written.index && answers == written.answers
        invariant submissions == written.submissions && timeouts == written.timeouts
        invariant Distance(Abs()) + Total(turns) <= 7 + Total(turns[k..])
        invariant k > 0 ==> Distance(Abs()) > 0
        invariant content.None?
      {
        assert turns[k..][0] == turns[k] && turns[k..][1..] == turns[k + 1..];
        ServeFor(turns[k]);
        content := PollOnce();
        if content.Some? {
          LastAnswer(Abs(), eval, start, old(index));
          assert answers[old(index)] == Answer(written.client.attempt, written.client.late, content.value);
          return;
        }
        k := k + 1;
      }
      assert turns[|turns|..] == [];
      GiveUp();
    }
  }

  lemma CounterCountsAnswers<C, N, R>(s: State<C, N, R>, eval: Evaluator<C, N, R>, start: N)
    requires Inv(s, eval, start)
    ensures |s.answers| == s.index
  {
  }

  lemma DistanceBound<C, N, R>(s: State<C, N, R>)
    ensures Distance(s) <= 7
  {
  }

  lemma DistanceZero<C, N, R>(s: State<C, N, R>, eval: Evaluator<C, N, R>, start: N)
    requires Inv(s, eval, start)
    ensures s.client.Polling? && s.index !in s.responses ==> Distance(s) > 0
  {
    hide After, Reply, AnswersKept, PunctualKept, ServerKept;
  }

  /** The last answer, read off the invariant. */
  lemma LastAnswer<C, N, R>(s: State<C, N, R>, eval: Evaluator<C, N, R>, start: N, n: nat)
    requires Inv(s, eval, start) && |s.answers| == n + 1
    ensures n < |s.loads| && (forall k :: 0 <= k < |s.loads| ==> s.loads[k] < |s.submissions|)
    ensures s.answers[n].content == Whole(Reply(eval, start, LoadedCodes(s), n))
    ensures if s.answers[n].late then s.loads[n] < s.answers[n].attempt else s.loads[n] == s.answers[n].attempt
  {
    hide Reply, ServerKept, FilesKept, PunctualKept;
    assert AnswersKept(s, eval, start);
  }
}
