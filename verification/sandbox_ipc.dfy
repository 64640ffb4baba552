/**
 The sandbox's request/response protocol: any number of concurrent `Execute` calls, one
 read loop and one Node process joined by two pipes.

 Each step below is one atomic section of the source: what happens under the mutex, one
 atomic increment, one channel operation, or one line crossing a pipe. Every property is
 about all interleavings of these steps.
 */
module SandboxIpc {
  import opened Prelude

  /** A call of `Execute` is identified by `caller`; the identity is the model's, not the protocol's. */
  datatype Request = Request(caller: nat, script: string)

  /**
   A result or an error message: what Node computed for one request, or what some script
   printed itself, whose result may be missing. The two look alike to the read loop; the
   distinction is the model's.
   */
  datatype Answer =
    | Computed(request: Request, outcome: Result<string>)
    | Printed(reply: Result<Option<string>>)

  datatype Failure = MarshalFailed | WriteFailed | Cancelled | ProcessExited

  /** Where a call stands in `Execute`. `Failing` is on its way out, before `removeInflight`. */
  datatype Phase =
    | Allocated
    | Registered
    | Waiting
    | Failing(cause: Failure)
    | Failed(cause: Failure)
    | Returned(answer: Answer)

  /** `channel` is the buffered channel the call made; `sends` counts the sends to it so far. */
  datatype Call = Call(id: nat, request: Request, phase: Phase, channel: seq<Answer>, sends: nat)

  /** A line of Node's output. Scripts share it: they may print other lines, and lines that read as replies. */
  datatype Line = Noise | Reply(id: nat, answer: Answer)

  /** The read loop; between deleting the entry and sending it holds the channel of caller `to`. */
  datatype Reader = Scanning | Delivering(to: nat, answer: Answer) | Closed

  /**
   `inflight` maps an id to the caller whose channel is registered under it; `forged` collects
   the ids of the replies that scripts printed.
   */
  datatype State = State(
    nextId: nat,
    calls: map<nat, Call>,
    inflight: map<nat, nat>,
    toNode: seq<(nat, Request)>,
    received: set<(nat, Request)>,
    fromNode: seq<Line>,
    reader: Reader,
    forged: set<nat>)

  const CHANNEL_CAPACITY: nat := 1

  const INITIAL := State(0, map[], map[], [], {}, [], Scanning, {})

  datatype Step =
    | Allocate(caller: nat, script: string)
    | Register(caller: nat)
    | FailMarshal(caller: nat)
    | Write(caller: nat)
    | FailWrite(caller: nat)
    | Cancel(caller: nat)
    | NoticeExit(caller: nat)
    | RemoveInflight(caller: nat)
    | Receive(caller: nat)
    | NodeRead
    | NodeReply(id: nat, answer: Answer)
    | NodePrint(line: Line)
    | ReadLine
    | Deliver
    | EndOfOutput

  predicate InPhase(s: State, caller: nat, phase: Phase) {
    caller in s.calls && s.calls[caller].phase == phase
  }

  predicate Enabled(s: State, step: Step) {
    match step
    case Allocate(c, _) => c !in s.calls
    case Register(c) => InPhase(s, c, Allocated)
    case FailMarshal(c) => InPhase(s, c, Registered)
    case Write(c) => InPhase(s, c, Registered)
    case FailWrite(c) => InPhase(s, c, Registered)
    case Cancel(c) => InPhase(s, c, Waiting)
    case NoticeExit(c) => InPhase(s, c, Waiting) && s.reader.Closed?
    case RemoveInflight(c) => c in s.calls && s.calls[c].phase.Failing?
    case Receive(c) => InPhase(s, c, Waiting) && s.calls[c].channel != []
    case NodeRead => s.toNode != []
    case NodeReply(id, answer) => answer.Computed? && (id, answer.request) in s.received
    case NodePrint(line) => line.Reply? ==> line.answer.Printed?
    case ReadLine => s.reader.Scanning? && s.fromNode != []
    case Deliver => s.reader.Delivering? && s.reader.to in s.calls
                    && |s.calls[s.reader.to].channel| < CHANNEL_CAPACITY
    case EndOfOutput => s.reader.Scanning?
  }

  function WithPhase(s: State, caller: nat, phase: Phase): State
    requires caller in s.calls
  {
    s.(calls := s.calls[caller := s.calls[caller].(phase := phase)])
  }

  function Apply(s: State, step: Step): State
    requires Enabled(s, step)
  {
    match step
    case Allocate(c, script) =>
      s.(nextId := s.nextId + 1,
         calls := s.calls[c := Call(s.nextId + 1, Request(c, script), Allocated, [], 0)])
    case Register(c) =>
      WithPhase(s, c, Registered).(inflight := s.inflight[s.calls[c].id := c])
    case FailMarshal(c) => WithPhase(s, c, Failing(MarshalFailed))
    case Write(c) =>
      WithPhase(s, c, Waiting).(toNode := s.toNode + [(s.calls[c].id, s.calls[c].request)])
    case FailWrite(c) => WithPhase(s, c, Failing(WriteFailed))
    case Cancel(c) => WithPhase(s, c, Failing(Cancelled))
    case NoticeExit(c) => WithPhase(s, c, Failing(ProcessExited))
    case RemoveInflight(c) =>
      WithPhase(s, c, Failed(s.calls[c].phase.cause)).(inflight := s.inflight - {s.calls[c].id})
    case Receive(c) =>
      var call := s.calls[c];
      s.(calls := s.calls[c := call.(phase := Returned(call.channel[0]), channel := call.channel[1..])])
    case NodeRead => s.(toNode := s.toNode[1..], received := s.received + {s.toNode[0]})
    case NodeReply(id, answer) => s.(fromNode := s.fromNode + [Reply(id, answer)])
    case NodePrint(line) =>
      s.(fromNode := s.fromNode + [line], forged := s.forged + if line.Reply? then {line.id} else {})
    case ReadLine =>
      var rest := s.(fromNode := s.fromNode[1..]);
      (match s.fromNode[0]
       case Noise => rest
       case Reply(id, answer) =>
         if id in s.inflight
         then rest.(inflight := s.inflight - {id}, reader := Delivering(s.inflight[id], answer))
         else rest)
    case Deliver =>
      var call := s.calls[s.reader.to];
      s.(calls := s.calls[s.reader.to := call.(channel := call.channel + [s.reader.answer], sends := call.sends + 1)],
         reader := Scanning)
    case EndOfOutput => s.(reader := Closed)
  }

  /** The state after a sequence of steps, or `None` if one of them was not possible. */
  function After(steps: seq<Step>): Option<State> {
    if steps == [] then Some(INITIAL)
    else
      var before := After(steps[..|steps| - 1]);
      var step := steps[|steps| - 1];
      if before.Some? && Enabled(before.value, step) then Some(Apply(before.value, step)) else None
  }

  // ---------- what every step keeps ----------

  ghost predicate Awaiting(s: State, c: nat) {
    c in s.calls && (s.calls[c].phase.Registered? || s.calls[c].phase.Waiting?)
  }

  /** `c`'s request went out under `id`. */
  ghost predicate Owns(s: State, id: nat, request: Request) {
    request.caller in s.calls && s.calls[request.caller].id == id && s.calls[request.caller].request == request
  }

  /** Ids are handed out once and never again. */
  ghost predicate IdsFresh(s: State) {
    && (forall c :: c in s.calls ==> s.calls[c].id <= s.nextId && s.calls[c].request.caller == c)
    && (forall c, d :: c in s.calls && d in s.calls && s.calls[c].id == s.calls[d].id ==> c == d)
  }

  ghost predicate InflightOwned(s: State) {
    forall id :: id in s.inflight ==> EntryOwned(s, id)
  }

  ghost predicate EntryOwned(s: State, id: nat)
    requires id in s.inflight
  {
    var c := s.inflight[id];
    && c in s.calls && s.calls[c].id == id
    && (Awaiting(s, c) || s.calls[c].phase.Failing?)
    && s.calls[c].sends == 0
    && (s.reader.Delivering? ==> s.reader.to != c)
  }

  ghost predicate AnswersOwned(s: State) {
    && (forall i :: 0 <= i < |s.toNode| ==> Owns(s, s.toNode[i].0, s.toNode[i].1))
    && (forall p :: p in s.received ==> Owns(s, p.0, p.1))
    && (forall i :: 0 <= i < |s.fromNode| && s.fromNode[i].Reply? ==>
          ReplyOwned(s, s.fromNode[i].id, s.fromNode[i].answer))
  }

  /** A computed reply carries the id of its request, a printed one an id known to be forged. */
  ghost predicate ReplyOwned(s: State, id: nat, answer: Answer) {
    if answer.Computed? then Owns(s, id, answer.request) else id in s.forged
  }

  /** The answer is the call's own, or a printed one that used its id. */
  predicate Fits(c: Call, answer: Answer, forged: set<nat>) {
    if answer.Computed? then answer.request == c.request else c.id in forged
  }

  ghost predicate DeliveryOwned(s: State) {
    s.reader.Delivering? ==>
      && s.reader.to in s.calls && s.calls[s.reader.to].sends == 0
      && !s.calls[s.reader.to].phase.Allocated?
      && Fits(s.calls[s.reader.to], s.reader.answer, s.forged)
  }

  ghost predicate ChannelOwned(c: Call, forged: set<nat>) {
    && c.sends <= 1 && |c.channel| <= c.sends
    && (c.phase.Allocated? ==> c.sends == 0)
    && (c.channel != [] ==> Fits(c, c.channel[0], forged))
    && (c.phase.Returned? ==> Fits(c, c.phase.answer, forged))
  }

  ghost predicate ChannelsOwned(s: State) {
    forall c :: c in s.calls ==> ChannelOwned(s.calls[c], s.forged)
  }

  /** An awaited answer is in one place: still to be read, held by the read loop, or in the channel. */
  ghost predicate NothingLost(s: State) {
    forall c :: Awaiting(s, c) ==> Tracked(s, c)
  }

  ghost predicate Tracked(s: State, c: nat)
    requires c in s.calls
  {
    || (s.calls[c].id in s.inflight && s.inflight[s.calls[c].id] == c)
    || (s.reader.Delivering? && s.reader.to == c)
    || s.calls[c].channel != []
  }

  ghost predicate Invariant(s: State) {
    && IdsFresh(s) && InflightOwned(s) && AnswersOwned(s) && DeliveryOwned(s)
    && ChannelsOwned(s) && NothingLost(s)
  }

  lemma KeepsIds(s: State, step: Step)
    requires IdsFresh(s) && Enabled(s, step)
    ensures IdsFresh(Apply(s, step))
  {
    if step.Allocate? {
      AllocateKeepsIds(s, step.caller, step.script);
    } else {
      assert forall c :: c in Apply(s, step).calls <==> c in s.calls;
      assert forall c :: c in s.calls ==>
        Apply(s, step).calls[c].id == s.calls[c].id && Apply(s, step).calls[c].request == s.calls[c].request;
    }
  }

  lemma AllocateKeepsIds(s: State, c: nat, script: string)
    requires IdsFresh(s) && Enabled(s, Allocate(c, script))
    ensures IdsFresh(Apply(s, Allocate(c, script)))
  {
  }

  lemma KeepsInflight(s: State, step: Step)
    requires IdsFresh(s) && InflightOwned(s) && ChannelsOwned(s) && DeliveryOwned(s) && Enabled(s, step)
    ensures InflightOwned(Apply(s, step))
  {
    forall id | id in Apply(s, step).inflight ensures EntryOwned(Apply(s, step), id) {
      KeepsEntry(s, step, id);
    }
  }

  lemma KeepsEntry(s: State, step: Step, id: nat)
    requires IdsFresh(s) && InflightOwned(s) && ChannelsOwned(s) && DeliveryOwned(s) && Enabled(s, step)
    requires id in Apply(s, step).inflight
    ensures EntryOwned(Apply(s, step), id)
  {
    if step.Register? {
      RegisterKeepsEntry(s, step.caller, id);
    } else if step.ReadLine? {
      ReadLineKeepsEntry(s, id);
    } else {
      assert EntryOwned(s, id);
      if step.Receive? {
        assert ChannelOwned(s.calls[step.caller], s.forged);
      }
    }
  }

  lemma ReadLineKeepsEntry(s: State, id: nat)
    requires IdsFresh(s) && InflightOwned(s) && Enabled(s, ReadLine) && id in Apply(s, ReadLine).inflight
    ensures EntryOwned(Apply(s, ReadLine), id)
  {
    assert EntryOwned(s, id);
    if s.fromNode[0].Reply? && s.fromNode[0].id in s.inflight {
      assert EntryOwned(s, s.fromNode[0].id);
    }
  }

  lemma RegisterKeepsEntry(s: State, c: nat, id: nat)
    requires IdsFresh(s) && InflightOwned(s) && ChannelsOwned(s) && DeliveryOwned(s) && Enabled(s, Register(c))
    requires id in Apply(s, Register(c)).inflight
    ensures EntryOwned(Apply(s, Register(c)), id)
  {
    assert ChannelOwned(s.calls[c], s.forged);
    if id in s.inflight {
      assert EntryOwned(s, id);
    }
  }

  lemma KeepsAnswers(s: State, step: Step)
    requires IdsFresh(s) && AnswersOwned(s) && Enabled(s, step)
    ensures AnswersOwned(Apply(s, step))
  {
    var t := Apply(s, step);
    forall id, request | Owns(s, id, request) ensures Owns(t, id, request) {
      OwnsStays(s, step, id, request);
    }
    forall p | p in t.received ensures Owns(t, p.0, p.1) {
      if p !in s.received {
        assert p == s.toNode[0] && Owns(s, p.0, p.1);
      }
    }
    forall i | 0 <= i < |t.fromNode| && t.fromNode[i].Reply?
      ensures ReplyOwned(t, t.fromNode[i].id, t.fromNode[i].answer)
    {
      KeepsReply(s, step, i);
    }
  }

  lemma KeepsReply(s: State, step: Step, i: nat)
    requires AnswersOwned(s) && Enabled(s, step)
    requires i < |Apply(s, step).fromNode| && Apply(s, step).fromNode[i].Reply?
    ensures var line := Apply(s, step).fromNode[i];
            ReplyOwned(Apply(s, step), line.id, line.answer)
  {
    var line := Apply(s, step).fromNode[i];
    if step.ReadLine? {
      assert line == s.fromNode[i + 1] && ReplyOwned(s, line.id, line.answer);
    } else if i < |s.fromNode| {
      assert line == s.fromNode[i] && ReplyOwned(s, line.id, line.answer);
    } else if step.NodeReply? {
      var p := (step.id, step.answer.request);
      assert p in s.received && Owns(s, p.0, p.1);
    }
    if line.answer.Computed? {
      OwnsStays(s, step, line.id, line.answer.request);
    }
  }

  lemma OwnsStays(s: State, step: Step, id: nat, request: Request)
    requires Owns(s, id, request) && Enabled(s, step)
    ensures Owns(Apply(s, step), id, request)
  {
  }

  lemma KeepsDelivery(s: State, step: Step)
    requires Invariant(s) && Enabled(s, step)
    ensures DeliveryOwned(Apply(s, step))
  {
    if step.ReadLine? {
      ReadLineKeepsDelivery(s);
    }
  }

  /** The line taken off the pipe is for the caller registered under its id. */
  lemma ReadLineKeepsDelivery(s: State)
    requires IdsFresh(s) && InflightOwned(s) && AnswersOwned(s) && Enabled(s, ReadLine)
    ensures DeliveryOwned(Apply(s, ReadLine))
  {
    var line := s.fromNode[0];
    if line.Reply? && line.id in s.inflight {
      assert EntryOwned(s, line.id) && ReplyOwned(s, line.id, line.answer);
    }
  }

  lemma KeepsChannels(s: State, step: Step)
    requires DeliveryOwned(s) && ChannelsOwned(s) && Enabled(s, step)
    ensures ChannelsOwned(Apply(s, step))
  {
    var t := Apply(s, step);
    forall c | c in t.calls ensures ChannelOwned(t.calls[c], t.forged) {
      if c in s.calls {
        assert ChannelOwned(s.calls[c], s.forged);
      }
    }
  }

  lemma KeepsTracking(s: State, step: Step)
    requires Invariant(s) && Enabled(s, step)
    ensures NothingLost(Apply(s, step))
  {
    var t := Apply(s, step);
    forall c | Awaiting(t, c) ensures Tracked(t, c) {
      if step.Register? && step.caller == c {
      } else {
        assert Awaiting(s, c) && Tracked(s, c);
        if step.ReadLine? || step.RemoveInflight? {
          TakingOutKeepsTracked(s, step, c);
        } else {
          OthersKeepTracked(s, step, c);
        }
      }
    }
  }

  /** The two steps that take an entry out of the map: one hands it on, the other has given up waiting. */
  lemma TakingOutKeepsTracked(s: State, step: Step, c: nat)
    requires IdsFresh(s) && InflightOwned(s) && Enabled(s, step) && (step.ReadLine? || step.RemoveInflight?)
    requires Awaiting(s, c) && Tracked(s, c) && Awaiting(Apply(s, step), c)
    ensures Tracked(Apply(s, step), c)
  {
    if step.ReadLine? && s.fromNode[0].Reply? && s.fromNode[0].id in s.inflight {
      assert EntryOwned(s, s.fromNode[0].id);
    }
  }

  lemma OthersKeepTracked(s: State, step: Step, c: nat)
    requires IdsFresh(s) && Enabled(s, step) && !step.ReadLine? && !step.RemoveInflight?
    requires Awaiting(s, c) && Tracked(s, c) && Awaiting(Apply(s, step), c)
    ensures Tracked(Apply(s, step), c)
  {
  }

  lemma StepKeepsInvariant(s: State, step: Step)
    requires Invariant(s) && Enabled(s, step)
    ensures Invariant(Apply(s, step))
  {
    KeepsIds(s, step);
    KeepsInflight(s, step);
    KeepsAnswers(s, step);
    KeepsDelivery(s, step);
    KeepsChannels(s, step);
    KeepsTracking(s, step);
  }

  lemma {:induction false} InvariantAlways(steps: seq<Step>)
    requires After(steps).Some?
    ensures Invariant(After(steps).value)
    decreases |steps|
  {
    if steps != [] {
      InvariantAlways(steps[..|steps| - 1]);
      StepKeepsInvariant(After(steps[..|steps| - 1]).value, steps[|steps| - 1]);
    }
  }

  // ---------- what callers may rely on ----------

  /** In every interleaving no two calls share an id. */
  lemma IdsNeverRepeat(steps: seq<Step>, c: nat, d: nat)
    requires After(steps).Some?
    requires c in After(steps).value.calls && d in After(steps).value.calls && c != d
    ensures After(steps).value.calls[c].id != After(steps).value.calls[d].id
  {
    InvariantAlways(steps);
  }

  /**
   Whatever the order of completion, a call that returns an answer returns the answer to its
   own request, unless some script printed a reply with the call's id; and then what it returns
   is its own answer or such a printed reply, never another call's answer.
   */
  lemma AnswersOwnRequest(steps: seq<Step>, c: nat)
    requires After(steps).Some?
    requires c in After(steps).value.calls && After(steps).value.calls[c].phase.Returned?
    ensures var s := After(steps).value;
            && (s.calls[c].phase.answer.Computed? ==> s.calls[c].phase.answer.request == s.calls[c].request)
            && (s.calls[c].id !in s.forged ==> s.calls[c].phase.answer.Computed?)
  {
    InvariantAlways(steps);
    var s := After(steps).value;
    assert ChannelOwned(s.calls[c], s.forged);
  }

  lemma {:induction false} AfterSnoc(steps: seq<Step>, s: State, step: Step)
    requires After(steps) == Some(s) && Enabled(s, step)
    ensures After(steps + [step]) == Some(Apply(s, step))
  {
    assert (steps + [step])[..|steps|] == steps;
  }

  /**
   The exception is real: whenever a call waits and the pipe from Node is empty, a script that
   prints a reply with that call's id makes it return what was printed, whichever script it is,
   and nothing else changes for the other calls.
   */
  lemma {:induction false} PrintedReplyIsReturned(steps: seq<Step>, s: State, c: nat, reply: Result<Option<string>>)
    requires After(steps) == Some(s)
    requires InPhase(s, c, Waiting) && s.calls[c].id in s.inflight && s.reader.Scanning? && s.fromNode == []
    ensures After(PrintReply(steps, c, s.calls[c].id, reply)) == Some(AnsweredWith(s, c, Printed(reply)))
  {
    var id := s.calls[c].id;
    InvariantAlways(steps);
    assert EntryOwned(s, id) && s.inflight[id] == c && ChannelOwned(s.calls[c], s.forged);
    PrintedIsRead(s, c, reply);
    DeliveredIsReceived(s, c, Printed(reply));
    FourMore(steps, s, NodePrint(Reply(id, Printed(reply))), ReadLine, Deliver, Receive(c));
  }

  /** Call `c` has returned `answer`, which was printed; the other calls are as they were. */
  function AnsweredWith(s: State, c: nat, answer: Answer): State
    requires c in s.calls
  {
    var call := s.calls[c];
    s.(calls := s.calls[c := call.(phase := Returned(answer), sends := 1)],
       inflight := s.inflight - {call.id}, forged := s.forged + {call.id})
  }

  function BeforeDelivery(s: State, c: nat, answer: Answer): State
    requires c in s.calls
  {
    var id := s.calls[c].id;
    s.(inflight := s.inflight - {id}, reader := Delivering(c, answer), forged := s.forged + {id})
  }

  lemma PrintedIsRead(s: State, c: nat, reply: Result<Option<string>>)
    requires c in s.calls && s.calls[c].id in s.inflight && s.inflight[s.calls[c].id] == c
    requires s.reader.Scanning? && s.fromNode == []
    ensures var prints := NodePrint(Reply(s.calls[c].id, Printed(reply)));
            && Enabled(s, prints) && Enabled(Apply(s, prints), ReadLine)
            && Apply(Apply(s, prints), ReadLine) == BeforeDelivery(s, c, Printed(reply))
  {
    var line := Reply(s.calls[c].id, Printed(reply));
    assert (s.fromNode + [line])[0] == line && (s.fromNode + [line])[1..] == [];
  }

  lemma DeliveredIsReceived(s: State, c: nat, answer: Answer)
    requires InPhase(s, c, Waiting) && s.calls[c].channel == [] && s.calls[c].sends == 0 && s.reader.Scanning?
    ensures var t := BeforeDelivery(s, c, answer);
            && Enabled(t, Deliver) && Enabled(Apply(t, Deliver), Receive(c))
            && Apply(Apply(t, Deliver), Receive(c)) == AnsweredWith(s, c, answer)
  {
    var t := Apply(BeforeDelivery(s, c, answer), Deliver);
    assert [] + [answer] == [answer] && [answer][1..] == [];
    assert t.calls == s.calls[c := s.calls[c].(channel := [answer], sends := 1)];
    assert Apply(t, Receive(c)).calls == AnsweredWith(s, c, answer).calls;
  }

  lemma {:induction false} FourMore(steps: seq<Step>, s: State, a: Step, b: Step, c: Step, d: Step)
    requires After(steps) == Some(s) && Enabled(s, a) && Enabled(Apply(s, a), b) && Enabled(Apply(Apply(s, a), b), c)
    requires Enabled(Apply(Apply(Apply(s, a), b), c), d)
    ensures After((((steps + [a]) + [b]) + [c]) + [d]) == Some(Apply(Apply(Apply(Apply(s, a), b), c), d))
  {
    AfterSnoc(steps, s, a);
    AfterSnoc(steps + [a], Apply(s, a), b);
    AfterSnoc((steps + [a]) + [b], Apply(Apply(s, a), b), c);
    AfterSnoc(((steps + [a]) + [b]) + [c], Apply(Apply(Apply(s, a), b), c), d);
  }

  function PrintReply(steps: seq<Step>, c: nat, id: nat, reply: Result<Option<string>>): seq<Step> {
    ((((steps + [NodePrint(Reply(id, Printed(reply)))]) + [ReadLine]) + [Deliver]) + [Receive(c)])
  }

  function Start(steps: seq<Step>, c: nat, script: string): seq<Step> {
    ((steps + [Allocate(c, script)]) + [Register(c)]) + [Write(c)]
  }

  function WaitingFor(s: State, c: nat, script: string): State {
    var id, request := s.nextId + 1, Request(c, script);
    s.(nextId := id, calls := s.calls[c := Call(id, request, Waiting, [], 0)],
       inflight := s.inflight[id := c], toNode := s.toNode + [(id, request)])
  }

  /** A new call can always get as far as waiting for its answer. */
  lemma {:induction false} NewCallWaits(steps: seq<Step>, s: State, c: nat, script: string)
    requires After(steps) == Some(s) && c !in s.calls
    ensures After(Start(steps, c, script)) == Some(WaitingFor(s, c, script))
  {
    var s1 := Apply(s, Allocate(c, script));
    var s2 := Apply(s1, Register(c));
    AfterSnoc(steps, s, Allocate(c, script));
    AfterSnoc(steps + [Allocate(c, script)], s1, Register(c));
    AfterSnoc((steps + [Allocate(c, script)]) + [Register(c)], s2, Write(c));
    assert Apply(s2, Write(c)).calls == s.calls[c := Call(s.nextId + 1, Request(c, script), Waiting, [], 0)];
  }

  /** Node can read all requests that have been written. */
  lemma {:induction false} NodeReadsAll(steps: seq<Step>, s: State) returns (more: seq<Step>, t: State)
    requires After(steps) == Some(s)
    ensures After(more) == Some(t) && t == s.(toNode := [], received := t.received)
    ensures s.received <= t.received && forall p :: p in s.toNode ==> p in t.received
    decreases |s.toNode|
  {
    more, t := steps, s;
    if s.toNode != [] {
      AfterSnoc(steps, s, NodeRead);
      more, t := NodeReadsAll(steps + [NodeRead], Apply(s, NodeRead));
      assert s.toNode == [s.toNode[0]] + s.toNode[1..];
    }
  }

  /** Call `c` waits, and Node has its request, of which no answer has reached the read loop. */
  predicate Running(s: State, c: nat) {
    && InPhase(s, c, Waiting) && (s.calls[c].id, s.calls[c].request) in s.received
    && s.calls[c].id in s.inflight && s.fromNode == []
  }

  /** From any such state on: while call `c`'s script is running, the next call `d` is answered by a printed reply. */
  lemma {:induction false} AnotherScriptCanAnswer(steps: seq<Step>, s: State, c: nat, d: nat, reply: Result<Option<string>>)
    returns (more: seq<Step>, end: State)
    requires After(steps) == Some(s) && s.reader.Scanning? && s.fromNode == []
    requires c !in s.calls && d !in s.calls && c != d
    ensures After(more) == Some(end) && Running(end, c) && InPhase(end, d, Returned(Printed(reply)))
  {
    var waiting := WaitingFor(s, c, "a");
    NewCallWaits(steps, s, c, "a");
    assert waiting.toNode[|s.toNode|] == (s.nextId + 1, Request(c, "a"));
    var before, running := NodeReadsAll(Start(steps, c, "a"), waiting);
    var both := WaitingFor(running, d, "b");
    NewCallWaits(before, running, d, "b");
    PrintedReplyIsReturned(Start(before, d, "b"), both, d, reply);
    OtherStaysRunning(running, c, d, Printed(reply));
    more := PrintReply(Start(before, d, "b"), d, both.calls[d].id, reply);
    end := AnsweredWith(both, d, Printed(reply));
  }

  lemma OtherStaysRunning(s: State, c: nat, d: nat, answer: Answer)
    requires Running(s, c) && c != d && s.calls[c].id <= s.nextId
    ensures var t := AnsweredWith(WaitingFor(s, d, "b"), d, answer);
            Running(t, c) && InPhase(t, d, Returned(answer))
  {
  }

  /** Each channel is sent to at most once, so the read loop finds room whenever it delivers. */
  lemma DeliveryNeverBlocks(steps: seq<Step>)
    requires After(steps).Some?
    ensures forall c :: c in After(steps).value.calls ==> After(steps).value.calls[c].sends <= 1
    ensures After(steps).value.reader.Delivering? ==> Enabled(After(steps).value, Deliver)
  {
    InvariantAlways(steps);
    var s := After(steps).value;
    forall c | c in s.calls ensures s.calls[c].sends <= 1 {
      assert ChannelOwned(s.calls[c], s.forged);
    }
  }

  /** A call that is over, by whatever path, has left nothing in the in-flight map. */
  lemma NoEntryOutlivesItsCall(steps: seq<Step>, c: nat)
    requires After(steps).Some?
    requires c in After(steps).value.calls
    requires After(steps).value.calls[c].phase.Failed? || After(steps).value.calls[c].phase.Returned?
    ensures After(steps).value.calls[c].id !in After(steps).value.inflight
    ensures forall id :: id in After(steps).value.inflight ==> After(steps).value.inflight[id] != c
  {
    InvariantAlways(steps);
  }

  /** A waiting call whose entry is gone has its answer in the channel or on the way there. */
  lemma AnswersNeverLost(steps: seq<Step>, c: nat)
    requires After(steps).Some?
    requires InPhase(After(steps).value, c, Waiting)
    ensures var s := After(steps).value;
            s.calls[c].id in s.inflight || Enabled(s, Receive(c)) || (s.reader.Delivering? && s.reader.to == c)
  {
    InvariantAlways(steps);
    assert Awaiting(After(steps).value, c) && Tracked(After(steps).value, c);
  }

  /** Once Node is gone every waiting call can leave; and if its answer was read, it can still take it. */
  lemma NoCallStuckAfterExit(steps: seq<Step>, c: nat)
    requires After(steps).Some?
    requires InPhase(After(steps).value, c, Waiting) && After(steps).value.reader.Closed?
    ensures Enabled(After(steps).value, NoticeExit(c))
    ensures After(steps).value.calls[c].id in After(steps).value.inflight || Enabled(After(steps).value, Receive(c))
  {
    AnswersNeverLost(steps, c);
  }

  // ---------- what a call can count on ----------

  /** The read loop ends with Node's output and for no other reason. */
  lemma {:induction false} ReaderClosesAtEnd(steps: seq<Step>)
    requires After(steps).Some? && After(steps).value.reader.Closed?
    ensures EndOfOutput in steps
    decreases |steps|
  {
    if steps != [] {
      var before, step := steps[..|steps| - 1], steps[|steps| - 1];
      if After(before).value.reader.Closed? {
        ReaderClosesAtEnd(before);
      } else {
        assert step.EndOfOutput?;
      }
    }
  }

  /** A call fails for what happened to it, and for nothing else. */
  lemma {:induction false} FailureHasCause(steps: seq<Step>, c: nat)
    requires After(steps).Some? && c in After(steps).value.calls
    ensures var phase := After(steps).value.calls[c].phase;
            phase.Failing? || phase.Failed? ==>
              match phase.cause
              case MarshalFailed => FailMarshal(c) in steps
              case WriteFailed => FailWrite(c) in steps
              case Cancelled => Cancel(c) in steps
              case ProcessExited => NoticeExit(c) in steps && EndOfOutput in steps
    decreases |steps|
  {
    if steps != [] {
      var before, step := steps[..|steps| - 1], steps[|steps| - 1];
      if c in After(before).value.calls {
        FailureHasCause(before, c);
      }
      if step == NoticeExit(c) {
        ReaderClosesAtEnd(before);
      }
    }
  }

  /** Why a call may give up at this point. */
  predicate MayGiveUp(s: State, c: nat, step: Step, cause: Failure) {
    match step
    case FailMarshal(d) => d == c && cause.MarshalFailed? && InPhase(s, c, Registered)
    case FailWrite(d) => d == c && cause.WriteFailed? && InPhase(s, c, Registered)
    case Cancel(d) => d == c && cause.Cancelled? && InPhase(s, c, Waiting)
    case NoticeExit(d) => d == c && cause.ProcessExited? && InPhase(s, c, Waiting) && s.reader.Closed?
    case _ => false
  }

  /**
   A call that cannot be marshalled or written, or that is cancelled or finds Node gone while it waits,
   gives up with that cause and takes its entry away; nothing else changes.
   */
  lemma GivingUp(s: State, c: nat, step: Step, cause: Failure)
    requires MayGiveUp(s, c, step, cause)
    ensures Enabled(s, step) && Enabled(Apply(s, step), RemoveInflight(c))
    ensures Apply(Apply(s, step), RemoveInflight(c))
         == s.(calls := s.calls[c := s.calls[c].(phase := Failed(cause))], inflight := s.inflight - {s.calls[c].id})
  {
    var t := Apply(s, step);
    assert t == s.(calls := s.calls[c := s.calls[c].(phase := Failing(cause))]);
    assert Apply(t, RemoveInflight(c)).calls == s.calls[c := s.calls[c].(phase := Failed(cause))];
  }

  /** Node's output may end whenever the read loop scans, and then every waiting call can leave. */
  lemma OutputCanEnd(s: State, c: nat)
    requires s.reader.Scanning? && InPhase(s, c, Waiting)
    ensures Enabled(s, EndOfOutput)
    ensures var t := Apply(s, EndOfOutput);
            t == s.(reader := Closed) && Enabled(t, NoticeExit(c))
  {
  }

  /** The request of a waiting call is on its way to Node or there. */
  predicate Underway(s: State, c: nat)
    requires c in s.calls
  {
    (s.calls[c].id, s.calls[c].request) in s.toNode || (s.calls[c].id, s.calls[c].request) in s.received
  }

  lemma StepKeepsUnderway(s: State, step: Step, c: nat)
    requires Enabled(s, step) && InPhase(Apply(s, step), c, Waiting)
    requires InPhase(s, c, Waiting) ==> Underway(s, c)
    ensures Underway(Apply(s, step), c)
  {
    var t := Apply(s, step);
    if step.NodeRead? {
      assert s.toNode == [s.toNode[0]] + s.toNode[1..];
    } else if step == Write(c) {
      assert t.toNode[|s.toNode|] == (s.calls[c].id, s.calls[c].request);
    }
  }

  lemma {:induction false} RequestUnderway(steps: seq<Step>, c: nat)
    requires After(steps).Some? && InPhase(After(steps).value, c, Waiting)
    ensures Underway(After(steps).value, c)
    decreases |steps|
  {
    if steps != [] {
      var before, step := steps[..|steps| - 1], steps[|steps| - 1];
      if InPhase(After(before).value, c, Waiting) {
        RequestUnderway(before, c);
      }
      StepKeepsUnderway(After(before).value, step, c);
    }
  }

  /** Call `c` waits, its entry is there, and the first reply under its id is line `n` of those to come. */
  predicate AnswerAhead(s: State, c: nat, n: nat, answer: Answer) {
    && InPhase(s, c, Waiting) && s.calls[c].id in s.inflight && !s.reader.Closed?
    && n < |s.fromNode| && s.fromNode[n] == Reply(s.calls[c].id, answer)
    && forall i :: 0 <= i < n && s.fromNode[i].Reply? ==> s.fromNode[i].id != s.calls[c].id
  }

  /** The steps by which the read loop and the call get on, with nothing new from Node and no end of it. */
  predicate ReadsOn(steps: seq<Step>, c: nat) {
    forall i :: 0 <= i < |steps| ==> steps[i].ReadLine? || steps[i].Deliver? || steps[i] == Receive(c)
  }

  lemma DeliverKeepsAhead(s: State, c: nat, n: nat, answer: Answer)
    requires Invariant(s) && AnswerAhead(s, c, n, answer) && s.reader.Delivering?
    ensures Enabled(s, Deliver)
    ensures AnswerAhead(Apply(s, Deliver), c, n, answer) && Apply(s, Deliver).reader.Scanning?
  {
    assert EntryOwned(s, s.calls[c].id) && s.inflight[s.calls[c].id] == c;
    assert ChannelOwned(s.calls[s.reader.to], s.forged);
  }

  lemma ReadKeepsAhead(s: State, c: nat, n: nat, answer: Answer)
    requires AnswerAhead(s, c, n, answer) && s.reader.Scanning? && n > 0
    ensures Enabled(s, ReadLine) && AnswerAhead(Apply(s, ReadLine), c, n - 1, answer)
  {
    var t := Apply(s, ReadLine);
    assert t.calls == s.calls && forall i :: 0 <= i < |t.fromNode| ==> t.fromNode[i] == s.fromNode[i + 1];
  }

  /** The answer itself is read and handed over. */
  lemma AnswerIsTaken(s: State, c: nat, answer: Answer)
    requires Invariant(s) && AnswerAhead(s, c, 0, answer) && s.reader.Scanning?
    ensures Enabled(s, ReadLine) && Enabled(Apply(s, ReadLine), Deliver)
    ensures var t := Apply(Apply(s, ReadLine), Deliver);
            Enabled(t, Receive(c)) && InPhase(Apply(t, Receive(c)), c, Returned(answer))
  {
    assert EntryOwned(s, s.calls[c].id) && s.inflight[s.calls[c].id] == c;
    assert ChannelOwned(s.calls[c], s.forged);
    assert s.calls[c].channel + [answer] == [answer];
  }

  /** The state after going on from `s`. */
  function GoOn(s: State, more: seq<Step>): Option<State>
    decreases |more|
  {
    if more == [] then Some(s) else if Enabled(s, more[0]) then GoOn(Apply(s, more[0]), more[1..]) else None
  }

  lemma {:induction false} AfterMore(steps: seq<Step>, s: State, more: seq<Step>)
    requires After(steps) == Some(s) && GoOn(s, more).Some?
    ensures After(steps + more) == GoOn(s, more)
    decreases |more|
  {
    if more == [] {
      assert steps + more == steps;
    } else {
      AfterSnoc(steps, s, more[0]);
      AfterMore(steps + [more[0]], Apply(s, more[0]), more[1..]);
      assert (steps + [more[0]]) + more[1..] == steps + more;
    }
  }

  /** By these steps call `c` comes to return the answer. */
  predicate Reaches(s: State, c: nat, answer: Answer, more: seq<Step>) {
    ReadsOn(more, c) && GoOn(s, more).Some? && InPhase(GoOn(s, more).value, c, Returned(answer))
  }

  lemma {:induction false} StepReaches(s: State, step: Step, c: nat, answer: Answer, rest: seq<Step>)
    requires Enabled(s, step) && (step.ReadLine? || step.Deliver? || step == Receive(c))
    requires Reaches(Apply(s, step), c, answer, rest)
    ensures Reaches(s, c, answer, [step] + rest)
  {
    assert ([step] + rest)[1..] == rest;
  }

  lemma {:induction false} ReplyIsReached(s: State, c: nat, n: nat, answer: Answer) returns (more: seq<Step>)
    requires Invariant(s) && AnswerAhead(s, c, n, answer)
    ensures Reaches(s, c, answer, more)
    decreases n, if s.reader.Delivering? then 1 else 0
  {
    var step := if s.reader.Delivering? then Deliver else ReadLine;
    if s.reader.Scanning? && n == 0 {
      AnswerIsTaken(s, c, answer);
      var s1 := Apply(s, ReadLine);
      var s2 := Apply(s1, Deliver);
      assert Reaches(Apply(s2, Receive(c)), c, answer, []);
      StepReaches(s2, Receive(c), c, answer, []);
      StepReaches(s1, Deliver, c, answer, [Receive(c)] + []);
      more := [Deliver] + ([Receive(c)] + []);
    } else {
      if s.reader.Delivering? {
        DeliverKeepsAhead(s, c, n, answer);
      } else {
        ReadKeepsAhead(s, c, n, answer);
      }
      StepKeepsInvariant(s, step);
      more := ReplyIsReached(Apply(s, step), c, if s.reader.Delivering? then n else n - 1, answer);
    }
    StepReaches(s, step, c, answer, more);
    more := [step] + more;
  }

  /**
   Whatever lines stand before it, printed ones that are no replies and replies to other calls among
   them: a reply that is under way reaches the call that waits for it.
   */
  lemma {:induction false} AnswerArrives(steps: seq<Step>, s: State, c: nat, n: nat, answer: Answer)
    returns (more: seq<Step>)
    requires After(steps) == Some(s) && AnswerAhead(s, c, n, answer)
    ensures ReadsOn(more, c) && After(steps + more).Some?
    ensures InPhase(After(steps + more).value, c, Returned(answer))
  {
    InvariantAlways(steps);
    more := ReplyIsReached(s, c, n, answer);
    AfterMore(steps, s, more);
  }

  /** In every reachable state: a call that waits unanswered can still get whatever Node makes of its request. */
  lemma {:induction false} WaitingCallCanFinish(steps: seq<Step>, s: State, c: nat, outcome: Result<string>)
    returns (all: seq<Step>)
    requires After(steps) == Some(s) && InPhase(s, c, Waiting) && s.calls[c].id in s.inflight && !s.reader.Closed?
    requires forall i :: 0 <= i < |s.fromNode| && s.fromNode[i].Reply? ==> s.fromNode[i].id != s.calls[c].id
    ensures After(all).Some? && InPhase(After(all).value, c, Returned(Computed(s.calls[c].request, outcome)))
  {
    RequestUnderway(steps, c);
    var before, t := NodeReadsAll(steps, s);
    var id, answer := t.calls[c].id, Computed(t.calls[c].request, outcome);
    AfterSnoc(before, t, NodeReply(id, answer));
    var replied := Apply(t, NodeReply(id, answer));
    var n := |t.fromNode|;
    assert replied.fromNode[n] == Reply(id, answer) && forall i :: 0 <= i < n ==> replied.fromNode[i] == t.fromNode[i];
    var more := AnswerArrives(before + [NodeReply(id, answer)], replied, c, n, answer);
    all := (before + [NodeReply(id, answer)]) + more;
  }
}
