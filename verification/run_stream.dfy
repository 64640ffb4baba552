/**
 The event stream of one collection run: a producer appends events to a log and offers
 each one to a bounded channel without ever waiting; live readers share the channel;
 readers that come after completion get a replay of the log.

 One step is one critical section, one channel operation or one handler decision.
 Events are identified by their position in the log.
 */
module RunStream {
  import opened Prelude

  datatype Event = Start | RequestDone(name: string) | Done | Error(message: string)

  predicate IsFinal(e: Event) {
    e.Done? || e.Error?
  }

  /** `Sending`: the last log entry is appended and still to be offered to the channel. */
  datatype Producer = Ready | Sending | Finishing | Marked | Gone

  datatype Reader =
    | Live(got: seq<nat>)
    | Ended(got: seq<nat>)
    | Disconnected(got: seq<nat>)
    | Replayed(events: seq<Event>)

  /** What became of an offered event. */
  datatype Fate = Queued | Dropped | Received(reader: nat)

  datatype State = State(
    capacity: nat,
    log: seq<Event>,
    queue: seq<nat>,
    fates: seq<Fate>,
    producer: Producer,
    done: bool,
    hasSummary: bool,
    closed: bool,
    readers: map<nat, Reader>)

  function Initial(capacity: nat): State {
    State(capacity, [], [], [], Ready, false, false, false, map[])
  }

  datatype Step =
    | Append(event: Event)
    | Offer
    | MarkDone
    | Close
    | Attach(reader: nat)
    | Take(reader: nat)
    | NoticeClosed(reader: nat)
    | Disconnect(reader: nat)

  predicate IsLive(s: State, r: nat) {
    r in s.readers && s.readers[r].Live?
  }

  predicate Enabled(s: State, step: Step) {
    match step
    case Append(e) => s.producer.Ready? && (s.log == [] <==> e.Start?)
    case Offer => s.producer.Sending? && s.log != []
    case MarkDone => s.producer.Finishing? && s.log != []
    case Close => s.producer.Marked?
    case Attach(r) => r !in s.readers
    case Take(r) => IsLive(s, r) && s.queue != [] && s.queue[0] < |s.fates|
    case NoticeClosed(r) => IsLive(s, r) && s.queue == [] && s.closed
    case Disconnect(r) => IsLive(s, r)
  }

  function Apply(s: State, step: Step): State
    requires Enabled(s, step)
  {
    match step
    case Append(e) => s.(log := s.log + [e], producer := Sending)
    case Offer =>
      var next := if IsFinal(s.log[|s.log| - 1]) then Finishing else Ready;
      if |s.queue| < s.capacity
      then s.(queue := s.queue + [|s.log| - 1], fates := s.fates + [Queued], producer := next)
      else s.(fates := s.fates + [Dropped], producer := next)
    case MarkDone => s.(done := true, hasSummary := s.log[|s.log| - 1].Done?, producer := Marked)
    case Close => s.(closed := true, producer := Gone)
    case Attach(r) => s.(readers := s.readers[r := if s.done then Replayed(s.log) else Live([])])
    case Take(r) =>
      s.(queue := s.queue[1..],
         fates := s.fates[s.queue[0] := Received(r)],
         readers := s.readers[r := Live(s.readers[r].got + [s.queue[0]])])
    case NoticeClosed(r) => s.(readers := s.readers[r := Ended(s.readers[r].got)])
    case Disconnect(r) => s.(readers := s.readers[r := Disconnected(s.readers[r].got)])
  }

  function After(capacity: nat, steps: seq<Step>): Option<State> {
    if steps == [] then Some(Initial(capacity))
    else
      var before := After(capacity, steps[..|steps| - 1]);
      var step := steps[|steps| - 1];
      if before.Some? && Enabled(before.value, step) then Some(Apply(before.value, step)) else None
  }

  /** The status handler: a summary once the run is done and has one, "running" otherwise. */
  predicate ReportsSummary(s: State) {
    s.done && s.hasSummary
  }

  // ---------- what every step keeps ----------

  predicate Increasing(s: seq<nat>) {
    forall i, j :: 0 <= i < j < |s| ==> s[i] < s[j]
  }

  /** Events received live; a replay is not part of the channel's traffic. */
  function Got(r: Reader): seq<nat> {
    if r.Replayed? then [] else r.got
  }

  ghost predicate LogShape(s: State) {
    && (forall i :: 0 <= i < |s.log| ==> (s.log[i].Start? <==> i == 0))
    && (forall i :: 0 <= i < |s.log| - 1 ==> !IsFinal(s.log[i]))
    && |s.log| == |s.fates| + (if s.producer.Sending? then 1 else 0)
    && (s.producer.Finishing? || s.producer.Marked? || s.producer.Gone? ==> s.log != [] && IsFinal(s.log[|s.log| - 1]))
    && (s.producer.Ready? && s.log != [] ==> !IsFinal(s.log[|s.log| - 1]))
  }

  ghost predicate Lifecycle(s: State) {
    && (s.done <==> s.producer.Marked? || s.producer.Gone?)
    && (s.closed <==> s.producer.Gone?)
    && (s.hasSummary <==> s.done && s.log != [] && s.log[|s.log| - 1].Done?)
  }

  ghost predicate QueueHolds(s: State) {
    QueueMatches(s.queue, s.fates)
  }

  ghost predicate ReaderHolds(s: State, r: nat)
    requires r in s.readers
  {
    var got := Got(s.readers[r]);
    && Increasing(got)
    && (forall i :: 0 <= i < |got| ==> got[i] < |s.fates| && s.fates[got[i]] == Received(r))
    && (forall i, j :: 0 <= i < |got| && 0 <= j < |s.queue| ==> got[i] < s.queue[j])
  }

  ghost predicate ReadersHold(s: State) {
    && (forall r :: r in s.readers ==> ReaderHolds(s, r))
    && (forall n :: 0 <= n < |s.fates| && s.fates[n].Received? ==>
          s.fates[n].reader in s.readers && n in Got(s.readers[s.fates[n].reader]))
    && (forall r :: r in s.readers && s.readers[r].Replayed? ==> s.done && s.readers[r].events == s.log)
    && (forall r :: r in s.readers && s.readers[r].Ended? ==> s.closed && s.queue == [])
  }

  ghost predicate Invariant(s: State) {
    LogShape(s) && Lifecycle(s) && QueueHolds(s) && ReadersHold(s)
  }

  lemma {:induction false} KeepsLog(s: State, step: Step)
    requires LogShape(s) && Lifecycle(s) && Enabled(s, step)
    ensures LogShape(Apply(s, step)) && Lifecycle(Apply(s, step))
  {
  }

  lemma {:induction false} KeepsQueue(s: State, step: Step)
    requires Invariant(s) && Enabled(s, step)
    ensures QueueHolds(Apply(s, step))
  {
    if step.Take? {
      TakeKeepsQueue(s, step.reader);
    } else if step.Offer? {
      OfferKeepsQueue(s);
    }
  }

  lemma {:induction false} TakeKeepsQueue(s: State, r: nat)
    requires QueueHolds(s) && Enabled(s, Take(r))
    ensures QueueHolds(Apply(s, Take(r)))
  {
    var t := Apply(s, Take(r));
    forall n | 0 <= n < |t.fates| && t.fates[n] == Queued ensures n in t.queue {
      assert n in s.queue;
      var i :| 0 <= i < |s.queue| && s.queue[i] == n;
      assert t.queue[i - 1] == n;
    }
  }

  lemma {:induction false} OfferKeepsQueue(s: State)
    requires LogShape(s) && QueueHolds(s) && Enabled(s, Offer)
    ensures QueueHolds(Apply(s, Offer))
  {
    if |s.queue| < s.capacity {
      QueueGrows(s.queue, s.fates);
    }
  }

  /** The queue and the fates tell the same of every event offered so far. */
  ghost predicate QueueMatches(queue: seq<nat>, fates: seq<Fate>) {
    && Increasing(queue)
    && (forall i :: 0 <= i < |queue| ==> queue[i] < |fates| && fates[queue[i]] == Queued)
    && (forall n :: 0 <= n < |fates| && fates[n] == Queued ==> n in queue)
  }

  lemma QueueGrows(queue: seq<nat>, fates: seq<Fate>)
    requires QueueMatches(queue, fates)
    ensures QueueMatches(queue + [|fates|], fates + [Queued])
  {
    var queue', fates' := queue + [|fates|], fates + [Queued];
    forall n | 0 <= n < |fates'| && fates'[n] == Queued ensures n in queue' {
      if n < |fates| {
        assert fates[n] == Queued && n in queue;
      } else {
        assert queue'[|queue|] == n;
      }
    }
  }

  lemma {:induction false} KeepsReader(s: State, step: Step, r: nat)
    requires Invariant(s) && Enabled(s, step) && r in Apply(s, step).readers
    ensures ReaderHolds(Apply(s, step), r)
  {
    if r in s.readers {
      assert ReaderHolds(s, r);
      if step.Take? {
        TakeKeepsReader(s, step.reader, r);
      } else if step.Offer? {
        OfferKeepsReader(s, r);
      }
    }
  }

  lemma {:induction false} OfferKeepsReader(s: State, r: nat)
    requires LogShape(s) && r in s.readers && ReaderHolds(s, r) && Enabled(s, Offer)
    ensures ReaderHolds(Apply(s, Offer), r)
  {
    var t := Apply(s, Offer);
    var got := Got(s.readers[r]);
    assert t.readers == s.readers;
    forall i | 0 <= i < |got| ensures got[i] < |t.fates| && t.fates[got[i]] == Received(r) {
      assert t.fates[got[i]] == s.fates[got[i]];
    }
    forall i, j | 0 <= i < |got| && 0 <= j < |t.queue| ensures got[i] < t.queue[j] {
      if j < |s.queue| {
        assert t.queue[j] == s.queue[j];
      } else {
        assert t.queue[j] == |s.fates|;
      }
    }
  }

  lemma {:induction false} TakeKeepsReader(s: State, taker: nat, r: nat)
    requires QueueHolds(s) && r in s.readers && ReaderHolds(s, r) && Enabled(s, Take(taker))
    ensures ReaderHolds(Apply(s, Take(taker)), r)
  {
    var t := Apply(s, Take(taker));
    var got, got' := Got(s.readers[r]), Got(t.readers[r]);
    assert forall j :: 0 <= j < |t.queue| ==> t.queue[j] == s.queue[j + 1];
    if r == taker {
      assert got' == got + [s.queue[0]];
    }
  }

  lemma {:induction false} KeepsReceipts(s: State, step: Step, n: nat)
    requires Invariant(s) && Enabled(s, step)
    requires n < |Apply(s, step).fates| && Apply(s, step).fates[n].Received?
    ensures var t := Apply(s, step);
            t.fates[n].reader in t.readers && n in Got(t.readers[t.fates[n].reader])
  {
    var t := Apply(s, step);
    if step.Take? && n == s.queue[0] {
      var got := t.readers[step.reader].got;
      assert got[|got| - 1] == n;
    } else {
      assert s.fates[n] == t.fates[n];
      GotStays(s, step, s.fates[n].reader);
    }
  }

  /** What a reader has got it keeps. */
  lemma {:induction false} GotStays(s: State, step: Step, r: nat)
    requires Enabled(s, step) && r in s.readers
    ensures r in Apply(s, step).readers && Got(s.readers[r]) <= Got(Apply(s, step).readers[r])
  {
  }

  lemma {:induction false} KeepsEndings(s: State, step: Step, r: nat)
    requires Invariant(s) && Enabled(s, step) && r in Apply(s, step).readers
    ensures var t := Apply(s, step);
            && (t.readers[r].Replayed? ==> t.done && t.readers[r].events == t.log)
            && (t.readers[r].Ended? ==> t.closed && t.queue == [])
  {
  }

  lemma {:induction false} KeepsReaders(s: State, step: Step)
    requires Invariant(s) && Enabled(s, step)
    ensures ReadersHold(Apply(s, step))
  {
    var t := Apply(s, step);
    forall r | r in t.readers
      ensures ReaderHolds(t, r)
      ensures t.readers[r].Replayed? ==> t.done && t.readers[r].events == t.log
      ensures t.readers[r].Ended? ==> t.closed && t.queue == []
    {
      KeepsReader(s, step, r);
      KeepsEndings(s, step, r);
    }
    forall n | 0 <= n < |t.fates| && t.fates[n].Received?
      ensures t.fates[n].reader in t.readers && n in Got(t.readers[t.fates[n].reader])
    {
      KeepsReceipts(s, step, n);
    }
  }

  lemma StepKeepsInvariant(s: State, step: Step)
    requires Invariant(s) && Enabled(s, step)
    ensures Invariant(Apply(s, step))
  {
    KeepsLog(s, step);
    KeepsQueue(s, step);
    KeepsReaders(s, step);
  }

  lemma {:induction false} InvariantAlways(capacity: nat, steps: seq<Step>)
    requires After(capacity, steps).Some?
    ensures Invariant(After(capacity, steps).value) && After(capacity, steps).value.capacity == capacity
    decreases |steps|
  {
    if steps != [] {
      InvariantAlways(capacity, steps[..|steps| - 1]);
      StepKeepsInvariant(After(capacity, steps[..|steps| - 1]).value, steps[|steps| - 1]);
    }
  }

  // ---------- what readers may rely on ----------

  /** Where the log entry at `n` is. */
  datatype Place = InQueue | Lost | With(reader: nat)

  ghost predicate At(s: State, n: nat, place: Place) {
    match place
    case InQueue => n in s.queue
    case Lost => n < |s.fates| && s.fates[n] == Dropped
    case With(r) => r in s.readers && n in Got(s.readers[r])
  }

  /**
   In every reachable state each event already offered is in exactly one place (with one
   live reader, queued, or dropped), no other event is anywhere, and each reader's events
   come in log order.
   */
  lemma {:induction false} LogSplits(capacity: nat, steps: seq<Step>)
    requires After(capacity, steps).Some?
    ensures var s := After(capacity, steps).value;
            && |s.log| - 1 <= |s.fates| <= |s.log|
            && (forall n: nat, p :: At(s, n, p) ==> n < |s.fates|)
            && (forall n: nat, p, q :: At(s, n, p) && At(s, n, q) ==> p == q)
            && (forall n: nat :: n < |s.fates| ==> At(s, n, FateOf(s.fates[n])))
            && Increasing(s.queue) && (forall r :: r in s.readers ==> Increasing(Got(s.readers[r])))
  {
    InvariantAlways(capacity, steps);
    var s := After(capacity, steps).value;
    forall n: nat, p | At(s, n, p) ensures n < |s.fates| && FateOf(s.fates[n]) == p {
      PlaceIsFate(s, n, p);
    }
    forall n: nat, p, q | At(s, n, p) && At(s, n, q) ensures p == q {
      PlaceIsFate(s, n, p);
      PlaceIsFate(s, n, q);
    }
    forall r | r in s.readers ensures Increasing(Got(s.readers[r])) {
      assert ReaderHolds(s, r);
    }
  }

  function FateOf(f: Fate): Place {
    match f
    case Queued => InQueue
    case Dropped => Lost
    case Received(r) => With(r)
  }

  lemma PlaceIsFate(s: State, n: nat, p: Place)
    requires Invariant(s) && At(s, n, p)
    ensures n < |s.fates| && FateOf(s.fates[n]) == p
  {
    if p.With? {
      assert ReaderHolds(s, p.reader);
    }
  }

  /** Nothing is offered after the channel is closed, and it is closed once. */
  lemma NoSendAfterClose(capacity: nat, steps: seq<Step>)
    requires After(capacity, steps).Some? && After(capacity, steps).value.closed
    ensures !Enabled(After(capacity, steps).value, Offer) && !Enabled(After(capacity, steps).value, Close)
  {
    InvariantAlways(capacity, steps);
  }

  /** A run marked done has a finished log: it ends in its one final event and never grows. */
  lemma {:induction false} DoneIsFinal(capacity: nat, steps: seq<Step>, all: seq<Step>, s: State, t: State)
    requires After(capacity, steps) == Some(s) && After(capacity, all) == Some(t) && steps <= all && s.done
    ensures t.done && t.log == s.log && s.log != [] && IsFinal(s.log[|s.log| - 1])
    decreases |all|
  {
    if |all| == |steps| {
      assert all == steps;
      InvariantAlways(capacity, steps);
    } else {
      var front, last := all[..|all| - 1], all[|all| - 1];
      var before := After(capacity, front).value;
      DoneIsFinal(capacity, steps, front, s, before);
      InvariantAlways(capacity, front);
      DoneStep(before, last);
    }
  }

  lemma DoneStep(s: State, step: Step)
    requires Lifecycle(s) && s.done && Enabled(s, step)
    ensures Apply(s, step).done && Apply(s, step).log == s.log
  {
  }

  lemma {:induction false} AfterSnoc(capacity: nat, steps: seq<Step>, step: Step)
    ensures After(capacity, steps + [step]) ==
            var before := After(capacity, steps);
            if before.Some? && Enabled(before.value, step) then Some(Apply(before.value, step)) else None
  {
    assert (steps + [step])[..|steps|] == steps;
  }

  /** A replay is the whole log, from the start event to the final one, and stays so. */
  lemma {:induction false} ReplayIsWholeLog(capacity: nat, steps: seq<Step>, r: nat)
    requires After(capacity, steps).Some?
    requires r in After(capacity, steps).value.readers && After(capacity, steps).value.readers[r].Replayed?
    ensures var s := After(capacity, steps).value;
            && s.readers[r].events == s.log && s.done
            && s.log != [] && s.log[0].Start? && IsFinal(s.log[|s.log| - 1])
  {
    InvariantAlways(capacity, steps);
  }

  /** The status handler reports a summary exactly for runs that ended well: a failed run stays "running". */
  lemma FailedRunNeverReported(capacity: nat, steps: seq<Step>)
    requires After(capacity, steps).Some?
    ensures var s := After(capacity, steps).value;
            ReportsSummary(s) <==> s.done && s.log != [] && s.log[|s.log| - 1] == Done
  {
    InvariantAlways(capacity, steps);
  }

  // ---------- nobody waits for ever ----------

  /** The producer is never held up: in every reachable state it has a next step, until the channel is closed. */
  lemma ProducerGoesOn(capacity: nat, steps: seq<Step>, e: Event)
    requires After(capacity, steps).Some? && (After(capacity, steps).value.log == [] <==> e.Start?)
    ensures var s := After(capacity, steps).value;
            match s.producer
            case Ready => Enabled(s, Append(e))
            case Sending => Enabled(s, Offer)
            case Finishing => Enabled(s, MarkDone)
            case Marked => Enabled(s, Close)
            case Gone => s.closed && s.done
  {
    InvariantAlways(capacity, steps);
  }

  /** The steps the producer is away from the end, if it logs no further request. */
  function ToGo(s: State): nat {
    match s.producer
    case Ready => if s.log == [] then 6 else 4
    case Sending => if s.log != [] && IsFinal(s.log[|s.log| - 1]) then 3 else 5
    case Finishing => 2
    case Marked => 1
    case Gone => 0
  }

  lemma NextToEnd(s: State) returns (step: Step)
    requires LogShape(s) && !s.producer.Gone?
    ensures Enabled(s, step) && ToGo(Apply(s, step)) < ToGo(s) && s.log <= Apply(s, step).log
  {
    step :=
      match s.producer
      case Ready => Append(if s.log == [] then Start else Done)
      case Sending => Offer
      case Finishing => MarkDone
      case _ => Close;
  }

  /** From any point on the producer can end the run: with the final event still to come, or the one it has logged. */
  lemma {:induction false} RunCanEnd(capacity: nat, steps: seq<Step>, s: State) returns (all: seq<Step>, end: State)
    requires After(capacity, steps) == Some(s)
    ensures After(capacity, all) == Some(end) && end.closed && end.done && s.log <= end.log
    decreases ToGo(s)
  {
    InvariantAlways(capacity, steps);
    all, end := steps, s;
    if !s.producer.Gone? {
      var step := NextToEnd(s);
      AfterSnoc(capacity, steps, step);
      all, end := RunCanEnd(capacity, steps + [step], Apply(s, step));
    }
  }

  /** A listening reader can leave at any time, with what it has got; nothing changes for anybody else. */
  lemma ListenerCanLeave(s: State, r: nat)
    requires IsLive(s, r)
    ensures Enabled(s, Disconnect(r))
    ensures Apply(s, Disconnect(r)) == s.(readers := s.readers[r := Disconnected(s.readers[r].got)])
  {
  }

  /** Who attaches before the run is done listens from then on; who attaches later gets the whole log, with its end. */
  lemma {:induction false} AttachedReader(capacity: nat, steps: seq<Step>, r: nat)
    requires After(capacity, steps).Some? && r !in After(capacity, steps).value.readers
    ensures var s := After(capacity, steps).value;
            && Enabled(s, Attach(r))
            && (!s.done ==> Apply(s, Attach(r)).readers[r] == Live([]))
            && (s.done ==> Apply(s, Attach(r)).readers[r] == Replayed(s.log) && s.log != [] && IsFinal(s.log[|s.log| - 1]))
  {
    InvariantAlways(capacity, steps);
  }

  lemma {:induction false} TakingIsPossible(capacity: nat, steps: seq<Step>, s: State, r: nat)
    requires After(capacity, steps) == Some(s) && IsLive(s, r) && s.queue != []
    ensures Enabled(s, Take(r))
    ensures var t := Apply(s, Take(r));
            t.closed == s.closed && t.queue == s.queue[1..] && t.readers[r] == Live(s.readers[r].got + [s.queue[0]])
  {
    InvariantAlways(capacity, steps);
  }

  /** Once the channel is closed a listening reader can take all that is left and end. */
  lemma {:induction false} ListenerCanEnd(capacity: nat, steps: seq<Step>, s: State, r: nat)
    returns (all: seq<Step>, end: State)
    requires After(capacity, steps) == Some(s) && s.closed && IsLive(s, r)
    ensures After(capacity, all) == Some(end) && r in end.readers && end.readers[r] == Ended(s.readers[r].got + s.queue)
    decreases |s.queue|
  {
    var got, queue := s.readers[r].got, s.queue;
    if queue == [] {
      AfterSnoc(capacity, steps, NoticeClosed(r));
      all, end := steps + [NoticeClosed(r)], Apply(s, NoticeClosed(r));
      assert got + [] == got;
    } else {
      TakingIsPossible(capacity, steps, s, r);
      AfterSnoc(capacity, steps, Take(r));
      all, end := ListenerCanEnd(capacity, steps + [Take(r)], Apply(s, Take(r)), r);
      Associative(got, [queue[0]], queue[1..]);
      assert [queue[0]] + queue[1..] == queue;
    }
  }

  // ---------- when nothing is dropped ----------

  lemma {:induction false} IncreasingBound(s: seq<nat>, bound: nat)
    requires Increasing(s) && forall i :: 0 <= i < |s| ==> s[i] < bound
    ensures |s| <= bound
    decreases |s|
  {
    if s != [] {
      IncreasingBound(s[..|s| - 1], s[|s| - 1]);
    }
  }

  /** As long as the log is no longer than the channel, no event is dropped, whatever the readers do. */
  lemma {:induction false} NoDropWithinCapacity(capacity: nat, steps: seq<Step>)
    requires After(capacity, steps).Some? && |After(capacity, steps).value.log| <= capacity
    ensures forall n :: 0 <= n < |After(capacity, steps).value.fates| ==> !After(capacity, steps).value.fates[n].Dropped?
    decreases |steps|
  {
    if steps != [] {
      var before := steps[..|steps| - 1];
      InvariantAlways(capacity, before);
      NoDropWithinCapacity(capacity, before);
      NoDropStep(After(capacity, before).value, steps[|steps| - 1]);
    }
  }

  lemma NoDropStep(s: State, step: Step)
    requires Invariant(s) && Enabled(s, step) && |Apply(s, step).log| <= s.capacity
    requires forall n :: 0 <= n < |s.fates| ==> !s.fates[n].Dropped?
    ensures forall n :: 0 <= n < |Apply(s, step).fates| ==> !Apply(s, step).fates[n].Dropped?
  {
    IncreasingBound(s.queue, |s.fates|);
  }

  /** A sequence that a run can log: one start event, then requests, then one final event. */
  predicate CompleteLog(log: seq<Event>) {
    && log != [] && IsFinal(log[|log| - 1]) && |log| >= 2
    && (forall i :: 0 <= i < |log| ==> (log[i].Start? <==> i == 0))
    && (forall i :: 0 <= i < |log| - 1 ==> !IsFinal(log[i]))
  }

  /** The producer on its own, with no reader attached. */
  function ProducerAlone(log: seq<Event>): seq<Step> {
    if log == [] then [] else ProducerAlone(log[..|log| - 1]) + [Append(log[|log| - 1]), Offer]
  }

  lemma ProducerAloneSnoc(log: seq<Event>, e: Event)
    ensures ProducerAlone(log + [e]) == (ProducerAlone(log) + [Append(e)]) + [Offer]
  {
    assert (log + [e])[..|log|] == log;
  }

  /** The producer alone after `n` events. */
  ghost predicate AloneState(s: State, capacity: nat, log: seq<Event>, n: nat)
    requires n <= |log|
  {
    && s.log == log[..n] && |s.fates| == n && s.capacity == capacity
    && |s.queue| == (if n <= capacity then n else capacity)
    && (n < |log| ==> s.producer.Ready?)
    && (forall i :: capacity <= i < n ==> s.fates[i].Dropped?)
  }

  lemma AloneStateStep(s: State, capacity: nat, log: seq<Event>, n: nat)
    requires CompleteLog(log) && n < |log| && AloneState(s, capacity, log, n)
    ensures Enabled(s, Append(log[n])) && Enabled(Apply(s, Append(log[n])), Offer)
    ensures AloneState(Apply(Apply(s, Append(log[n])), Offer), capacity, log, n + 1)
  {
    assert log[..n + 1] == log[..n] + [log[n]];
    AppendOffer(s, log[n]);
  }

  lemma AppendThenOffer(capacity: nat, before: seq<Step>, s: State, e: Event)
    requires After(capacity, before) == Some(s) && Enabled(s, Append(e)) && Enabled(Apply(s, Append(e)), Offer)
    ensures After(capacity, (before + [Append(e)]) + [Offer]) == Some(Apply(Apply(s, Append(e)), Offer))
  {
    AfterSnoc(capacity, before, Append(e));
    AfterSnoc(capacity, before + [Append(e)], Offer);
  }

  lemma {:induction false} ProducerAloneRuns(capacity: nat, log: seq<Event>, n: nat)
    requires CompleteLog(log) && n <= |log|
    ensures After(capacity, ProducerAlone(log[..n])).Some?
    ensures AloneState(After(capacity, ProducerAlone(log[..n])).value, capacity, log, n)
    decreases n
  {
    if n > 0 {
      var before := ProducerAlone(log[..n - 1]);
      ProducerAloneRuns(capacity, log, n - 1);
      var s := After(capacity, before).value;
      AloneStateStep(s, capacity, log, n - 1);
      AppendThenOffer(capacity, before, s, log[n - 1]);
      assert log[..n] == log[..n - 1] + [log[n - 1]];
      ProducerAloneSnoc(log[..n - 1], log[n - 1]);
    } else {
      assert log[..0] == [] && ProducerAlone([]) == [];
    }
  }

  lemma AppendOffer(s: State, e: Event)
    requires s.producer.Ready? && Enabled(s, Append(e))
    ensures Enabled(Apply(s, Append(e)), Offer)
    ensures var t := Apply(Apply(s, Append(e)), Offer);
            && t.log == s.log + [e] && t.capacity == s.capacity
            && t.producer == (if IsFinal(e) then Finishing else Ready)
            && |t.queue| == (if |s.queue| < s.capacity then |s.queue| + 1 else |s.queue|)
            && t.fates == s.fates + [if |s.queue| < s.capacity then Queued else Dropped]
  {
  }

  /** The channel is large enough for every schedule exactly when it can hold the whole log. */
  lemma NeverDropsIffFits(capacity: nat, log: seq<Event>)
    requires CompleteLog(log)
    ensures (forall steps :: After(capacity, steps).Some? && After(capacity, steps).value.log == log ==>
               forall n :: 0 <= n < |After(capacity, steps).value.fates| ==>
                 !After(capacity, steps).value.fates[n].Dropped?)
            <==> |log| <= capacity
  {
    if |log| <= capacity {
      forall steps | After(capacity, steps).Some? && After(capacity, steps).value.log == log
        ensures forall n :: 0 <= n < |After(capacity, steps).value.fates| ==>
                  !After(capacity, steps).value.fates[n].Dropped?
      {
        NoDropWithinCapacity(capacity, steps);
      }
    } else {
      ProducerAloneRuns(capacity, log, |log|);
      assert log[..|log|] == log;
      var s := After(capacity, ProducerAlone(log)).value;
      assert s.fates[capacity].Dropped?;
    }
  }

  /** The events a live or ended reader has seen, in order. */
  function Seen(s: State, got: seq<nat>): seq<Event>
    requires forall i :: 0 <= i < |got| ==> got[i] < |s.log|
  {
    seq(|got|, i requires 0 <= i < |got| => s.log[got[i]])
  }

  lemma LastIsLargest(s: seq<nat>, i: nat)
    requires Increasing(s) && i < |s|
    ensures s[i] <= s[|s| - 1] && (s[i] == s[|s| - 1] ==> i == |s| - 1)
  {
  }

  lemma {:induction false} AllBelow(s: seq<nat>, n: nat)
    requires Increasing(s) && (forall i :: 0 <= i < |s| ==> s[i] < n) && (forall k :: 0 <= k < n ==> k in s)
    ensures |s| == n && forall i :: 0 <= i < n ==> s[i] == i
    decreases n
  {
    assert s != [] ==> s[0] < n;
    if n > 0 {
      assert n - 1 in s;
      var k :| 0 <= k < |s| && s[k] == n - 1;
      LastIsLargest(s, k);
      var front := s[..|s| - 1];
      forall j | 0 <= j < n - 1 ensures j in front {
        assert j in s;
        var i :| 0 <= i < |s| && s[i] == j;
        assert front[i] == j;
      }
      AllBelow(front, n - 1);
    }
  }

  /**
   A reader that is alone, attached at any time before completion and stayed to the end
   of the stream has received the whole log, if the log fits the channel.
   */
  lemma {:induction false} SoleReaderGetsAll(capacity: nat, steps: seq<Step>, r: nat)
    requires After(capacity, steps).Some?
    requires var s := After(capacity, steps).value;
             s.readers.Keys == {r} && s.readers[r].Ended? && |s.log| <= capacity
    ensures var s := After(capacity, steps).value;
            && (forall i :: 0 <= i < |s.readers[r].got| ==> s.readers[r].got[i] < |s.log|)
            && Seen(s, s.readers[r].got) == s.log
  {
    InvariantAlways(capacity, steps);
    NoDropWithinCapacity(capacity, steps);
    var s := After(capacity, steps).value;
    var got := s.readers[r].got;
    assert ReaderHolds(s, r) && Got(s.readers[r]) == got;
    forall k | 0 <= k < |s.fates| ensures k in got {
      assert s.fates[k] == Queued ==> k in s.queue;
    }
    AllBelow(got, |s.fates|);
  }

  /** Every event reaches whoever listens alone to the end. */
  ghost predicate NothingLost(s: State) {
    && (forall n :: 0 <= n < |s.fates| ==> !s.fates[n].Dropped?)
    && forall r :: s.readers.Keys == {r} && s.readers[r].Ended? ==>
         (forall i :: 0 <= i < |s.readers[r].got| ==> s.readers[r].got[i] < |s.log|)
         && Seen(s, s.readers[r].got) == s.log
  }

  lemma {:induction false} FittingLosesNothing(capacity: nat, steps: seq<Step>)
    requires After(capacity, steps).Some? && |After(capacity, steps).value.log| <= capacity
    ensures NothingLost(After(capacity, steps).value)
  {
    var s := After(capacity, steps).value;
    NoDropWithinCapacity(capacity, steps);
    forall r | s.readers.Keys == {r} && s.readers[r].Ended?
      ensures forall i :: 0 <= i < |s.readers[r].got| ==> s.readers[r].got[i] < |s.log|
      ensures Seen(s, s.readers[r].got) == s.log
    {
      SoleReaderGetsAll(capacity, steps, r);
    }
  }

  // ---------- a failed run ----------

  /** Once a failed run is done, the status handler says "running" for ever, whatever else happens. */
  lemma {:induction false} FailedRunStaysRunning(capacity: nat, steps: seq<Step>, all: seq<Step>, s: State, t: State)
    requires After(capacity, steps) == Some(s) && After(capacity, all) == Some(t) && steps <= all
    requires s.done && s.log != [] && s.log[|s.log| - 1].Error?
    ensures !ReportsSummary(t)
  {
    DoneIsFinal(capacity, steps, all, s, t);
    ErrorMeansNoSummary(capacity, all, t);
  }

  lemma {:induction false} ErrorMeansNoSummary(capacity: nat, steps: seq<Step>, s: State)
    requires After(capacity, steps) == Some(s) && s.log != [] && s.log[|s.log| - 1].Error?
    ensures !ReportsSummary(s)
  {
    InvariantAlways(capacity, steps);
  }

  /** A run that fails at once: its two events, and the end of the producer. */
  function FailAtOnce(message: string): seq<Step> {
    ((((([] + [Append(Start)]) + [Offer]) + [Append(Error(message))]) + [Offer]) + [MarkDone]) + [Close]
  }

  lemma FailAtOnceIsDone(capacity: nat, message: string)
    ensures After(capacity, FailAtOnce(message)).Some?
    ensures var s := After(capacity, FailAtOnce(message)).value;
            s.done && s.log == [Start, Error(message)] && !ReportsSummary(s)
  {
    var one := ([] + [Append(Start)]) + [Offer];
    var two := (one + [Append(Error(message))]) + [Offer];
    AppendThenOffer(capacity, [], Initial(capacity), Start);
    var s := After(capacity, one).value;
    AppendOffer(Initial(capacity), Start);
    AppendOffer(s, Error(message));
    AppendThenOffer(capacity, one, s, Error(message));
    AfterSnoc(capacity, two, MarkDone);
    AfterSnoc(capacity, two + [MarkDone], Close);
  }
}
