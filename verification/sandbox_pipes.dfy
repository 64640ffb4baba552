/**
 The two bounded pipes of the sandbox and the mutex that ties them together: a caller holds
 the mutex while it writes its request, Node's writes to its output are synchronous, and the
 read loop needs the mutex for every line it has read. Pipes hold bytes; a byte is modelled by
 whether it ends a line. Delivery and the short critical sections never block and are left out.
 */
module SandboxPipes {
  import opened Prelude

  type Pipe = seq<bool>

  datatype Holder = Free | Writer(left: nat) | Loop

  datatype Reader = Scanning | Wanting | Looking

  /** `Closed`: the host has closed Node's input; `Dead`: Node has ended. */
  datatype Life = Running | Closed | Dead

  /**
   `received`: requests read whole whose scripts have not ended; `leftovers`: scripts that have
   ended, and whose calls may have returned, with a timer or callback still to come; `printing`:
   bytes Node has still to write.
   */
  datatype State = State(
    inCap: nat, outCap: nat, stdin: Pipe, stdout: Pipe, holder: Holder,
    received: nat, leftovers: nat, printing: nat, reader: Reader, life: Life)

  function Initial(inCap: nat, outCap: nat): State {
    State(inCap, outCap, [], [], Free, 0, 0, 0, Scanning, Running)
  }

  /** `ScriptPrints`: a script, or if `late` what one has left behind, starts to write a piece of a line. */
  datatype Step =
    | Arrive(size: nat)
    | ScriptPrints(size: nat, late: bool)
    | ScriptEnds(leaves: bool)
    | LeftoverEnds
    | CloseInput
    | NodeExits
    | WriteByte
    | WriteFails
    | WriterDone
    | NodeRead
    | PrintByte
    | ReaderRead
    | ReaderLock
    | ReaderUnlock

  predicate Enabled(s: State, step: Step) {
    match step
    case Arrive(size) => s.holder.Free? && size > 0
    case ScriptPrints(size, late) => s.printing == 0 && size > 0 && 0 < if late then s.leftovers else s.received
    case ScriptEnds(leaves) => s.printing == 0 && s.received > 0
    case LeftoverEnds => s.printing == 0 && s.leftovers > 0
    case CloseInput => s.life.Running?
    case NodeExits => !s.life.Dead?
    case WriteByte => s.life.Running? && s.holder.Writer? && s.holder.left > 0 && |s.stdin| < s.inCap
    case WriteFails => !s.life.Running? && s.holder.Writer? && s.holder.left > 0
    case WriterDone => s.holder == Writer(0)
    case NodeRead => s.printing == 0 && s.stdin != []
    case PrintByte => s.printing > 0 && |s.stdout| < s.outCap
    case ReaderRead => s.reader.Scanning? && s.stdout != []
    case ReaderLock => s.reader.Wanting? && s.holder.Free?
    case ReaderUnlock => s.reader.Looking?
  }

  function Apply(s: State, step: Step): State
    requires Enabled(s, step)
  {
    match step
    case Arrive(size) => s.(holder := Writer(size))
    case ScriptPrints(size, late) => s.(printing := size)
    case ScriptEnds(leaves) => s.(received := s.received - 1, leftovers := s.leftovers + if leaves then 1 else 0)
    case LeftoverEnds => s.(leftovers := s.leftovers - 1)
    case CloseInput => s.(life := Closed)
    case NodeExits => s.(life := Dead, stdin := [], received := 0, leftovers := 0, printing := 0)
    case WriteByte => s.(stdin := s.stdin + [s.holder.left == 1], holder := Writer(s.holder.left - 1))
    case WriteFails => s.(holder := Writer(0))
    case WriterDone => s.(holder := Free)
    case NodeRead => s.(stdin := s.stdin[1..], received := s.received + if s.stdin[0] then 1 else 0)
    case PrintByte => s.(stdout := s.stdout + [s.printing == 1], printing := s.printing - 1)
    case ReaderRead => s.(stdout := s.stdout[1..], reader := if s.stdout[0] then Wanting else Scanning)
    case ReaderLock => s.(holder := Loop, reader := Looking)
    case ReaderUnlock => s.(holder := Free, reader := Scanning)
  }

  /** Steps that work off what has begun; the others bring new work or an end. */
  predicate Internal(step: Step) {
    step.WriteByte? || step.WriteFails? || step.WriterDone? || step.NodeRead? || step.PrintByte?
    || step.ReaderRead? || step.ReaderLock? || step.ReaderUnlock?
  }

  function Run(s: State, steps: seq<Step>): Option<State>
    decreases |steps|
  {
    if steps == [] then Some(s)
    else if Enabled(s, steps[0]) then Run(Apply(s, steps[0]), steps[1..])
    else None
  }

  /** Some script is running or has left something behind. */
  predicate Alive(s: State) {
    s.received > 0 || s.leftovers > 0
  }

  ghost predicate WellFormed(s: State) {
    && s.inCap > 0 && s.outCap > 0 && |s.stdin| <= s.inCap && |s.stdout| <= s.outCap
    && (s.holder.Loop? <==> s.reader.Looking?)
    && (s.printing > 0 ==> Alive(s))
    && (s.life.Dead? ==> s.stdin == [] && !Alive(s))
  }

  lemma KeepsWellFormed(s: State, step: Step)
    requires WellFormed(s) && Enabled(s, step)
    ensures WellFormed(Apply(s, step))
  {
  }

  lemma {:induction false} WellFormedAlways(s: State, steps: seq<Step>)
    requires WellFormed(s) && Run(s, steps).Some?
    ensures WellFormed(Run(s, steps).value)
    decreases |steps|
  {
    if steps != [] {
      KeepsWellFormed(s, steps[0]);
      WellFormedAlways(Apply(s, steps[0]), steps[1..]);
    }
  }

  // ---------- the deadlock ----------

  /** Something begun is not worked off. */
  predicate Busy(s: State) {
    !s.holder.Free? || s.stdin != [] || s.stdout != [] || s.printing > 0 || !s.reader.Scanning?
  }

  /** The writer waits for Node, Node for the read loop, and the read loop for the writer's mutex. */
  predicate Jammed(s: State) {
    && s.life.Running? && s.holder.Writer? && s.holder.left > 0 && |s.stdin| == s.inCap
    && s.printing > 0 && |s.stdout| == s.outCap
    && s.reader.Wanting?
  }

  /** Work that has begun can go on exactly unless all three wait for one another. */
  lemma ProgressIffNotJammed(s: State)
    requires WellFormed(s) && Busy(s)
    ensures (exists step :: Internal(step) && Enabled(s, step)) <==> !Jammed(s)
  {
    if !Jammed(s) {
      var step :=
        if s.reader.Looking? then ReaderUnlock
        else if s.reader.Wanting? && s.holder.Free? then ReaderLock
        else if s.reader.Scanning? && s.stdout != [] then ReaderRead
        else if s.printing > 0 && |s.stdout| < s.outCap then PrintByte
        else if s.printing == 0 && s.stdin != [] then NodeRead
        else if s.holder == Writer(0) then WriterDone
        else if s.life.Running? then WriteByte
        else WriteFails;
      assert Internal(step) && Enabled(s, step);
    }
  }

  /** A jam lasts: no step is possible, not even a new call's, until the input is closed or Node ends. */
  lemma JamIsFinal(s: State, step: Step)
    requires Jammed(s)
    ensures Enabled(s, step) <==> step.CloseInput? || step.NodeExits?
  {
  }

  /** What is left to do, each byte and each line weighted by the steps still ahead of it. */
  function Work(s: State): nat {
    (if s.holder.Writer? then 3 * s.holder.left + 1 else 0) + |s.stdin| + 6 * s.printing + 5 * |s.stdout|
    + match s.reader case Scanning => 0 case Wanting => 4 case Looking => 2
  }

  /** Left alone, everything begun is worked off after finitely many steps, or the sandbox jams. */
  lemma {:induction false} DrainsOrJams(s: State) returns (steps: seq<Step>)
    requires WellFormed(s)
    ensures forall i :: 0 <= i < |steps| ==> Internal(steps[i])
    ensures Run(s, steps).Some? && (!Busy(Run(s, steps).value) || Jammed(Run(s, steps).value))
    decreases Work(s)
  {
    steps := [];
    if Busy(s) && !Jammed(s) {
      ProgressIffNotJammed(s);
      var step :| Internal(step) && Enabled(s, step);
      KeepsWellFormed(s, step);
      InternalWorksOff(s, step);
      var rest := DrainsOrJams(Apply(s, step));
      steps := [step] + rest;
      assert steps[1..] == rest;
    }
  }

  /** No internal step can be repeated for ever, whatever the order. */
  lemma InternalWorksOff(s: State, step: Step)
    requires Enabled(s, step) && Internal(step)
    ensures Work(Apply(s, step)) < Work(s)
  {
  }

  /** Once the input is closed or Node has ended, everything begun is worked off, a jam included. */
  lemma ClosedDrains(s: State) returns (steps: seq<Step>)
    requires WellFormed(s) && !s.life.Running?
    ensures forall i :: 0 <= i < |steps| ==> Internal(steps[i])
    ensures Run(s, steps).Some? && !Busy(Run(s, steps).value)
  {
    steps := DrainsOrJams(s);
    StaysEnded(s, steps);
  }

  /** So closing the input, or the end of Node, ends a jam, and all that was begun is worked off. */
  lemma JamIsEnded(s: State, step: Step) returns (steps: seq<Step>)
    requires WellFormed(s) && Jammed(s) && (step.CloseInput? || step.NodeExits?)
    ensures Enabled(s, step)
    ensures forall i :: 0 <= i < |steps| ==> Internal(steps[i])
    ensures Run(Apply(s, step), steps).Some? && !Busy(Run(Apply(s, step), steps).value)
  {
    KeepsWellFormed(s, step);
    steps := ClosedDrains(Apply(s, step));
  }

  lemma {:induction false} StaysEnded(s: State, steps: seq<Step>)
    requires !s.life.Running? && Run(s, steps).Some?
    ensures !Run(s, steps).value.life.Running?
    decreases |steps|
  {
    if steps != [] {
      StaysEnded(Apply(s, steps[0]), steps[1..]);
    }
  }

  // ---------- when it cannot happen ----------

  /**
   A call comes only when no script is running and no byte of an earlier request is unread and,
   if `idle`, nothing is left behind by a script that has ended.
   */
  predicate OneAtATime(s: State, steps: seq<Step>, idle: bool)
    decreases |steps|
  {
    steps != [] && Enabled(s, steps[0]) ==>
      && (steps[0].Arrive? ==> s.received == 0 && s.stdin == [] && (idle ==> s.leftovers == 0))
      && OneAtATime(Apply(s, steps[0]), steps[1..], idle)
  }

  /** While a request is being written, nothing in Node can print. */
  ghost predicate Quiet(s: State) {
    s.holder.Writer? && s.holder.left > 0 ==> !Alive(s) && true !in s.stdin
  }

  /** Calls that wait for each other's scripts and leftovers to end never jam, however small the pipes. */
  lemma OneAtATimeNeverJams(inCap: nat, outCap: nat, steps: seq<Step>)
    requires inCap > 0 && outCap > 0
    requires OneAtATime(Initial(inCap, outCap), steps, true) && Run(Initial(inCap, outCap), steps).Some?
    ensures !Jammed(Run(Initial(inCap, outCap), steps).value)
  {
    QuietNeverJams(Initial(inCap, outCap), steps);
  }

  lemma {:induction false} QuietNeverJams(s: State, steps: seq<Step>)
    requires WellFormed(s) && Quiet(s) && OneAtATime(s, steps, true) && Run(s, steps).Some?
    ensures !Jammed(Run(s, steps).value)
    decreases |steps|
  {
    if steps != [] {
      KeepsWellFormed(s, steps[0]);
      KeepsQuiet(s, steps[0]);
      QuietNeverJams(Apply(s, steps[0]), steps[1..]);
    }
  }

  lemma KeepsQuiet(s: State, step: Step)
    requires WellFormed(s) && Quiet(s) && Enabled(s, step)
    requires step.Arrive? ==> !Alive(s) && s.stdin == []
    ensures Quiet(Apply(s, step))
  {
    if step.NodeRead? && s.holder.Writer? && s.holder.left > 0 {
      assert s.stdin[0] in s.stdin;
      assert forall b :: b in s.stdin[1..] ==> b in s.stdin;
    }
  }

  /** When everything is worked off, what still runs or is left behind can end, and the sandbox is idle again. */
  lemma {:induction false} ScriptsCanEnd(s: State) returns (steps: seq<Step>)
    requires !Busy(s)
    ensures forall i :: 0 <= i < |steps| ==> steps[i] == ScriptEnds(false) || steps[i] == LeftoverEnds
    ensures Run(s, steps) == Some(s.(received := 0, leftovers := 0))
    decreases s.received + s.leftovers
  {
    steps := [];
    if Alive(s) {
      var step := if s.received > 0 then ScriptEnds(false) else LeftoverEnds;
      var rest := ScriptsCanEnd(Apply(s, step));
      steps := [step] + rest;
      assert steps[1..] == rest;
    }
  }

  // ---------- exactly which calls can be caught ----------

  predicate NoArrivals(steps: seq<Step>) {
    forall i :: 0 <= i < |steps| ==> !steps[i].Arrive?
  }

  /** A call of `size` bytes that comes in `s` ends in a jam after `rest`, with no other call coming. */
  predicate Caught(s: State, size: nat, rest: seq<Step>) {
    && Enabled(s, Arrive(size)) && NoArrivals(rest)
    && Run(Apply(s, Arrive(size)), rest).Some? && Jammed(Run(Apply(s, Arrive(size)), rest).value)
  }

  /**
   A call that comes when everything is worked off can be caught in a jam exactly when its
   request is larger than the pipe and a script, running or ended, can still print.
   */
  lemma CaughtIff(s: State, size: nat)
    requires WellFormed(s) && !Busy(s) && s.life.Running? && size > 0
    ensures (exists rest :: Caught(s, size, rest)) <==> size > s.inCap && Alive(s)
  {
    var t := Apply(s, Arrive(size));
    if size > s.inCap && Alive(s) {
      var rest := PrintsWhileWriting(t);
      assert Caught(s, size, rest);
    }
    if rest :| Caught(s, size, rest) {
      if !Alive(s) {
        NoArrivalsOneAtATime(t, rest, true);
        QuietNeverJams(t, rest);
      } else if size <= s.inCap {
        FitsNeverJams(t, rest);
      }
    }
  }

  /** How many pieces of output are begun. */
  function Prints(steps: seq<Step>): nat
    decreases |steps|
  {
    if steps == [] then 0 else (if steps[0].ScriptPrints? then 1 else 0) + Prints(steps[1..])
  }

  /** A piece that is still being printed has not ended its line, so the read loop has no use for the mutex. */
  predicate Unended(s: State) {
    s.printing > 0 ==> true !in s.stdout && s.reader.Scanning?
  }

  /** One line alone, however long, cannot jam a quiet sandbox: the read loop takes the mutex for whole lines only. */
  lemma OneLineNeverJams(s: State, size: nat, rest: seq<Step>)
    requires WellFormed(s) && !Busy(s) && Enabled(s, Arrive(size)) && Prints(rest) <= 1
    requires Run(Apply(s, Arrive(size)), rest).Some?
    ensures !Jammed(Run(Apply(s, Arrive(size)), rest).value)
  {
    UnendedNeverJams(Apply(s, Arrive(size)), rest);
  }

  /** Before its one print all output is read, after it the line is unended until it is printed. */
  lemma {:induction false} UnendedNeverJams(s: State, steps: seq<Step>)
    requires WellFormed(s) && Unended(s) && Prints(steps) <= 1 && Run(s, steps).Some?
    requires Prints(steps) == 1 ==> s.printing == 0 && s.stdout == [] && s.reader.Scanning?
    ensures !Jammed(Run(s, steps).value)
    decreases |steps|
  {
    if steps != [] {
      KeepsWellFormed(s, steps[0]);
      KeepsUnended(s, steps[0]);
      UnendedNeverJams(Apply(s, steps[0]), steps[1..]);
    }
  }

  lemma KeepsUnended(s: State, step: Step)
    requires Unended(s) && Enabled(s, step)
    requires step.ScriptPrints? ==> s.stdout == [] && s.reader.Scanning?
    ensures Unended(Apply(s, step))
  {
    if step.ReaderRead? && s.printing > 0 {
      assert s.stdout[0] in s.stdout;
      assert forall b :: b in s.stdout[1..] ==> b in s.stdout;
    }
  }

  /** What is still to be written fits the pipe beside what is in it. */
  predicate Fits(s: State) {
    s.holder.Writer? ==> s.holder.left + |s.stdin| <= s.inCap
  }

  lemma {:induction false} FitsNeverJams(s: State, steps: seq<Step>)
    requires Fits(s) && NoArrivals(steps) && Run(s, steps).Some?
    ensures !Jammed(Run(s, steps).value)
    decreases |steps|
  {
    if steps != [] {
      FitsNeverJams(Apply(s, steps[0]), steps[1..]);
    }
  }

  lemma {:induction false} NoArrivalsOneAtATime(s: State, steps: seq<Step>, idle: bool)
    requires NoArrivals(steps)
    ensures OneAtATime(s, steps, idle)
    decreases |steps|
  {
    if steps != [] && Enabled(s, steps[0]) {
      NoArrivalsOneAtATime(Apply(s, steps[0]), steps[1..], idle);
    }
  }

  lemma {:induction false} RunConcat(s: State, a: seq<Step>, b: seq<Step>)
    requires Run(s, a).Some?
    ensures Run(s, a + b) == Run(Run(s, a).value, b)
    decreases |a|
  {
    if a == [] {
      assert a + b == b;
    } else {
      assert (a + b)[1..] == a[1..] + b;
      RunConcat(Apply(s, a[0]), a[1..], b);
    }
  }

  lemma {:induction false} FillInput(s: State) returns (steps: seq<Step>)
    requires WellFormed(s) && s.life.Running? && s.holder.Writer? && s.holder.left > s.inCap - |s.stdin|
    ensures NoArrivals(steps) && Run(s, steps).Some?
    ensures var t := Run(s, steps).value;
            && |t.stdin| == s.inCap && t.holder.Writer? && t.holder.left > 0
            && t == s.(stdin := t.stdin, holder := t.holder)
    decreases s.inCap - |s.stdin|
  {
    steps := [];
    if |s.stdin| < s.inCap {
      KeepsWellFormed(s, WriteByte);
      var rest := FillInput(Apply(s, WriteByte));
      steps := [WriteByte] + rest;
      assert steps[1..] == rest;
    }
  }

  lemma {:induction false} FillOutput(s: State) returns (steps: seq<Step>)
    requires WellFormed(s) && s.printing > s.outCap - |s.stdout|
    ensures NoArrivals(steps) && Run(s, steps).Some?
    ensures var t := Run(s, steps).value;
            |t.stdout| == s.outCap && t.printing > 0 && t == s.(stdout := t.stdout, printing := t.printing)
    decreases s.outCap - |s.stdout|
  {
    steps := [];
    if |s.stdout| < s.outCap {
      KeepsWellFormed(s, PrintByte);
      var rest := FillOutput(Apply(s, PrintByte));
      steps := [PrintByte] + rest;
      assert steps[1..] == rest;
    }
  }

  /** A line and then more than the other pipe holds is printed while the request is written. */
  lemma PrintsWhileWriting(s: State) returns (steps: seq<Step>)
    requires WellFormed(s) && Alive(s) && s.life.Running? && s.holder.Writer? && s.holder.left > s.inCap
    requires s.stdin == [] && s.stdout == [] && s.printing == 0 && s.reader.Scanning?
    ensures NoArrivals(steps) && Run(s, steps).Some? && Jammed(Run(s, steps).value)
  {
    var line := [ScriptPrints(1, s.received == 0), PrintByte, ReaderRead, ScriptPrints(s.outCap + 1, s.received == 0)];
    var printing := s.(printing := s.outCap + 1, reader := Wanting);
    LinePrinted(s, s.received == 0);
    var input := FillInput(printing);
    RunConcat(s, line, input);
    var full := Run(printing, input).value;
    WellFormedAlways(printing, input);
    var output := FillOutput(full);
    RunConcat(s, line + input, output);
    steps := line + input + output;
  }

  lemma LinePrinted(s: State, late: bool)
    requires WellFormed(s) && 0 < if late then s.leftovers else s.received
    requires s.stdout == [] && s.printing == 0 && s.reader.Scanning?
    ensures Run(s, [ScriptPrints(1, late), PrintByte, ReaderRead, ScriptPrints(s.outCap + 1, late)])
            == Some(s.(printing := s.outCap + 1, reader := Wanting))
  {
    var s2 := Apply(s, ScriptPrints(1, late));
    var s3 := Apply(s2, PrintByte);
    var s4 := Apply(s3, ReaderRead);
    var last := ScriptPrints(s.outCap + 1, late);
    assert s3.stdout == [true] && s4.stdout == [];
    assert [last][1..] == [] && [ReaderRead, last][1..] == [last];
    assert [PrintByte, ReaderRead, last][1..] == [ReaderRead, last];
    assert [ScriptPrints(1, late), PrintByte, ReaderRead, last][1..] == [PrintByte, ReaderRead, last];
    assert Run(s4, [last]) == Run(Apply(s4, last), [last][1..]);
    assert Run(s3, [ReaderRead, last]) == Run(s4, [last]);
    assert Run(s2, [PrintByte, ReaderRead, last]) == Run(s3, [ReaderRead, last]);
  }

  /** Whatever the capacities, two calls can jam the sandbox: the second comes while the first one's script runs. */
  lemma TwoCallsCanJam(inCap: nat, outCap: nat) returns (steps: seq<Step>)
    requires inCap > 0 && outCap > 0
    ensures Run(Initial(inCap, outCap), steps).Some? && Jammed(Run(Initial(inCap, outCap), steps).value)
  {
    var s := Initial(inCap, outCap).(received := 1);
    CaughtIff(s, inCap + 1);
    var rest :| Caught(s, inCap + 1, rest);
    steps := Prepend(s, Arrive(inCap + 1), rest);
    steps := FirstCallRuns(inCap, outCap, steps);
  }

  /**
   Nor is it enough to wait for calls to return: the second comes when the first has returned and
   its script has ended, but left a timer behind.
   */
  lemma LeftoverCanJam(inCap: nat, outCap: nat) returns (steps: seq<Step>)
    requires inCap > 0 && outCap > 0
    ensures OneAtATime(Initial(inCap, outCap), steps, false)
    ensures Run(Initial(inCap, outCap), steps).Some? && Jammed(Run(Initial(inCap, outCap), steps).value)
  {
    var s := Initial(inCap, outCap).(leftovers := 1);
    CaughtIff(s, inCap + 1);
    var rest :| Caught(s, inCap + 1, rest);
    NoArrivalsOneAtATime(Apply(s, Arrive(inCap + 1)), rest, false);
    steps := Prepend(s, Arrive(inCap + 1), rest);
    steps := Prepend(Initial(inCap, outCap).(received := 1), ScriptEnds(true), steps);
    steps := FirstCallRuns(inCap, outCap, steps);
  }

  lemma FirstCallRuns(inCap: nat, outCap: nat, rest: seq<Step>) returns (steps: seq<Step>)
    requires inCap > 0
    ensures var s, t := Initial(inCap, outCap), Initial(inCap, outCap).(received := 1);
            Run(s, steps) == Run(t, rest) && (OneAtATime(s, steps, false) <==> OneAtATime(t, rest, false))
  {
    var s := Initial(inCap, outCap);
    var s1 := Apply(s, Arrive(1));
    var s2 := Apply(s1, WriteByte);
    var s3 := Apply(s2, WriterDone);
    assert s2.stdin == [true] && s3.stdin[1..] == [];
    assert Apply(s3, NodeRead) == s.(received := 1);
    steps := Prepend(s3, NodeRead, rest);
    steps := Prepend(s2, WriterDone, steps);
    steps := Prepend(s1, WriteByte, steps);
    steps := Prepend(s, Arrive(1), steps);
  }

  lemma Prepend(s: State, step: Step, rest: seq<Step>) returns (steps: seq<Step>)
    requires Enabled(s, step)
    ensures Run(s, steps) == Run(Apply(s, step), rest)
    ensures OneAtATime(s, steps, false)
            <==> (step.Arrive? ==> s.received == 0 && s.stdin == []) && OneAtATime(Apply(s, step), rest, false)
  {
    steps := [step] + rest;
    assert steps[1..] == rest;
  }
}
