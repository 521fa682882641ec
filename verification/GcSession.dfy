/** Session control of gc-alice (gc/src/bin/alice.rs): the control thread, the receiver threads it
    spawns and the RUNNING flag they share, as interleaved atomic steps. Every lock of the flag, every
    reply, spawn, join and FPGA write is one step. Runs in which `recv_gc` ends by its Ok path. */
module GcSession {
  import opened Maybe
  import opened Runs

  /** Where the control thread is. */
  datatype ControlPc =
    | Accepting       // waiting for a control connection
    | Waiting         // waiting for the next message on it
    | StartCheck      // Start: about to test RUNNING
    | Connecting      // Start: connecting to Bob, initialising, then replying Done
    | Syncing         // Start: waiting for the pulse, then about to set RUNNING
    | Spawning        // Start: RUNNING is set, about to spawn the receiver
    | StopCheck       // Stop: about to test RUNNING
    | StopClear       // Stop: about to clear RUNNING
    | StopJoin        // Stop: joining the receiver
    | StopReply       // Stop: about to reply Done
    | TearClear       // connection lost: about to clear RUNNING
    | TearJoin        // connection lost: joining the receiver

  /** Where a receiver thread is. */
  datatype ReceiverPc =
    | Checking        // at the loop test of RUNNING
    | Reading         // blocked in the read from Bob
    | Writing(left: nat)  // that many sub-batches still to write to the FPGA
    | Clearing        // out of the loop, about to clear RUNNING
    | Epilogue        // has cleared RUNNING; only logging and closing files remain
    | Ended

  datatype Reply = StartDone | StopDone | DidNothing

  datatype State = State(
    running: bool,
    control: ControlPc,
    handle: Option<nat>,          // recv_handle
    receivers: seq<ReceiverPc>,   // every receiver ever spawned; the last one is the latest
    fpgaWrites: nat,
    replies: seq<Reply>)

  datatype Step =
    | Accept
    | GetStart
    | GetStop
    | GetPoll
    | LoseConnection         // end of file or an error on the control connection
    | Control(replyOk: bool) // the control thread's next own step; replyOk: its reply got through
    | CheckRunning(id: nat)
    | GetCounters(id: nat, batches: nat)
    | GetEof(id: nat)
    | WriteBatch(id: nat)
    | ClearRunning(id: nat)
    | Return(id: nat)

  function Init(): State {
    State(false, Accepting, None, [], 0, [])
  }

  /** The thread behind the handle has returned, or there is no handle: a join goes through. */
  predicate CanJoin(s: State) {
    s.handle.None? || (s.handle.value < |s.receivers| && s.receivers[s.handle.value].Ended?)
  }

  function ControlStep(s: State, replyOk: bool): Option<State> {
    match s.control
    case StartCheck =>
      if s.running then Some(s.(replies := s.replies + [DidNothing], control := if replyOk then Waiting else TearClear))
      else Some(s.(control := Connecting))
    case Connecting =>
      if replyOk then Some(s.(replies := s.replies + [StartDone], control := Syncing))
      else Some(s.(control := TearClear))
    case Syncing => Some(s.(running := true, control := Spawning))
    case Spawning => Some(s.(receivers := s.receivers + [Checking], handle := Some(|s.receivers|), control := Waiting))
    case StopCheck =>
      if !s.running then
        Some(s.(replies := s.replies + [DidNothing], control := if replyOk then Waiting else TearClear))
      else Some(s.(control := StopClear))
    case StopClear => Some(s.(running := false, control := StopJoin))
    case StopJoin => if CanJoin(s) then Some(s.(handle := None, control := StopReply)) else None
    case StopReply =>
      if replyOk then Some(s.(replies := s.replies + [StopDone], control := Waiting))
      else Some(s.(control := TearClear))
    case TearClear => Some(s.(running := false, control := TearJoin))
    case TearJoin => if CanJoin(s) then Some(s.(handle := None, control := Accepting)) else None
    case _ => None
  }

  function SetReceiver(s: State, id: nat, pc: ReceiverPc): State
    requires id < |s.receivers|
  {
    s.(receivers := s.receivers[id := pc])
  }

  function ReceiverStep(s: State, step: Step, id: nat): Option<State>
    requires id < |s.receivers|
  {
    match (step, s.receivers[id])
    case (CheckRunning(_), Checking) => Some(SetReceiver(s, id, if s.running then Reading else Clearing))
    case (GetCounters(_, batches), Reading) => Some(SetReceiver(s, id, Writing(batches)))
    case (GetEof(_), Reading) => Some(SetReceiver(s, id, Clearing))
    case (WriteBatch(_), Writing(left)) =>
      if left == 0 then Some(SetReceiver(s, id, Checking))
      else Some(SetReceiver(s.(fpgaWrites := s.fpgaWrites + 1), id, Writing(left - 1)))
    case (ClearRunning(_), Clearing) => Some(SetReceiver(s.(running := false), id, Epilogue))
    case (Return(_), Epilogue) => Some(SetReceiver(s, id, Ended))
    case _ => None
  }

  function Apply(s: State, step: Step): Option<State> {
    match step
    case Accept => if s.control.Accepting? then Some(s.(control := Waiting, handle := None)) else None
    case GetStart => if s.control.Waiting? then Some(s.(control := StartCheck)) else None
    case GetStop => if s.control.Waiting? then Some(s.(control := StopCheck)) else None
    case GetPoll => if s.control.Waiting? then Some(s) else None
    case LoseConnection => if s.control.Waiting? then Some(s.(control := TearClear)) else None
    case Control(replyOk) => ControlStep(s, replyOk)
    case _ => if step.id < |s.receivers| then ReceiverStep(s, step, step.id) else None
  }

  // ---- what holds ----

  /** A receiver that may still write to the FPGA or touch RUNNING. */
  predicate Live(s: State, id: nat) {
    id < |s.receivers| && !s.receivers[id].Epilogue? && !s.receivers[id].Ended?
  }

  predicate NoneLive(s: State) {
    forall id :: 0 <= id < |s.receivers| ==> !Live(s, id)
  }

  /** The control thread is joining the receiver after having cleared RUNNING. */
  predicate Joining(s: State) {
    s.control.StopJoin? || s.control.TearJoin?
  }

  /** Points at which the control thread knows that no receiver is live. */
  predicate Quiet(s: State) {
    || s.control.Connecting? || s.control.Syncing? || s.control.Spawning?
    || s.control.StopReply? || s.control.Accepting?
  }

  ghost predicate Inv(s: State) {
    // only the receiver behind the handle can be live, and it is the latest one
    && (forall id :: Live(s, id) ==> s.handle == Some(id) && id == |s.receivers| - 1)
    // a live receiver means RUNNING is set, unless the control thread is waiting for it to end
    && (!NoneLive(s) ==> s.running || Joining(s))
    // RUNNING is set only for a live receiver or one about to be spawned
    && (s.running ==> !NoneLive(s) || s.control.Spawning?)
    && (Quiet(s) ==> NoneLive(s))
    && (s.control.Connecting? || s.control.Syncing? ==> !s.running)
    && (s.control.Spawning? ==> s.running)
    && (Joining(s) ==> !s.running)
    && (s.handle.Some? ==> s.handle.value < |s.receivers|)
  }

  lemma ReceiverStepKeepsInv(s: State, step: Step, id: nat)
    requires Inv(s) && id < |s.receivers| && ReceiverStep(s, step, id).Some?
    ensures Inv(ReceiverStep(s, step, id).value)
  {
    var t := ReceiverStep(s, step, id).value;
    assert forall j :: j != id ==> Live(t, j) == Live(s, j);
    if Live(s, id) && !Live(t, id) {
      assert NoneLive(t);
    } else if Live(s, id) {
      assert Live(t, id);
    } else {
      assert !Live(t, id);
      assert NoneLive(t) == NoneLive(s);
    }
  }

  lemma ControlStepKeepsInv(s: State, replyOk: bool)
    requires Inv(s) && ControlStep(s, replyOk).Some?
    ensures Inv(ControlStep(s, replyOk).value)
  {
    var t := ControlStep(s, replyOk).value;
    if s.control.Spawning? {
      assert forall j: nat :: Live(t, j) && j < |s.receivers| ==> Live(s, j);
      assert Live(t, |s.receivers|);
    } else {
      assert forall j :: Live(t, j) == Live(s, j);
      assert NoneLive(t) == NoneLive(s);
    }
  }

  lemma StepKeepsInv(s: State, step: Step)
    requires Inv(s) && Apply(s, step).Some?
    ensures Inv(Apply(s, step).value)
  {
    match step
    case Accept =>
      var t := Apply(s, step).value;
      assert forall j :: Live(t, j) == Live(s, j);
    case Control(replyOk) => ControlStepKeepsInv(s, replyOk);
    case GetStart => assert forall j :: Live(Apply(s, step).value, j) == Live(s, j);
    case GetStop => assert forall j :: Live(Apply(s, step).value, j) == Live(s, j);
    case GetPoll =>
    case LoseConnection => assert forall j :: Live(Apply(s, step).value, j) == Live(s, j);
    case _ => ReceiverStepKeepsInv(s, step, step.id);
  }

  ghost predicate Reachable(s: State) {
    Runs.Reachable(Apply, Init(), s)
  }

  lemma ReachableInv(s: State)
    requires Reachable(s)
    ensures Inv(s)
  {
    forall s, step | Inv(s) && Apply(s, step).Some? ensures Inv(Apply(s, step).value) {
      StepKeepsInv(s, step);
    }
    ReachableKeeps(Apply, s => Inv(s), Init(), s);
  }

  // ---- main results ----

  /** At most one receiver is ever live, and it is the latest one, the one behind `recv_handle`. */
  lemma AtMostOneLive(s: State, i: nat, j: nat)
    requires Reachable(s) && Live(s, i) && Live(s, j)
    ensures i == j == |s.receivers| - 1 && s.handle == Some(i)
  {
    ReachableInv(s);
  }

  /** A receiver clears RUNNING only while it belongs to the current session: it is the latest
      receiver and no new session is between its start and its spawn. */
  lemma OnlyTheCurrentReceiverClears(s: State, id: nat)
    requires Reachable(s) && Apply(s, ClearRunning(id)).Some?
    ensures id == |s.receivers| - 1 && s.handle == Some(id)
    ensures !s.control.Connecting? && !s.control.Syncing? && !s.control.Spawning?
  {
    ReachableInv(s);
    assert Live(s, id);
  }

  /** A step that replies Done to Stop, or ends a control connection, leaves no receiver live and
      RUNNING cleared. */
  lemma StopAndTearDownAreQuiet(s: State, step: Step)
    requires Reachable(s) && Apply(s, step).Some?
    requires var t := Apply(s, step).value;
             t.replies == s.replies + [StopDone] || (t.control.Accepting? && !s.control.Accepting?)
    ensures NoneLive(Apply(s, step).value) && !Apply(s, step).value.running
  {
    ReachableInv(s);
    StepKeepsInv(s, step);
    var t := Apply(s, step).value;
    if t.replies == s.replies + [StopDone] {
      assert t.replies[|s.replies|] == StopDone;
      assert s.control.StopReply?;
      assert forall j :: Live(t, j) == Live(s, j);
    }
  }

  /** One sub-batch to the FPGA is one step of a live receiver that has it to write. */
  lemma OnlyLiveReceiversWrite(s: State, step: Step)
    requires Apply(s, step).Some?
    ensures var t := Apply(s, step).value;
            t.fpgaWrites > s.fpgaWrites ==>
              step.WriteBatch? && Live(s, step.id) && s.receivers[step.id].Writing? && t.fpgaWrites == s.fpgaWrites + 1
  {
  }

  /** A receiver that has n sub-batches makes exactly n writes before it tests RUNNING again. */
  lemma {:induction false} BatchesAreWritten(s: State, id: nat, n: nat)
    requires id < |s.receivers| && s.receivers[id] == Writing(n)
    ensures Run(Apply, s, seq(n + 1, _ => WriteBatch(id)))
         == Some(s.(receivers := s.receivers[id := Checking], fpgaWrites := s.fpgaWrites + n))
    decreases n
  {
    var steps := seq(n + 1, _ => WriteBatch(id));
    assert steps[1..] == seq(n, _ => WriteBatch(id));
    if n == 0 {
    } else {
      var t := Apply(s, WriteBatch(id)).value;
      BatchesAreWritten(t, id, n - 1);
      assert t.receivers[id := Checking] == s.receivers[id := Checking];
    }
  }

  lemma ReceiversStay(s: State, step: Step)
    requires Apply(s, step).Some?
    ensures |Apply(s, step).value.receivers| >= |s.receivers|
  {
  }

  lemma {:induction false} ReceiversStayOverRuns(s: State, steps: seq<Step>)
    requires Run(Apply, s, steps).Some?
    ensures |Run(Apply, s, steps).value.receivers| >= |s.receivers|
    decreases |steps|
  {
    hide Apply;
    if steps == [] {
    } else {
      ReceiversStay(s, steps[0]);
      ReceiversStayOverRuns(Apply(s, steps[0]).value, steps[1..]);
    }
  }

  lemma QuietStep(s: State, step: Step)
    requires NoneLive(s) && Apply(s, step).Some? && |Apply(s, step).value.receivers| == |s.receivers|
    ensures NoneLive(Apply(s, step).value) && Apply(s, step).value.fpgaWrites == s.fpgaWrites
  {
    var t := Apply(s, step).value;
    forall j | 0 <= j < |t.receivers|
      ensures !Live(t, j)
    {
      assert !Live(s, j);
    }
    OnlyLiveReceiversWrite(s, step);
  }

  /** From a state without a live receiver, nothing is written to the FPGA and no receiver comes to life
      over every run in which none is spawned, that is, until the next Start succeeds. */
  lemma {:induction false} QuietUntilNextStart(s: State, steps: seq<Step>)
    requires NoneLive(s) && Run(Apply, s, steps).Some?
    requires |Run(Apply, s, steps).value.receivers| == |s.receivers|
    ensures Run(Apply, s, steps).value.fpgaWrites == s.fpgaWrites && NoneLive(Run(Apply, s, steps).value)
    decreases |steps|
  {
    if steps == [] {
    } else {
      ReceiversStay(s, steps[0]);
      ReceiversStayOverRuns(Apply(s, steps[0]).value, steps[1..]);
      QuietStep(s, steps[0]);
      QuietUntilNextStart(Apply(s, steps[0]).value, steps[1..]);
    }
  }

  /** The guarantee ends at the final store: the thread of an ended session can still be logging and
      closing its files while the next session's receiver already runs. */
  lemma TwoThreadsCanCoexist() returns (s: State)
    ensures Reachable(s)
    ensures s.receivers == [Epilogue, Checking]
  {
    assert Run(Apply, Init(), []) == Some(Init());
    s := Go(Apply, Init(), Init(), Accept);
    s := StartSession(s);
    s := Go(Apply, Init(), s, CheckRunning(0));
    s := Go(Apply, Init(), s, GetEof(0));
    s := Go(Apply, Init(), s, ClearRunning(0));
    assert s.receivers == [Epilogue];
    s := StartSession(s);
  }

  /** A Start handled without disturbance. */
  lemma StartSession(s: State) returns (t: State)
    requires Reachable(s) && s.control.Waiting? && !s.running
    ensures Reachable(t) && t.control.Waiting? && t.running && t.receivers == s.receivers + [Checking]
  {
    t := Go(Apply, Init(), s, GetStart);
    t := Go(Apply, Init(), t, Control(true));
    t := Go(Apply, Init(), t, Control(true));
    t := Go(Apply, Init(), t, Control(true));
    t := Go(Apply, Init(), t, Control(true));
  }

  // ---- what a request is answered ----

  /** A Start while RUNNING is set, or a Stop while it is clear, is answered DidNothing and changes
      nothing else; only a reply that fails ends the connection. A poll leaves the session alone. */
  lemma MisplacedRequestsDoNothing(s: State, replyOk: bool)
    requires s.control.Waiting?
    ensures Apply(s, GetPoll) == Some(s)
    ensures Run(Apply, s, [if s.running then GetStart else GetStop, Control(replyOk)])
         == Some(s.(replies := s.replies + [DidNothing], control := if replyOk then Waiting else TearClear))
  {
    var request := if s.running then GetStart else GetStop;
    assert [request, Control(replyOk)][1..] == [Control(replyOk)];
    RunOne(Apply, Apply(s, request).value, Control(replyOk));
  }

  /** DidNothing is never the answer to anything else. */
  lemma OnlyMisplacedRequestsDoNothing(s: State, step: Step)
    requires Apply(s, step).Some? && Apply(s, step).value.replies == s.replies + [DidNothing]
    ensures (s.control.StartCheck? && s.running) || (s.control.StopCheck? && !s.running)
  {
    var t := Apply(s, step).value;
    assert t.replies[|s.replies|] == DidNothing;
  }

  function StepsToEnd(pc: ReceiverPc): nat {
    match pc
    case Checking => 3
    case Reading => 3
    case Writing(left) => 4 + left
    case Clearing => 2
    case Epilogue => 1
    case Ended => 0
  }

  function StepToEnd(pc: ReceiverPc, id: nat): Step {
    match pc
    case Checking => CheckRunning(id)
    case Reading => GetEof(id)
    case Writing(_) => WriteBatch(id)
    case Clearing => ClearRunning(id)
    case _ => Return(id)
  }

  /** A receiver can end once RUNNING is clear, if its blocking read returns. */
  lemma {:induction false} ReceiverCanEnd(start: State, s: State, id: nat) returns (t: State)
    requires Runs.Reachable(Apply, start, s) && !s.running && id < |s.receivers|
    ensures Runs.Reachable(Apply, start, t)
    ensures t == s.(receivers := s.receivers[id := Ended], fpgaWrites := t.fpgaWrites)
    decreases StepsToEnd(s.receivers[id])
  {
    if s.receivers[id].Ended? {
      t := s;
    } else {
      t := Go(Apply, start, s, StepToEnd(s.receivers[id], id));
      t := ReceiverCanEnd(start, t, id);
    }
  }

  lemma JoiningFacts(s: State)
    requires Reachable(s) && Joining(s)
    ensures !s.running && (s.handle.Some? ==> s.handle.value < |s.receivers|)
  {
    ReachableInv(s);
  }

  /** A wait for the receiver never becomes hopeless: a Stop can always still be answered Done, and a
      control connection that was lost can always be followed by the next. */
  lemma JoinCanComplete(s: State) returns (t: State)
    requires Reachable(s) && Joining(s)
    ensures Runs.Reachable(Apply, s, t)
    ensures if s.control.StopJoin? then t.control.Waiting? && t.replies == s.replies + [StopDone]
            else t.control.Accepting? && t.replies == s.replies
  {
    hide Inv;
    JoiningFacts(s);
    assert Run(Apply, s, []) == Some(s);
    t := s;
    if s.handle.Some? {
      t := ReceiverCanEnd(s, t, s.handle.value);
    }
    t := Go(Apply, s, t, Control(true));
    if s.control.StopJoin? {
      t := Go(Apply, s, t, Control(true));
    }
  }
}
