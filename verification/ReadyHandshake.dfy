/** The ready/idle handshake between the node, gc and the calibration server, on either machine
    (gc/src/control.rs, the `init` and `start` commands of remote/hws_alice.py and remote/hws_bob.py,
    and the node's contract in comm/src/lib.rs). Every flag test, creation, removal and reply is one
    atomic step; gc starts and stops streaming at arbitrary moments. */
module ReadyHandshake {
  import opened Maybe
  import opened Runs

  datatype Response = HwReady | HwNotReady

  /** The poll gc is answering, identified by the node connection it came in on. `streaming` is what
      gc read when it took the poll. */
  datatype GcPc =
    | Listening
    | GotPoll(conn: nat, streaming: bool)     // about to test the ready flag
    | SawReady(conn: nat)                     // about to remove the idle flag
    | SawNotReady(conn: nat, streaming: bool) // about to test the idle flag
    | Raising(conn: nat)                      // about to create the idle flag
    | Answering(conn: nat, r: Response)       // about to reply

  datatype HwsPc =
    | CommandLoop
    | DropReady                 // init: about to remove the ready flag
    | DropIdle                  // init: about to remove the idle flag
    | WaitIdle                  // init: in wait_for_node_idle
    | Initialising(ack: bool)   // init: re-initialising the FPGA; ack: the wait returned True

  datatype Node = Node(
    conn: nat,                  // grows each time the node restarts
    fdsOpen: bool,
    mayOpen: bool,              // its last answer was HwReady
    awaiting: bool,             // it has polled and not seen the answer
    request: bool,              // its poll has not been taken by gc yet
    reply: Option<Response>)    // an answer on its way to it

  datatype State = State(
    ready: bool, idle: bool,    // the two flag files
    streaming: bool,
    gc: GcPc, hws: HwsPc, node: Node,
    replies: seq<Response>,
    acked: bool)                // wait_for_node_idle has returned True since the last start

  datatype Step =
    | SetStreaming(on: bool)
    | TakePoll | TestReady | LowerIdle | TestIdle | RaiseIdle | Answer
    | BeginInit | RemoveReady | RemoveIdle | SeeIdle | TimeOut | FinishInit | RaiseReady
    | NodePoll | NodeReceive | NodeOpen | NodeClose | NodeCrash

  function Init(): State {
    State(false, false, false, Listening, CommandLoop, Node(0, false, false, false, false, None), [], false)
  }

  /** `answer_poll_hw_ready`, with the streaming flag as gc reads it when it takes the poll. */
  function GcStep(s: State, step: Step): Option<State> {
    match (step, s.gc)
    case (TakePoll, Listening) =>
      if s.node.request then
        Some(s.(gc := GotPoll(s.node.conn, s.streaming), node := s.node.(request := false)))
      else None
    case (TestReady, GotPoll(conn, streaming)) =>
      Some(s.(gc := if s.ready then SawReady(conn) else SawNotReady(conn, streaming)))
    case (LowerIdle, SawReady(conn)) => Some(s.(idle := false, gc := Answering(conn, HwReady)))
    case (TestIdle, SawNotReady(conn, streaming)) =>
      Some(s.(gc := if !streaming && !s.idle then Raising(conn) else Answering(conn, HwNotReady)))
    case (RaiseIdle, Raising(conn)) => Some(s.(idle := true, gc := Answering(conn, HwNotReady)))
    case (Answer, Answering(conn, r)) =>
      Some(s.(gc := Listening, replies := s.replies + [r],
              node := if conn == s.node.conn then s.node.(reply := Some(r)) else s.node))
    case _ => None
  }

  /** The `init` and `start` commands. */
  function HwsStep(s: State, step: Step): Option<State> {
    match (step, s.hws)
    case (BeginInit, CommandLoop) => Some(s.(hws := DropReady))
    case (RemoveReady, DropReady) => Some(s.(ready := false, hws := DropIdle))
    case (RemoveIdle, DropIdle) => Some(s.(idle := false, hws := WaitIdle))
    case (SeeIdle, WaitIdle) => if s.idle then Some(s.(hws := Initialising(true), acked := true)) else None
    case (TimeOut, WaitIdle) => Some(s.(hws := Initialising(false)))
    case (FinishInit, Initialising(_)) => Some(s.(hws := CommandLoop))
    case (RaiseReady, CommandLoop) => Some(s.(ready := true, acked := false))
    case _ => None
  }

  /** The node: one poll at a time; it opens its fds only after HwReady and may close them, or die,
      at any time. */
  function NodeStep(s: State, step: Step): Option<State> {
    var n := s.node;
    match step
    case NodePoll => if !n.awaiting then Some(s.(node := n.(awaiting := true, request := true))) else None
    case NodeReceive =>
      if n.reply.Some? then
        Some(s.(node := n.(awaiting := false, reply := None, mayOpen := n.reply.value.HwReady?)))
      else None
    case NodeOpen => if n.mayOpen && !n.awaiting then Some(s.(node := n.(fdsOpen := true))) else None
    case NodeClose => Some(s.(node := n.(fdsOpen := false)))
    case NodeCrash => Some(s.(node := Node(n.conn + 1, false, false, false, false, None)))
    case _ => None
  }

  function Apply(s: State, step: Step): Option<State> {
    match step
    case SetStreaming(on) => Some(s.(streaming := on))
    case TakePoll | TestReady | LowerIdle | TestIdle | RaiseIdle | Answer => GcStep(s, step)
    case BeginInit | RemoveReady | RemoveIdle | SeeIdle | TimeOut | FinishInit | RaiseReady => HwsStep(s, step)
    case NodePoll | NodeReceive | NodeOpen | NodeClose | NodeCrash => NodeStep(s, step)
  }

  // ---- the node's contract ----

  /** gc takes a poll while it is not streaming although the node holds its fds. The node's contract
      excludes this: outside a session it polls with its fds closed. */
  predicate BreaksContract(s: State, step: Step) {
    step.TakePoll? && s.gc.Listening? && s.node.request && !s.streaming && s.node.fdsOpen
  }

  /** The steps of a node that keeps its contract. */
  function Kept(s: State, step: Step): Option<State> {
    if BreaksContract(s, step) then None else Apply(s, step)
  }

  /** Every step of the run is one of a node that keeps its contract. */
  predicate KeepsContract(s: State, steps: seq<Step>) {
    Run(Kept, s, steps).Some?
  }

  lemma {:induction false} KeptRun(s: State, steps: seq<Step>)
    requires KeepsContract(s, steps)
    ensures Run(Apply, s, steps) == Run(Kept, s, steps)
    decreases |steps|
  {
    if steps == [] {
    } else {
      KeptRun(Apply(s, steps[0]).value, steps[1..]);
    }
  }

  // ---- the invariant ----

  /** The node's fds are closed and nothing already on its way lets it open them. */
  predicate NodeHeldClosed(n: Node) {
    !n.fdsOpen && (n.mayOpen ==> n.awaiting) && n.reply != Some(HwReady)
  }

  /** gc is committed to answering HwReady, or has. */
  predicate AnsweringReady(gc: GcPc) {
    gc.SawReady? || (gc.Answering? && gc.r.HwReady?)
  }

  /** gc took the poll while it was not streaming. */
  predicate TookIdlePoll(gc: GcPc) {
    (gc.GotPoll? && !gc.streaming) || (gc.SawNotReady? && !gc.streaming) || gc.Raising?
  }

  ghost predicate NodeInv(s: State) {
    var n := s.node;
    && (n.request ==> n.awaiting && n.reply.None?)
    && (n.reply.Some? ==> n.awaiting)
    // the poll gc works on is the node's outstanding one, or one of an earlier node process
    && (!s.gc.Listening? && s.gc.conn == n.conn ==> n.awaiting && !n.request && n.reply.None?)
    && (!s.gc.Listening? && s.gc.conn != n.conn ==>
          s.gc.conn < n.conn && NodeHeldClosed(n) && !n.mayOpen && n.reply.None?)
    && (TookIdlePoll(s.gc) ==> !n.fdsOpen)
  }

  /** What the flags alone guarantee, whatever the node does. */
  ghost predicate AckInv(s: State) {
    && (s.hws.DropIdle? || s.hws.WaitIdle? || s.hws.Initialising? ==> !s.ready)
    && (s.hws.WaitIdle? && s.idle ==> !AnsweringReady(s.gc))
    && (s.acked ==> !s.ready && !AnsweringReady(s.gc))
    && (s.hws == Initialising(true) ==> s.acked)
  }

  ghost predicate ClosedInv(s: State) {
    && (s.idle ==> NodeHeldClosed(s.node) && !(s.gc == Answering(s.node.conn, HwReady)))
    && (s.acked ==> NodeHeldClosed(s.node))
  }

  ghost predicate Inv(s: State) {
    NodeInv(s) && AckInv(s) && ClosedInv(s)
  }

  lemma AckStep(s: State, step: Step)
    requires AckInv(s) && Apply(s, step).Some?
    ensures AckInv(Apply(s, step).value)
  {
  }

  lemma GcStepKeepsInv(s: State, step: Step)
    requires Inv(s) && GcStep(s, step).Some? && !BreaksContract(s, step)
    ensures Inv(GcStep(s, step).value)
  {
  }

  lemma HwsStepKeepsInv(s: State, step: Step)
    requires Inv(s) && HwsStep(s, step).Some?
    ensures Inv(HwsStep(s, step).value)
  {
  }

  lemma NodeStepKeepsInv(s: State, step: Step)
    requires Inv(s) && NodeStep(s, step).Some?
    ensures Inv(NodeStep(s, step).value)
  {
  }

  /** Every step of gc, the calibration server and the node that keeps the contract keeps the invariant. */
  lemma StepKeepsInv(s: State, step: Step)
    requires Inv(s) && Apply(s, step).Some? && !BreaksContract(s, step)
    ensures Inv(Apply(s, step).value)
  {
    if GcStep(s, step).Some? {
      GcStepKeepsInv(s, step);
    } else if HwsStep(s, step).Some? {
      HwsStepKeepsInv(s, step);
    } else if NodeStep(s, step).Some? {
      NodeStepKeepsInv(s, step);
    }
  }

  lemma KeptKeepsInv()
    ensures Preserves(Kept, s => Inv(s))
  {
    forall s, step | Inv(s) && Kept(s, step).Some? ensures Inv(Kept(s, step).value) {
      StepKeepsInv(s, step);
    }
  }

  /** Some run leads to s. */
  ghost predicate Reachable(s: State) {
    Runs.Reachable(Apply, Init(), s)
  }

  /** Some run from s that keeps the node's contract ends in t. */
  ghost predicate Leads(s: State, t: State) {
    Runs.Reachable(Kept, s, t)
  }

  /** Some run in which the node's contract is kept leads to s. */
  ghost predicate KeptTo(s: State) {
    Leads(Init(), s)
  }

  lemma KeptInv(s: State)
    requires KeptTo(s)
    ensures Inv(s)
  {
    KeptKeepsInv();
    ReachableKeeps(Kept, t => Inv(t), Init(), s);
  }

  // ---- main results ----

  /** Whenever the idle flag is present the node's fds are closed. */
  lemma IdleFlagMeansClosed(s: State)
    requires KeptTo(s) && s.idle
    ensures !s.node.fdsOpen
  {
    KeptInv(s);
  }

  /** The FPGA is never re-initialised under open fds when wait_for_node_idle returned True. */
  lemma ReinitialisationIsSafe(s: State)
    requires KeptTo(s) && s.hws == Initialising(true)
    ensures !s.node.fdsOpen
  {
    KeptInv(s);
  }

  /** No step of the run is a `start`. */
  predicate NoStart(steps: seq<Step>) {
    forall i :: 0 <= i < |steps| ==> !steps[i].RaiseReady?
  }

  lemma NotReadyStep(s: State, step: Step)
    requires AckInv(s) && s.acked && Apply(s, step).Some? && !step.RaiseReady?
    ensures var t := Apply(s, step).value;
            t.acked && (t.replies == s.replies || t.replies == s.replies + [HwNotReady])
  {
  }

  lemma {:induction false} NotReadyRun(s: State, steps: seq<Step>)
    requires AckInv(s) && s.acked && Run(Apply, s, steps).Some? && NoStart(steps)
    ensures var t := Run(Apply, s, steps).value;
            && s.replies <= t.replies && t.acked
            && (forall i :: |s.replies| <= i < |t.replies| ==> t.replies[i] == HwNotReady)
    decreases |steps|
  {
    if steps == [] {
    } else {
      AckStep(s, steps[0]);
      NotReadyStep(s, steps[0]);
      NotReadyRun(Apply(s, steps[0]).value, steps[1..]);
    }
  }

  lemma AckReachable(s: State)
    requires Reachable(s)
    ensures AckInv(s)
  {
    forall t, step | AckInv(t) && Apply(t, step).Some? ensures AckInv(Apply(t, step).value) {
      AckStep(t, step);
    }
    ReachableKeeps(Apply, t => AckInv(t), Init(), s);
  }

  /** Once wait_for_node_idle has returned True, every poll answered from then on, over every run up
      to the next start, is answered HwNotReady, whatever the node does. */
  lemma NotReadyUntilStart(s: State, steps: seq<Step>)
    requires Reachable(s) && s.acked && Run(Apply, s, steps).Some? && NoStart(steps)
    ensures var t := Run(Apply, s, steps).value;
            && s.replies <= t.replies
            && forall i :: |s.replies| <= i < |t.replies| ==> t.replies[i] == HwNotReady
  {
    AckReachable(s);
    NotReadyRun(s, steps);
  }

  /** And a node that keeps its contract keeps its fds closed all that time. */
  lemma ClosedUntilStart(s: State, steps: seq<Step>)
    requires KeptTo(s) && s.acked && KeepsContract(s, steps) && NoStart(steps)
    ensures Run(Apply, s, steps) == Run(Kept, s, steps) && !Run(Kept, s, steps).value.node.fdsOpen
  {
    KeptInv(s);
    KeptRun(s, steps);
    NotReadyRun(s, steps);
    KeptKeepsInv();
    RunKeeps(Kept, t => Inv(t), s, steps);
  }

  // ---- what a poll is answered ----

  /** gc has one poll in hand, `streaming` is what it read when it took it, and the test of the ready
      flag has decided its answer. */
  predicate Decided(gc: GcPc, conn: nat, streaming: bool, r: Response) {
    match gc
    case SawReady(c) => c == conn && r == HwReady
    case SawNotReady(c, on) => c == conn && on == streaming && r == HwNotReady
    case Raising(c) => c == conn && !streaming && r == HwNotReady
    case Answering(c, q) => c == conn && r == q
    case _ => false
  }

  predicate NoAnswer(steps: seq<Step>) {
    forall i :: 0 <= i < |steps| ==> !steps[i].Answer?
  }

  lemma OthersLeaveGc(s: State, step: Step)
    requires Apply(s, step).Some? && GcStep(s, step).None?
    ensures Apply(s, step).value.gc == s.gc && Apply(s, step).value.replies == s.replies
    ensures !step.RaiseIdle? && !step.LowerIdle?
  {
  }

  lemma DecisionStep(s: State, step: Step, conn: nat, streaming: bool, r: Response)
    requires Decided(s.gc, conn, streaming, r) && Apply(s, step).Some? && !step.Answer?
    ensures Decided(Apply(s, step).value.gc, conn, streaming, r) && Apply(s, step).value.replies == s.replies
    ensures step.RaiseIdle? ==> r == HwNotReady && !streaming
    ensures step.LowerIdle? ==> r == HwReady
  {
    hide HwsStep, NodeStep;
    if GcStep(s, step).None? {
      hide Apply, GcStep, Decided;
      OthersLeaveGc(s, step);
    }
  }

  lemma {:induction false} DecisionStands(s: State, steps: seq<Step>, conn: nat, streaming: bool, r: Response)
    requires Decided(s.gc, conn, streaming, r) && Run(Apply, s, steps).Some? && NoAnswer(steps)
    ensures var t := Run(Apply, s, steps).value; Decided(t.gc, conn, streaming, r) && t.replies == s.replies
    ensures forall i :: 0 <= i < |steps| && steps[i].RaiseIdle? ==> r == HwNotReady && !streaming
    ensures forall i :: 0 <= i < |steps| && steps[i].LowerIdle? ==> r == HwReady
    decreases |steps|
  {
    hide Apply, Decided;
    if steps == [] {
    } else {
      DecisionStep(s, steps[0], conn, streaming, r);
      DecisionStands(Apply(s, steps[0]).value, steps[1..], conn, streaming, r);
    }
  }

  /** A poll is answered HwReady iff the ready flag was up when gc tested it, over every run from the
      test to the answer, streaming or not, and the answer goes to the connection that polled. On the
      way gc raises the idle flag only if the ready flag was down and it did not stream when it took
      the poll, and lowers it only if the ready flag was up. */
  lemma AnswerFollowsTheFlag(s: State, steps: seq<Step>)
    requires s.gc.GotPoll?
    requires Run(Apply, Apply(s, TestReady).value, steps).Some? && NoAnswer(steps)
    requires Apply(Run(Apply, Apply(s, TestReady).value, steps).value, Answer).Some?
    ensures var t := Run(Apply, Apply(s, TestReady).value, steps).value;
            var u, r := Apply(t, Answer).value, if s.ready then HwReady else HwNotReady;
            && u.replies == s.replies + [r] && u.gc == Listening
            && u.node == if s.gc.conn == t.node.conn then t.node.(reply := Some(r)) else t.node
    ensures forall i :: 0 <= i < |steps| && steps[i].RaiseIdle? ==> !s.ready && !s.gc.streaming
    ensures forall i :: 0 <= i < |steps| && steps[i].LowerIdle? ==> s.ready
  {
    var r := if s.ready then HwReady else HwNotReady;
    DecisionStands(Apply(s, TestReady).value, steps, s.gc.conn, s.gc.streaming, r);
  }

  /** What gc does with the poll in hand when nothing comes between its own steps. */
  function OwnSteps(s: State): seq<Step>
    requires s.gc.GotPoll?
  {
    if s.ready then [TestReady, LowerIdle, Answer]
    else if !s.gc.streaming && !s.idle then [TestReady, TestIdle, RaiseIdle, Answer]
    else [TestReady, TestIdle, Answer]
  }

  /** With the ready flag up, the idle flag ends down, whether gc streams or not. With it down, the idle
      flag is raised iff gc did not stream when it took the poll, and is never lowered. */
  lemma PollIsHandled(s: State)
    requires s.gc.GotPoll?
    ensures Run(Apply, s, OwnSteps(s)).Some?
    ensures var t, r := Run(Apply, s, OwnSteps(s)).value, if s.ready then HwReady else HwNotReady;
            && t.replies == s.replies + [r] && t.gc == Listening
            && (t.idle <==> !s.ready && (s.idle || !s.gc.streaming))
            && t == s.(idle := t.idle, gc := t.gc, replies := t.replies, node := t.node)
            && t.node == if s.gc.conn == s.node.conn then s.node.(reply := Some(r)) else s.node
  {
    var first := Apply(s, TestReady).value;
    if s.ready {
      ThreeSteps(s, TestReady, LowerIdle, Answer);
    } else if !s.gc.streaming && !s.idle {
      ThreeSteps(first, TestIdle, RaiseIdle, Answer);
      assert OwnSteps(s)[1..] == [TestIdle, RaiseIdle, Answer];
    } else {
      ThreeSteps(s, TestReady, TestIdle, Answer);
    }
  }

  lemma ThreeSteps(s: State, a: Step, b: Step, c: Step)
    requires Apply(s, a).Some? && Apply(Apply(s, a).value, b).Some?
    ensures Run(Apply, s, [a, b, c]) == Apply(Apply(Apply(s, a).value, b).value, c)
  {
    assert [a, b, c][1..] == [b, c] && [b, c][1..] == [c];
    RunOne(Apply, Apply(Apply(s, a).value, b).value, c);
  }

  /** The streaming flag that decides is the one of the moment gc takes the poll. */
  lemma StreamingIsReadOnce(s: State, steps: seq<Step>)
    requires Apply(s, TakePoll).Some? && Run(Apply, Apply(s, TakePoll).value, steps).Some?
    requires forall i :: 0 <= i < |steps| ==> !steps[i].TestReady?
    ensures Run(Apply, Apply(s, TakePoll).value, steps).value.gc == GotPoll(s.node.conn, s.streaming)
  {
    PollStaysInHand(Apply(s, TakePoll).value, steps);
  }

  lemma {:induction false} PollStaysInHand(s: State, steps: seq<Step>)
    requires s.gc.GotPoll? && Run(Apply, s, steps).Some?
    requires forall i :: 0 <= i < |steps| ==> !steps[i].TestReady?
    ensures Run(Apply, s, steps).value.gc == s.gc
    decreases |steps|
  {
    if steps == [] {
    } else {
      PollStaysInHand(Apply(s, steps[0]).value, steps[1..]);
    }
  }

  // ---- the contract is exactly what is needed ----

  /** The idle flag is up and an acknowledged re-initialisation runs, under open fds. */
  predicate Unsafe(s: State) {
    s.idle && s.hws == Initialising(true) && s.node.fdsOpen
  }

  /** From here some run that keeps the contract ends unsafe. */
  ghost predicate CanGoWrong(s: State) {
    exists t :: Leads(s, t) && Unsafe(t)
  }

  /** The run never passes through a state from which things can go wrong. */
  ghost predicate StaysSafe(s: State, steps: seq<Step>)
    requires Run(Apply, s, steps).Some?
    decreases |steps|
  {
    !CanGoWrong(s) && (steps != [] ==> StaysSafe(Apply(s, steps[0]).value, steps[1..]))
  }

  lemma Stay(s: State)
    ensures Leads(s, s)
  {
    assert Run(Kept, s, []) == Some(s);
  }

  /** From anywhere hws can come to wait for a fresh idle flag without gc or the node moving. */
  lemma FreshWait(s: State) returns (t: State)
    requires AckInv(s)
    ensures Leads(s, t) && t == s.(ready := false, idle := false, hws := WaitIdle)
  {
    Stay(s);
    t := s;
    if t.hws.WaitIdle? {
      t := Go(Kept, s, t, TimeOut);
    }
    if t.hws.Initialising? {
      t := Go(Kept, s, t, FinishInit);
    }
    t := DropFlags(s, t);
  }

  lemma DropFlags(s: State, t: State) returns (u: State)
    requires Leads(s, t) && (t.hws.CommandLoop? || t.hws.DropReady? || (t.hws.DropIdle? && !t.ready))
    ensures Leads(s, u) && u == t.(ready := false, idle := false, hws := WaitIdle)
  {
    u := t;
    if u.hws.CommandLoop? {
      u := Go(Kept, s, u, BeginInit);
    }
    if u.hws.DropReady? {
      u := Go(Kept, s, u, RemoveReady);
    }
    u := Go(Kept, s, u, RemoveIdle);
  }

  /** One poll taken against the contract is enough: gc will raise the idle flag for it. */
  lemma BrokenContractGoesWrong(s: State)
    requires AckInv(s) && BreaksContract(s, TakePoll)
    ensures CanGoWrong(Apply(s, TakePoll).value)
  {
    var start := Apply(s, TakePoll).value;
    AckStep(s, TakePoll);
    var t := FreshWait(start);
    t := IdleIsRaised(start, t);
    assert Unsafe(t);
  }

  /** A poll taken outside a session while hws waits: gc raises the idle flag and hws sees it. */
  lemma IdleIsRaised(s: State, t: State) returns (u: State)
    requires Leads(s, t) && t.hws.WaitIdle? && !t.ready && !t.idle
    requires t.gc.GotPoll? && !t.gc.streaming
    ensures Leads(s, u) && u.idle && u.hws == Initialising(true) && u.node == t.node
  {
    u := Go(Kept, s, t, TestReady);
    u := Go(Kept, s, u, TestIdle);
    u := Go(Kept, s, u, RaiseIdle);
    u := Go(Kept, s, u, SeeIdle);
  }

  function StepsLeft(gc: GcPc): nat {
    match gc
    case GotPoll(_, _) => 4
    case SawReady(_) => 2
    case SawNotReady(_, _) => 3
    case Raising(_) => 2
    case Answering(_, _) => 1
    case Listening => 0
  }

  function OwnStep(gc: GcPc): Step {
    match gc
    case GotPoll(_, _) => TestReady
    case SawReady(_) => LowerIdle
    case SawNotReady(_, _) => TestIdle
    case Raising(_) => RaiseIdle
    case _ => Answer
  }

  lemma OwnStepIsEnabled(s: State)
    requires !s.gc.Listening?
    ensures Kept(s, OwnStep(s.gc)).Some?
    ensures var t := Kept(s, OwnStep(s.gc)).value;
            && StepsLeft(t.gc) < StepsLeft(s.gc)
            && t == s.(idle := t.idle, gc := t.gc, replies := t.replies, node := t.node)
  {
  }

  /** gc can always bring the poll in hand to its end on its own. */
  lemma {:induction false} GcFinishes(s: State, t: State) returns (u: State)
    requires Leads(s, t)
    ensures Leads(s, u) && u.gc.Listening? && u == t.(idle := u.idle, gc := u.gc, replies := u.replies, node := u.node)
    decreases StepsLeft(t.gc)
  {
    hide Kept, OwnStep, StepsLeft;
    if t.gc.Listening? {
      u := t;
    } else {
      OwnStepIsEnabled(t);
      u := Go(Kept, s, t, OwnStep(t.gc));
      u := GcFinishes(s, u);
    }
  }

  /** The wait never becomes hopeless: from every state in which hws waits, it can still be
      acknowledged by a node that keeps its contract. */
  lemma WaitCanBeAcknowledged(s: State)
    requires Inv(s) && s.hws.WaitIdle?
    ensures exists t :: Leads(s, t) && t.hws == Initialising(true) && !t.node.fdsOpen
  {
    Stay(s);
    var t := GcFinishes(s, s);
    t := Go(Kept, s, t, SetStreaming(false));
    t := Go(Kept, s, t, NodeCrash);
    if t.idle {
      t := Go(Kept, s, t, SeeIdle);
    } else {
      t := Go(Kept, s, t, NodePoll);
      t := Go(Kept, s, t, TakePoll);
      t := IdleIsRaised(s, t);
    }
  }

  lemma {:induction false} KeptIsSafe(s: State, steps: seq<Step>)
    requires Inv(s) && Run(Apply, s, steps).Some?
    ensures KeepsContract(s, steps) <==> StaysSafe(s, steps)
    decreases |steps|
  {
    assert !CanGoWrong(s) by {
      if CanGoWrong(s) {
        var t :| Leads(s, t) && Unsafe(t);
        KeptKeepsInv();
        ReachableKeeps(Kept, u => Inv(u), s, t);
        assert false;
      }
    }
    if steps == [] {
    } else {
      var t := Apply(s, steps[0]).value;
      if BreaksContract(s, steps[0]) {
        BrokenContractGoesWrong(s);
        assert !StaysSafe(t, steps[1..]);
      } else {
        StepKeepsInv(s, steps[0]);
        KeptIsSafe(t, steps[1..]);
      }
    }
  }

  /** The premise is exact. A run keeps the node's contract if and only if it never passes through a
      state from which the FPGA can still come to be re-initialised, with an acknowledgement, under
      open fds. */
  lemma ContractIsExact(steps: seq<Step>)
    requires Run(Apply, Init(), steps).Some?
    ensures KeepsContract(Init(), steps) <==> StaysSafe(Init(), steps)
  {
    KeptIsSafe(Init(), steps);
  }

  // ---- witnesses ----

  /** The wait that gives up after its timeout carries no such guarantee: here the FPGA is
      re-initialised while a node that was told HwReady holds its fds. */
  lemma TimedOutWaitIsUnsafe() returns (s: State)
    ensures KeptTo(s) && s.hws == Initialising(false) && s.node.fdsOpen
  {
    s := NodeOpens();
    s := DropFlags(Init(), s);
    s := Go(Kept, Init(), s, TimeOut);
  }

  /** How the contract can come to be broken: a poll sent at a round boundary, fds open, is taken after
      the stream has ended. */
  lemma RoundBoundaryPollCanBreakIt() returns (s: State)
    ensures KeptTo(s) && BreaksContract(s, TakePoll) && CanGoWrong(Apply(s, TakePoll).value)
  {
    s := NodeOpens();
    s := Go(Kept, Init(), s, SetStreaming(true));
    s := Go(Kept, Init(), s, NodePoll);
    s := Go(Kept, Init(), s, SetStreaming(false));
    KeptInv(s);
    BrokenContractGoesWrong(s);
  }

  /** After a start the node is told HwReady and opens its fds. */
  lemma NodeOpens() returns (s: State)
    ensures KeptTo(s) && s.hws.CommandLoop? && s.node.fdsOpen && !s.node.awaiting && s.gc.Listening?
  {
    Stay(Init());
    s := Go(Kept, Init(), Init(), RaiseReady);
    s := Go(Kept, Init(), s, NodePoll);
    s := PollIsAnswered(s);
    s := Go(Kept, Init(), s, NodeReceive);
    s := Go(Kept, Init(), s, NodeOpen);
  }

  lemma PollIsAnswered(s: State) returns (t: State)
    requires KeptTo(s) && s.ready && s.gc.Listening? && s.node.request && !s.node.fdsOpen
    ensures KeptTo(t) && t.hws == s.hws && t.gc.Listening?
    ensures t.node == s.node.(request := false, reply := Some(HwReady))
  {
    t := Go(Kept, Init(), s, TakePoll);
    t := Go(Kept, Init(), t, TestReady);
    t := Go(Kept, Init(), t, LowerIdle);
    t := Go(Kept, Init(), t, Answer);
  }
}
