/** Every command of Alice's function map, from both sides: the messages Alice's code exchanges with
    Bob (remote/hws_alice.py) and the messages Bob's dispatcher exchanges with her
    (remote/hws_bob.py). */
module HwsCommands {
  import opened Maybe
  import opened Runs
  import opened Dialogue

  // ---- building blocks ----

  function AllOf(parts: seq<Alice>): Alice {
    if parts == [] then End else ThenA(parts[0], AllOf(parts[1..]))
  }

  /** A loop of Alice's with a fixed number of rounds. */
  function Times(n: nat, body: Alice): Alice {
    if n == 0 then End else ThenA(body, Times(n - 1, body))
  }

  /** A loop of Bob's with a fixed number of rounds. */
  function Rounds(n: nat, body: Bob, k: Bob): Bob {
    if n == 0 then k else ThenB(body, Rounds(n - 1, body, k))
  }

  function Just(word: string): Alice { Say(word, End) }

  /** A loop whose number of rounds depends on Alice's data. */
  function Loop(body: Alice): Alice { Many(body, End) }

  function Counts(): Alice { Say("get counts", Get(Int, End)) }

  function Ratio(): Alice { Say("get ratio", Get(Dbl, End)) }

  function SetAngle(): Alice { Say("set_angle1", Put(Dbl, End)) }

  // ---- Alice's side ----

  /** Commands that announce themselves, ask for counts as `body` says, and end with 'done'. */
  function Counting(word: string, body: Alice): Alice {
    Say(word, ThenA(body, Just("done")))
  }

  /** Commands that only wait for Bob's closing message. */
  function Simple(word: string): Alice { Say(word, Get(Str, End)) }

  function Init(): Alice { Say("init", Say("Alice init done", Get(Str, End))) }
  function Clean(): Alice { Just("clean") }
  function Save(): Alice { Say("save", Put(Str, End)) }
  function Load(): Alice { Either(End, Say("load", Put(Str, Get(Str, End)))) }
  function SyncGc(): Alice { Say("sync_gc", Just("go")) }
  function CompareGc(): Alice { Say("compare_gc", Get(Dbl, End)) }
  function ConfigLaser(): Alice { End }
  function Qdistance(): Alice { Counting("qdistance", AllOf([Loop(Counts()), Loop(Counts()), Loop(Counts())])) }
  function FindVca(): Alice {
    Counting("find_vca", AllOf([Times(3, Counts()), Times(3, Counts()), Counts(),
                                Either(Loop(Counts()), Either(Loop(Counts()), End))]))
  }
  function VcaPer(): Alice { Counting("vca_per", AllOf([Counts(), Loop(Counts()), Counts()])) }
  function FindBias(word: string): Alice { Counting(word, Loop(Counts())) }
  function ProbeBias(word: string): Alice { Counting(word, Times(3, Counts())) }
  function VerifyBias(word: string): Alice { Say(word, ThenA(Counts(), Counts())) }
  function LoopFindBias(find: string, verify: string): Alice {
    var again := ThenA(FindBias(find), VerifyBias(verify));
    AllOf([ProbeBias(find), again, Either(again, End), Either(AllOf([FindBias(find), again, Either(again, End)]), End)])
  }
  function FindSp(): Alice { Say("find_sp", Get(Int, Get(Int, End))) }
  function VerifyGates(): Alice { Say("verify_gates", Get(Str, Get(Blob, Get(Str, End)))) }
  function FindGatesOnce(): Alice { AllOf([Simple("ad"), FindSp(), Simple("ad"), VerifyGates()]) }
  function LoopFindGates(): Alice { ThenA(FindGatesOnce(), Either(End, FindGatesOnce())) }
  function CheckGateEdge(): Alice {
    Say("check_gate_edge", Get(Str, Either(End, Say("set_gate_delay", Put(Int, Get(Str, End))))))
  }
  function FsB(): Alice { Say("fs_b", Get(Int, End)) }
  function FsA(): Alice { Say("fs_a", ThenA(Times(10, Say("download data", Get(Str, End))), Get(Int, Get(Dbl, End)))) }
  function FdA(): Alice { Say("fd_a", Get(Int, End)) }
  function FdALong(): Alice { Say("fd_a_long", Put(Int, Get(Int, End))) }
  function FzA(): Alice { Say("fz_a", ThenA(AllOf([Ratio(), Either(End, Loop(Ratio()))]), Say("ok", Get(Str, End)))) }
  function AdjustAm(): Alice { Counting("adjust_am", Times(7, Counts())) }
  function AdjustAnglesA(): Alice { Counting("adjust_angles_a", Times(5, Counts())) }
  function QberOnly(word: string): Alice { Say(word, Just("done")) }
  function AdjustAnglesBQber(): Alice {
    Say("adjust_angles_b_qber",
      ThenA(Say("get_angle1", Get(Dbl, End)), ThenA(Loop(SetAngle()), ThenA(SetAngle(), Just("done")))))
  }

  /** Refers to an undefined name right after its announcement and raises; Bob ignores the word. */
  function SetAnglesA(): Alice { Just("set_angles_a") }

  // ---- the function map ----

  function SetupCommands(): seq<Alice> {
    [Clean(), Save(), Load(), Init(), SyncGc(), CompareGc(), ConfigLaser()]
  }

  function CountCommands(): seq<Alice> {
    [VcaPer(), Qdistance(), FindVca(), FindBias("find_am_bias"), FindBias("find_am2_bias"), AdjustAm(),
     AdjustAnglesA()]
  }

  function BiasCommands(): seq<Alice> {
    [VerifyBias("verify_am_bias"), VerifyBias("verify_am2_bias"),
     LoopFindBias("find_am_bias", "verify_am_bias"), LoopFindBias("find_am2_bias", "verify_am2_bias")]
  }

  function AckWords(): seq<string> {
    ["free_running", "pol_bob", "ad", "fd_b", "fd_b_long", "fz_b", "adjust_angles_b", "adjust_soft_gates",
     "set_soft_gates", "single_peak", "start"]
  }

  function AckCommands(words: seq<string>): (cs: seq<Alice>)
    ensures |cs| == |words| && forall i :: 0 <= i < |words| ==> cs[i] == Simple(words[i])
  {
    seq(|words|, i requires 0 <= i < |words| => Simple(words[i]))
  }

  function GateCommands(): seq<Alice> {
    [LoopFindGates(), CheckGateEdge(), FindSp(), VerifyGates()]
  }

  function OtherCommands(): seq<Alice> {
    [FsB(), FsA(), FdA(), FdALong(), FzA(), QberOnly("adjust_am_qber"), QberOnly("adjust_angles_a_qber"),
     AdjustAnglesBQber(), SetAnglesA()]
  }

  function Commands(): seq<Alice> {
    SetupCommands() + CountCommands() + BiasCommands() + AckCommands(AckWords()) + GateCommands() + OtherCommands()
  }

  // ---- Bob's side ----

  function Ack(): Bob { Send(Str, Stop) }

  /** while rcvc() == 'get counts': send_i(count) */
  function CountServer(): Bob { WhileWord("get counts", Send(Int, Stop), Stop) }

  /** for i in range(2): rcvc(); send_i(count) */
  function CountTwice(): Bob { Rounds(2, Recv(Str, Send(Int, Stop)), Stop) }

  /** The code of one command in Bob's dispatcher; None for a word it reports as unknown. */
  function Handler(command: string): Option<Bob> {
    if command == "init" then Some(Recv(Str, Ack()))
    else if command == "clean" then Some(Stop)
    else if command == "save" then Some(Recv(Str, Stop))
    else if command == "load" then Some(Recv(Str, Ack()))
    else if command == "sync_gc" then Some(Recv(Str, Stop))
    else if command == "compare_gc" then Some(Send(Dbl, Stop))
    else if command == "config_laser" then Some(Stop)
    else if command == "free_running" then Some(Ack())
    else if command == "vca_per" then Some(CountServer())
    else if command == "qdistance" then Some(CountServer())
    else if command == "adjust_am" then Some(CountServer())
    else if command == "adjust_am_qber" then Some(UntilWord("done", Stop))
    else if command == "adjust_angles_a_qber" then Some(UntilWord("done", Stop))
    else if command == "adjust_angles_b_qber" then Some(AngleLoop(Stop))
    else if command == "find_vca" then Some(CountServer())
    else if command == "find_am_bias" then Some(CountServer())
    else if command == "find_am2_bias" then Some(CountServer())
    else if command == "verify_am_bias" then Some(CountTwice())
    else if command == "verify_am2_bias" then Some(CountTwice())
    else if command == "pol_bob" then Some(Ack())
    else if command == "ad" then Some(Ack())
    else if command == "check_gate_edge" then Some(Ack())
    else if command == "set_gate_delay" then Some(Recv(Int, Ack()))
    else if command == "find_sp" then Some(Send(Int, Send(Int, Stop)))
    else if command == "verify_gates" then Some(Send(Str, Send(Blob, Ack())))
    else if command == "fs_b" then Some(Send(Int, Stop))
    else if command == "fs_a" then Some(Rounds(10, Recv(Str, Ack()), Send(Int, Send(Dbl, Stop))))
    else if command == "fd_b" then Some(Ack())
    else if command == "fd_b_long" then Some(Ack())
    else if command == "fd_a" then Some(Send(Int, Stop))
    else if command == "fd_a_long" then Some(Recv(Int, Send(Int, Stop)))
    else if command == "fz_b" then Some(Ack())
    else if command == "fz_a" then Some(WhileWord("get ratio", Send(Dbl, Stop), Ack()))
    else if command == "adjust_soft_gates" then Some(Ack())
    else if command == "set_soft_gates" then Some(Ack())
    else if command == "adjust_angles_a" then Some(CountServer())
    else if command == "adjust_angles_b" then Some(Ack())
    else if command == "single_peak" then Some(Ack())
    else if command == "start" then Some(Ack())
    else None
  }

  /** Run against Bob's command loop, the command fits and brings him back to the loop. */
  predicate Fits(a: Alice) {
    After(Handler, a, Serve) == Some(Serve)
  }

  /** Run against Bob at b, the program fits and leaves him where he was. */
  predicate Keeps(a: Alice, b: Bob) {
    After(Handler, a, b) == Some(b)
  }

  lemma KeepsThen(p: Alice, q: Alice, b: Bob)
    requires Keeps(p, b) && Keeps(q, b)
    ensures Keeps(ThenA(p, q), b) && Keeps(Either(p, q), b) && Keeps(Loop(p), b)
  {
    AfterThen(Handler, p, q, b);
  }

  lemma {:induction false} KeepsAllOf(parts: seq<Alice>, b: Bob)
    requires forall p :: p in parts ==> Keeps(p, b)
    ensures Keeps(AllOf(parts), b)
  {
    if parts == [] {
    } else {
      KeepsAllOf(parts[1..], b);
      KeepsThen(parts[0], AllOf(parts[1..]), b);
    }
  }

  lemma {:induction false} KeepsTimes(n: nat, body: Alice, b: Bob)
    requires Keeps(body, b)
    ensures Keeps(Times(n, body), b)
  {
    if n == 0 {
    } else {
      KeepsTimes(n - 1, body, b);
      KeepsThen(body, Times(n - 1, body), b);
    }
  }

  // ---- what Bob's dispatcher makes of each word ----

  lemma SetupWords()
    ensures Handler("init") == Some(Recv(Str, Ack())) && Handler("clean") == Some(Stop)
    ensures Handler("save") == Some(Recv(Str, Stop)) && Handler("load") == Some(Recv(Str, Ack()))
    ensures Handler("sync_gc") == Some(Recv(Str, Stop)) && Handler("compare_gc") == Some(Send(Dbl, Stop))
  {
  }

  lemma CountWords()
    ensures Handler("vca_per") == Handler("qdistance") == Some(CountServer())
    ensures Handler("find_vca") == Handler("adjust_am") == Some(CountServer())
  {
  }

  lemma BiasWords()
    ensures Handler("find_am_bias") == Handler("find_am2_bias") == Some(CountServer())
  {
  }

  lemma VerifyBiasWords()
    ensures Handler("verify_am_bias") == Handler("verify_am2_bias") == Some(CountTwice())
  {
  }

  lemma QberWords()
    ensures Handler("adjust_am_qber") == Handler("adjust_angles_a_qber") == Some(UntilWord("done", Stop))
    ensures Handler("adjust_angles_b_qber") == Some(AngleLoop(Stop))
  {
  }

  lemma AngleWord()
    ensures Handler("adjust_angles_a") == Some(CountServer())
  {
  }

  lemma AngleAckWord()
    ensures Handler("adjust_angles_b") == Some(Ack())
  {
  }

  lemma GateWords()
    ensures Handler("check_gate_edge") == Some(Ack()) && Handler("set_gate_delay") == Some(Recv(Int, Ack()))
  {
  }

  lemma PeakWords()
    ensures Handler("find_sp") == Some(Send(Int, Send(Int, Stop)))
    ensures Handler("verify_gates") == Some(Send(Str, Send(Blob, Ack())))
  {
  }

  lemma DelayWords()
    ensures Handler("fs_b") == Some(Send(Int, Stop)) && Handler("fd_a") == Some(Send(Int, Stop))
  {
  }

  lemma LongDelayWord()
    ensures Handler("fd_a_long") == Some(Recv(Int, Send(Int, Stop)))
  {
  }

  lemma ShiftWord()
    ensures Handler("fs_a") == Some(Rounds(10, Recv(Str, Ack()), Send(Int, Send(Dbl, Stop))))
  {
  }

  lemma PhaseWord()
    ensures Handler("fz_a") == Some(WhileWord("get ratio", Send(Dbl, Stop), Ack()))
  {
  }

  lemma EarlyAckWords()
    ensures Handler("free_running") == Handler("pol_bob") == Handler("ad") == Some(Ack())
  {
  }

  lemma DelayAckWords()
    ensures Handler("fd_b") == Handler("fd_b_long") == Some(Ack())
  {
  }

  lemma PhaseAckWord()
    ensures Handler("fz_b") == Some(Ack())
  {
  }

  lemma SoftGateWords()
    ensures Handler("adjust_soft_gates") == Handler("set_soft_gates") == Some(Ack())
  {
  }

  lemma LateAckWords()
    ensures Handler("single_peak") == Handler("start") == Some(Ack())
  {
  }

  lemma SetAnglesIsUnknown()
    ensures Handler("set_angles_a").None?
  {
  }

  // ---- commands that ask for counts ----

  /** Bob in his count loop, on the way back to his command loop. */
  function CountLoop(): Bob {
    ThenB(CountServer(), Serve)
  }

  lemma CountsKeep()
    ensures Keeps(Counts(), CountLoop()) && Keeps(Loop(Counts()), CountLoop())
  {
    assert "get counts" == "get counts";
    KeepsThen(Counts(), Counts(), CountLoop());
  }

  lemma CountingFits(word: string, body: Alice)
    requires Handler(word) == Some(CountServer()) && Keeps(body, CountLoop())
    ensures Fits(Counting(word, body))
  {
    hide Handler;
    AfterThen(Handler, body, Just("done"), CountLoop());
    assert Deliver(Handler, Serve, Text(word)) == Some(CountLoop());
    assert "done" != "get counts";
    assert Deliver(Handler, CountLoop(), Text("done")) == Some(Serve);
    assert After(Handler, Just("done"), CountLoop()) == Some(Serve);
  }

  lemma CountCommandsFit()
    ensures forall a :: a in CountCommands() ==> Fits(a)
  {
    hide Handler, After, Counts, CountLoop, CountServer;
    CountWords();
    BiasWords();
    AngleWord();
    CountsKeep();
    var once, many, b := Counts(), Loop(Counts()), CountLoop();
    KeepsAllOf([once, many, once], b);
    CountingFits("vca_per", AllOf([once, many, once]));
    KeepsAllOf([many, many, many], b);
    CountingFits("qdistance", AllOf([many, many, many]));
    FindVcaFits();
    CountingFits("find_am_bias", many);
    CountingFits("find_am2_bias", many);
    KeepsTimes(7, once, b);
    CountingFits("adjust_am", Times(7, once));
    KeepsTimes(5, once, b);
    CountingFits("adjust_angles_a", Times(5, once));
  }

  lemma FindVcaFits()
    ensures Fits(FindVca())
  {
    hide Handler;
    CountWords();
    CountsKeep();
    var once, many, b := Counts(), Loop(Counts()), CountLoop();
    KeepsTimes(3, once, b);
    assert Keeps(Either(many, Either(many, End)), b);
    KeepsAllOf([Times(3, once), Times(3, once), once, Either(many, Either(many, End))], b);
    CountingFits("find_vca", AllOf([Times(3, once), Times(3, once), once, Either(many, Either(many, End))]));
  }

  // ---- the bias searches ----

  lemma VerifyBiasFits(word: string)
    requires Handler(word) == Some(CountTwice())
    ensures Fits(VerifyBias(word))
  {
    hide Handler;
    assert After(Handler, Counts(), ThenB(CountTwice(), Serve)) == Some(Recv(Str, Send(Int, Serve)));
    AfterThen(Handler, Counts(), Counts(), ThenB(CountTwice(), Serve));
  }

  /** The composite search fits because each command it is made of does. */
  lemma LoopFindBiasFits(find: string, verify: string)
    requires Handler(find) == Some(CountServer()) && Handler(verify) == Some(CountTwice())
    ensures Fits(LoopFindBias(find, verify))
  {
    hide Handler;
    CountsKeep();
    CountingFits(find, Loop(Counts()));
    KeepsTimes(3, Counts(), CountLoop());
    CountingFits(find, Times(3, Counts()));
    VerifyBiasFits(verify);
    var again := ThenA(FindBias(find), VerifyBias(verify));
    KeepsThen(FindBias(find), VerifyBias(verify), Serve);
    KeepsThen(again, End, Serve);
    var retry := [FindBias(find), again, Either(again, End)];
    KeepsAllOf(retry, Serve);
    KeepsThen(AllOf(retry), End, Serve);
    KeepsAllOf([ProbeBias(find), again, Either(again, End), Either(AllOf(retry), End)], Serve);
  }

  lemma BiasCommandsFit()
    ensures forall a :: a in BiasCommands() ==> Fits(a)
  {
    hide Handler, LoopFindBias;
    BiasWords();
    VerifyBiasWords();
    VerifyBiasFits("verify_am_bias");
    VerifyBiasFits("verify_am2_bias");
    LoopFindBiasFits("find_am_bias", "verify_am_bias");
    LoopFindBiasFits("find_am2_bias", "verify_am2_bias");
  }

  // ---- commands that Bob acknowledges ----

  lemma AckFits(word: string)
    requires Handler(word) == Some(Ack())
    ensures Fits(Simple(word))
  {
    hide Handler;
    assert ThenB(Ack(), Serve) == Send(Str, Serve);
    assert After(Handler, Get(Str, End), Send(Str, Serve)) == Some(Serve);
  }

  lemma AckCommandsFit()
    ensures forall a :: a in AckCommands(AckWords()) ==> Fits(a)
  {
    hide Handler;
    EarlyAckWords();
    DelayAckWords();
    PhaseAckWord();
    AngleAckWord();
    SoftGateWords();
    LateAckWords();
    forall word | word in AckWords() ensures Fits(Simple(word)) {
      AckFits(word);
    }
  }

  // ---- the rest ----

  lemma SetupCommandsFit()
    ensures forall a :: a in SetupCommands() ==> Fits(a)
  {
    hide Handler;
    SetupWords();
    assert Fits(Init()) && Fits(Clean()) && Fits(Save());
    assert Fits(Load()) && Fits(SyncGc()) && Fits(CompareGc());
  }

  lemma GateStepsFit()
    ensures Fits(Simple("ad")) && Fits(FindSp()) && Fits(VerifyGates())
  {
    hide Handler;
    EarlyAckWords();
    PeakWords();
    AckFits("ad");
  }

  lemma CheckGateEdgeFits()
    ensures Fits(CheckGateEdge())
  {
    hide Handler;
    GateWords();
  }

  lemma LoopFindGatesFits()
    ensures Fits(LoopFindGates())
  {
    hide Handler;
    GateStepsFit();
    KeepsAllOf([Simple("ad"), FindSp(), Simple("ad"), VerifyGates()], Serve);
    KeepsThen(FindGatesOnce(), End, Serve);
    KeepsThen(FindGatesOnce(), Either(End, FindGatesOnce()), Serve);
  }

  lemma GateCommandsFit(a: Alice)
    requires a in GateCommands()
    ensures Fits(a)
  {
    GateStepsFit();
    CheckGateEdgeFits();
    LoopFindGatesFits();
  }

  /** Both sides of `fs_a` agree on the number of rounds, whatever it is. */
  lemma {:induction false} RoundsMatch(n: nat, k: Alice, b: Bob)
    ensures After(Handler, ThenA(Times(n, Say("download data", Get(Str, End))), k),
                  ThenB(Rounds(n, Recv(Str, Ack()), b), Serve)) == After(Handler, k, ThenB(b, Serve))
  {
    hide Handler;
    if n == 0 {
    } else {
      RoundsMatch(n - 1, k, b);
      var round, more := Say("download data", Get(Str, End)), Times(n - 1, Say("download data", Get(Str, End)));
      assert ThenA(Get(Str, End), more) == Get(Str, more);
      assert Times(n, round) == Say("download data", Get(Str, more));
      assert ThenA(Times(n, round), k) == Say("download data", Get(Str, ThenA(more, k)));
      var later := Rounds(n - 1, Recv(Str, Ack()), b);
      assert ThenB(Ack(), later) == Send(Str, later);
      assert Rounds(n, Recv(Str, Ack()), b) == Recv(Str, Send(Str, later));
      assert ThenB(Recv(Str, Send(Str, later)), Serve) == Recv(Str, Send(Str, ThenB(later, Serve)));
    }
  }

  lemma FsAFits()
    ensures Fits(FsA())
  {
    hide Handler, Rounds, Times;
    ShiftWord();
    DownloadsFit(10);
  }

  lemma DownloadsFit(n: nat)
    ensures After(Handler, ThenA(Times(n, Say("download data", Get(Str, End))), Get(Int, Get(Dbl, End))),
                  ThenB(Rounds(n, Recv(Str, Ack()), Send(Int, Send(Dbl, Stop))), Serve)) == Some(Serve)
  {
    hide Handler;
    var tail := Get(Int, Get(Dbl, End));
    RoundsMatch(n, tail, Send(Int, Send(Dbl, Stop)));
    assert ThenB(Send(Int, Send(Dbl, Stop)), Serve) == Send(Int, Send(Dbl, Serve));
  }

  lemma FzAFits()
    ensures Fits(FzA())
  {
    hide Handler;
    var b := WhileWord("get ratio", Send(Dbl, Stop), Send(Str, Serve));
    PhaseWord();
    assert Keeps(Ratio(), b);
    KeepsThen(Ratio(), Ratio(), b);
    KeepsAllOf([Ratio(), Either(End, Loop(Ratio()))], b);
    AfterThen(Handler, AllOf([Ratio(), Either(End, Loop(Ratio()))]), Say("ok", Get(Str, End)), b);
    assert "ok" != "get ratio";
  }

  lemma AdjustAnglesBQberFits()
    ensures Fits(AdjustAnglesBQber())
  {
    hide Handler;
    var b := AngleLoop(Serve);
    QberWords();
    var ask, last := Say("get_angle1", Get(Dbl, End)), Just("done");
    assert Keeps(ask, b) && Keeps(SetAngle(), b);
    KeepsThen(SetAngle(), SetAngle(), b);
    AfterThen(Handler, SetAngle(), last, b);
    AfterThen(Handler, Loop(SetAngle()), ThenA(SetAngle(), last), b);
    AfterThen(Handler, ask, ThenA(Loop(SetAngle()), ThenA(SetAngle(), last)), b);
  }

  lemma DelayCommandsFit()
    ensures Fits(FsB()) && Fits(FdA()) && Fits(FdALong())
  {
    hide Handler;
    DelayWords();
    LongDelayWord();
  }

  lemma QberOnlyFits()
    ensures Fits(QberOnly("adjust_am_qber")) && Fits(QberOnly("adjust_angles_a_qber"))
  {
    hide Handler;
    QberWords();
  }

  lemma SetAnglesAFits()
    ensures Fits(SetAnglesA())
  {
    hide Handler;
    SetAnglesIsUnknown();
  }

  lemma OtherCommandsFit()
    ensures forall a :: a in OtherCommands() ==> Fits(a)
  {
    SetAnglesAFits();
    DelayCommandsFit();
    QberOnlyFits();
    FsAFits();
    FzAFits();
    AdjustAnglesBQberFits();
    hide Fits, FsB, FsA, FdA, FdALong, FzA, QberOnly, AdjustAnglesBQber, SetAnglesA;
  }

  lemma EveryCommandFits()
    ensures forall a :: a in Commands() ==> Fits(a)
  {
    SetupCommandsFit();
    CountCommandsFit();
    BiasCommandsFit();
    AckCommandsFit();
    forall a | a in GateCommands() ensures Fits(a) {
      GateCommandsFit(a);
    }
    OtherCommandsFit();
  }

  // ---- main results ----

  /** After these steps of Alice's program against Bob in his command loop, no value is about to be
      read at another type, some side can move unless they are through, and they are through only with
      Bob back in his loop and both channels empty, which is still reachable. */
  ghost predicate Faithful(a: Alice, steps: seq<Step>) {
    Run(Next(Handler), Config(a, Serve, [], []), steps).Some? ==>
      var c := Run(Next(Handler), Config(a, Serve, [], []), steps).value;
      && !TypeError(Handler, c)
      && (Finished(c, Serve) || exists step :: Apply(Handler, c, step).Some?)
      && exists more :: Run(Next(Handler), c, more).Some? && Finished(Run(Next(Handler), c, more).value, Serve)
  }

  lemma FitIsFaithful(a: Alice, steps: seq<Step>)
    requires Fits(a)
    ensures Faithful(a, steps)
  {
    hide Handler;
    if Run(Next(Handler), Config(a, Serve, [], []), steps).Some? {
      CompatibleDialogue(Handler, a, Serve, Serve, steps);
    }
  }

  /** Every command is faithful, for every outcome of its measurements, any number of loop rounds and
      over every run. */
  lemma CommandFidelity(a: Alice, steps: seq<Step>)
    ensures a in Commands() ==> Faithful(a, steps)
  {
    hide Handler, Commands;
    EveryCommandFits();
    if a in Commands() {
      FitIsFaithful(a, steps);
    }
  }

  /** One command after another off a menu, chosen by the operator, until the session ends. */
  function Session(menu: seq<Alice>): Alice {
    Loop(AnyOf(menu))
  }

  function AnyOf(menu: seq<Alice>): Alice {
    if menu == [] then End else Either(menu[0], AnyOf(menu[1..]))
  }

  lemma {:induction false} AnyOfFits(menu: seq<Alice>)
    requires forall a :: a in menu ==> Fits(a)
    ensures Fits(AnyOf(menu))
  {
    if menu == [] {
    } else {
      assert menu[0] in menu;
      AnyOfFits(menu[1..]);
    }
  }

  /** The same for whole sessions over any menu of the commands: Alice may start the next command
      while Bob is still busy with the last one, and still nothing is misread and nothing deadlocks. */
  lemma SessionFidelity(menu: seq<Alice>, steps: seq<Step>)
    requires forall a :: a in menu ==> a in Commands()
    ensures Faithful(Session(menu), steps)
  {
    hide Handler, Commands;
    EveryCommandFits();
    AnyOfFits(menu);
    KeepsThen(AnyOf(menu), End, Serve);
    FitIsFaithful(Session(menu), steps);
  }

  // ---- a remark ----

  /** Were `set_angles_a` to go on after its announcement it would hang: when Alice waits for an answer
      to words that Bob does not know, he ignores them and both sides wait for ever. */
  lemma UnknownWordsAreNeverAnswered(word: string, request: string) returns (c: Config)
    requires Handler(word).None? && Handler(request).None?
    ensures var start := Config(Get(Int, End), Serve, [Text(word), Text(request)], []);
            Run(Next(Handler), start, [BobReceives, BobReceives]) == Some(c)
    ensures c.a.Get? && forall step :: Apply(Handler, c, step).None?
  {
    hide Handler;
    var waiting := Config(Get(Int, End), Serve, [Text(request)], []);
    c := Config(Get(Int, End), Serve, [], []);
    assert [Text(word), Text(request)][1..] == [Text(request)] && [Text(request)][1..] == [];
    assert Run(Next(Handler), c, []) == Some(c);
    assert [BobReceives, BobReceives][1..] == [BobReceives] && [BobReceives][1..] == [];
    assert Run(Next(Handler), waiting, [BobReceives]) == Some(c);
  }
}
