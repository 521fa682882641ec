/** The two-party calibration dialogue: what either side may send and receive, as programs over typed
    messages on two fifo channels, and a compatibility check that guarantees the dialogue never goes
    wrong (the helpers of remote/hws_alice.py and remote/hws_bob.py). */
module Dialogue {
  import opened Bytes
  import opened Maybe
  import opened Runs

  /** The four wire types: length-prefixed strings, 4-byte ints, 8-byte doubles, length-prefixed blobs. */
  datatype Type = Str | Int | Dbl | Blob

  datatype Message = Text(s: string) | Integer(i: int) | Double(bits: u64) | Data(b: seq<byte>) {
    function Typed(): Type {
      match this
      case Text(_) => Str
      case Integer(_) => Int
      case Double(_) => Dbl
      case Data(_) => Blob
    }
  }

  /** Alice's side. She drives: only her words decide which way the dialogue goes. */
  datatype Alice =
    | End
    | Say(word: string, k: Alice)        // send this very string
    | Put(t: Type, k: Alice)             // send some value of the type
    | Get(t: Type, k: Alice)             // receive a value of the type
    | Either(left: Alice, right: Alice)  // a choice that depends on her data
    | Many(body: Alice, k: Alice)        // a loop whose length depends on her data

  /** Bob's side. */
  datatype Bob =
    | Stop                               // the end of a command's code
    | Serve                              // his command loop
    | Send(t: Type, k: Bob)
    | Recv(t: Type, k: Bob)              // receive a value and not look at it
    | WhileWord(word: string, body: Bob, k: Bob)  // while rcvc() == word: body
    | UntilWord(word: string, k: Bob)    // while rcvc() != word: pass
    | AngleLoop(k: Bob)                  // the get_angle1 / set_angle1 / done loop

  function ThenA(p: Alice, q: Alice): Alice {
    match p
    case End => q
    case Say(w, k) => Say(w, ThenA(k, q))
    case Put(t, k) => Put(t, ThenA(k, q))
    case Get(t, k) => Get(t, ThenA(k, q))
    case Either(l, r) => Either(ThenA(l, q), ThenA(r, q))
    case Many(b, k) => Many(b, ThenA(k, q))
  }

  function ThenB(p: Bob, q: Bob): Bob {
    match p
    case Stop => q
    case Serve => Serve
    case Send(t, k) => Send(t, ThenB(k, q))
    case Recv(t, k) => Recv(t, ThenB(k, q))
    case WhileWord(w, b, k) => WhileWord(w, b, ThenB(k, q))
    case UntilWord(w, k) => UntilWord(w, ThenB(k, q))
    case AngleLoop(k) => AngleLoop(ThenB(k, q))
  }

  /** Bob's dispatch: the code of a command word, or None for a word he does not know. */
  type Dispatch = string -> Option<Bob>

  /** Bob takes a message. None: he is not at a receive, or he reads a value at another type. */
  function Deliver(d: Dispatch, b: Bob, m: Message): Option<Bob> {
    match b
    case Recv(t, k) => if m.Typed() == t then Some(k) else None
    case WhileWord(w, body, k) => if !m.Text? then None else Some(if m.s == w then ThenB(body, b) else k)
    case UntilWord(w, k) => if !m.Text? then None else Some(if m.s == w then k else b)
    case AngleLoop(k) =>
      if !m.Text? then None
      else if m.s == "get_angle1" then Some(Send(Dbl, b))
      else if m.s == "set_angle1" then Some(Recv(Dbl, b))
      else Some(if m.s == "done" then k else b)
    case Serve =>
      if !m.Text? then None
      else (match d(m.s) case None => Some(Serve) case Some(code) => Some(ThenB(code, Serve)))
    case _ => None
  }

  predicate Receiving(b: Bob) {
    b.Recv? || b.WhileWord? || b.UntilWord? || b.AngleLoop? || b.Serve?
  }

  /** The compatibility check: where Bob stands after Alice has run all of `a` against him, each
      message being taken at once. None: somewhere the two sides do not fit. */
  function After(d: Dispatch, a: Alice, b: Bob): Option<Bob> {
    match a
    case End => Some(b)
    case Say(w, k) => (match Deliver(d, b, Text(w)) case None => None case Some(c) => After(d, k, c))
    case Put(t, k) => if b.Recv? && b.t == t then After(d, k, b.k) else None
    case Get(t, k) => if b.Send? && b.t == t then After(d, k, b.k) else None
    case Either(l, r) => if After(d, l, b) == After(d, r, b) then After(d, l, b) else None
    case Many(body, k) => if After(d, body, b) == Some(b) then After(d, k, b) else None
  }

  lemma {:induction false} AfterThen(d: Dispatch, p: Alice, q: Alice, b: Bob)
    requires After(d, p, b).Some?
    ensures After(d, ThenA(p, q), b) == After(d, q, After(d, p, b).value)
  {
    match p
    case End =>
    case Say(w, k) => AfterThen(d, k, q, Deliver(d, b, Text(w)).value);
    case Put(t, k) => AfterThen(d, k, q, b.k);
    case Get(t, k) => AfterThen(d, k, q, b.k);
    case Either(l, r) => AfterThen(d, l, q, b); AfterThen(d, r, q, b);
    case Many(body, k) => AfterThen(d, k, q, b);
  }

  // ---- the two sides running on their own, with messages queued in between ----

  datatype Config = Config(a: Alice, b: Bob, toBob: seq<Message>, toAlice: seq<Message>)

  datatype Step =
    | ChooseLeft | ChooseRight | Iterate | Leave
    | AliceSends(m: Message) | AliceReceives
    | BobSends(m: Message) | BobReceives

  function Apply(d: Dispatch, c: Config, step: Step): Option<Config> {
    match step
    case ChooseLeft => if c.a.Either? then Some(c.(a := c.a.left)) else None
    case ChooseRight => if c.a.Either? then Some(c.(a := c.a.right)) else None
    case Iterate => if c.a.Many? then Some(c.(a := ThenA(c.a.body, c.a))) else None
    case Leave => if c.a.Many? then Some(c.(a := c.a.k)) else None
    case AliceSends(m) =>
      if (c.a.Say? && m == Text(c.a.word)) || (c.a.Put? && m.Typed() == c.a.t)
      then Some(c.(a := c.a.k, toBob := c.toBob + [m])) else None
    case AliceReceives =>
      if c.a.Get? && c.toAlice != [] && c.toAlice[0].Typed() == c.a.t
      then Some(c.(a := c.a.k, toAlice := c.toAlice[1..])) else None
    case BobSends(m) =>
      if c.b.Send? && m.Typed() == c.b.t then Some(c.(b := c.b.k, toAlice := c.toAlice + [m])) else None
    case BobReceives =>
      if c.toBob != [] && Deliver(d, c.b, c.toBob[0]).Some?
      then Some(c.(b := Deliver(d, c.b, c.toBob[0]).value, toBob := c.toBob[1..])) else None
  }

  /** The two sides as a transition system. */
  function Next(d: Dispatch): (Config, Step) -> Option<Config> {
    (c: Config, step: Step) => Apply(d, c, step)
  }

  /** A side is about to read the next value on its channel at a type other than it was sent. */
  predicate TypeError(d: Dispatch, c: Config) {
    || (c.a.Get? && c.toAlice != [] && c.toAlice[0].Typed() != c.a.t)
    || (Receiving(c.b) && c.toBob != [] && Deliver(d, c.b, c.toBob[0]).None?)
  }

  /** Alice is through, Bob is where `final` says, and nothing is left on either channel. */
  predicate Finished(c: Config, final: Bob) {
    c.a == End && c.b == final && c.toBob == [] && c.toAlice == []
  }

  // ---- the invariant ----

  /** Bob after taking everything queued for him. */
  function Feed(d: Dispatch, b: Bob, queue: seq<Message>): Option<Bob>
    decreases |queue|
  {
    if queue == [] then Some(b)
    else match Deliver(d, b, queue[0]) case None => None case Some(c) => Feed(d, c, queue[1..])
  }

  /** Bob before he sent what is queued for Alice. */
  function Unsend(b: Bob, queue: seq<Message>): Bob
    decreases |queue|
  {
    if queue == [] then b else Send(queue[0].Typed(), Unsend(b, queue[1..]))
  }

  /** Alice is ahead, and what she has queued fits. */
  ghost predicate AliceAhead(d: Dispatch, c: Config, final: Bob) {
    var fed := Feed(d, c.b, c.toBob);
    c.toAlice == [] && fed.Some? && After(d, c.a, fed.value) == Some(final)
  }

  /** Bob is ahead, and what he has queued fits. */
  ghost predicate BobAhead(d: Dispatch, c: Config, final: Bob) {
    c.toBob == [] && After(d, c.a, Unsend(c.b, c.toAlice)) == Some(final)
  }

  ghost predicate Inv(d: Dispatch, c: Config, final: Bob) {
    AliceAhead(d, c, final) || BobAhead(d, c, final)
  }

  lemma {:induction false} FeedSnoc(d: Dispatch, b: Bob, queue: seq<Message>, m: Message)
    requires Feed(d, b, queue).Some?
    ensures Feed(d, b, queue + [m]) == Deliver(d, Feed(d, b, queue).value, m)
    decreases |queue|
  {
    if queue == [] {
      assert queue + [m] == [m] && [m][1..] == [];
    } else {
      assert (queue + [m])[1..] == queue[1..] + [m];
      FeedSnoc(d, Deliver(d, b, queue[0]).value, queue[1..], m);
    }
  }

  lemma {:induction false} UnsendSnoc(b: Bob, queue: seq<Message>, m: Message)
    ensures Unsend(b, queue + [m]) == Unsend(Send(m.Typed(), b), queue)
    decreases |queue|
  {
    if queue == [] {
      assert queue + [m] == [m] && [m][1..] == [];
    } else {
      assert (queue + [m])[1..] == queue[1..] + [m];
      UnsendSnoc(b, queue[1..], m);
    }
  }

  lemma ChoiceKeepsAfter(d: Dispatch, a: Alice, b: Bob)
    requires After(d, a, b).Some?
    ensures a.Either? ==> After(d, a.left, b) == After(d, a, b) == After(d, a.right, b)
    ensures a.Many? ==> After(d, ThenA(a.body, a), b) == After(d, a, b) == After(d, a.k, b)
  {
    if a.Many? {
      AfterThen(d, a.body, a, b);
    }
  }

  lemma StepKeepsInv(d: Dispatch, c: Config, step: Step, final: Bob)
    requires Inv(d, c, final) && Apply(d, c, step).Some?
    ensures Inv(d, Apply(d, c, step).value, final)
  {
    var e := Apply(d, c, step).value;
    if AliceAhead(d, c, final) {
      var fed := Feed(d, c.b, c.toBob).value;
      ChoiceKeepsAfter(d, c.a, fed);
      match step
      case AliceSends(m) => FeedSnoc(d, c.b, c.toBob, m);
      case BobSends(m) => UnsendSnoc(c.b.k, [], m);
      case _ =>
    } else {
      ChoiceKeepsAfter(d, c.a, Unsend(c.b, c.toAlice));
      match step
      case BobSends(m) => UnsendSnoc(c.b.k, c.toAlice, m);
      case _ =>
    }
  }

  lemma NextKeepsInv(d: Dispatch, final: Bob)
    ensures Preserves(Next(d), c => Inv(d, c, final))
  {
    hide Inv, Apply;
    forall c, step | Inv(d, c, final) && Apply(d, c, step).Some? ensures Inv(d, Apply(d, c, step).value, final) {
      StepKeepsInv(d, c, step, final);
    }
  }

  // ---- what compatibility buys ----

  lemma NoTypeError(d: Dispatch, c: Config, final: Bob)
    requires Inv(d, c, final)
    ensures !TypeError(d, c)
  {
  }

  /** The step brings the end of Alice's program nearer, or a message she waits for. */
  predicate Progress(c: Config, e: Config) {
    || Size(e.a) < Size(c.a)
    || (e.a == c.a && |e.toBob| < |c.toBob|)
    || (e.a == c.a && e.toBob == c.toBob && c.toAlice == [] && e.toAlice != [])
  }

  function Size(a: Alice): nat {
    match a
    case End => 0
    case Say(_, k) => 1 + Size(k)
    case Put(_, k) => 1 + Size(k)
    case Get(_, k) => 1 + Size(k)
    case Either(l, r) => 1 + Size(l) + Size(r)
    case Many(b, k) => 1 + Size(k)
  }

  /** Some side can always move, unless the dialogue is over with both channels empty. */
  lemma NeverStuck(d: Dispatch, c: Config, final: Bob) returns (step: Step)
    requires Inv(d, c, final) && !final.Send? && !Finished(c, final)
    ensures Apply(d, c, step).Some? && Progress(c, Apply(d, c, step).value)
    ensures step.AliceSends? ==> step.m == if c.a.Say? then Text(c.a.word) else Sample(c.a.t)
    ensures step.BobSends? ==> step.m == Sample(c.b.t)
  {
    match c.a
    case End =>
      step := BobReceives;
    case Say(w, k) => step := AliceSends(Text(w));
    case Put(t, k) => step := AliceSends(Sample(t));
    case Either(l, r) => step := ChooseLeft;
    case Many(body, k) => step := Leave;
    case Get(t, k) =>
      if c.toAlice != [] {
        step := AliceReceives;
      } else if c.toBob != [] {
        step := BobReceives;
      } else {
        step := BobSends(Sample(t));
      }
  }

  function Sample(t: Type): (m: Message)
    ensures m.Typed() == t
  {
    match t
    case Str => Text("")
    case Int => Integer(0)
    case Dbl => Double(0)
    case Blob => Data([])
  }

  /** From every state of a compatible dialogue the end can be reached: nothing is ever doomed. */
  lemma {:induction false} CanFinish(d: Dispatch, c: Config, final: Bob) returns (steps: seq<Step>)
    requires Inv(d, c, final) && !final.Send?
    ensures Run(Next(d), c, steps).Some? && Finished(Run(Next(d), c, steps).value, final)
    decreases Size(c.a), |c.toBob|, if c.toAlice == [] then 1 else 0
  {
    if Finished(c, final) {
      steps := [];
    } else {
      var step := NeverStuck(d, c, final);
      StepKeepsInv(d, c, step, final);
      var rest := CanFinish(d, Apply(d, c, step).value, final);
      steps := [step] + rest;
      assert steps[1..] == rest;
    }
  }

  /** The soundness of the compatibility check, over every run of the two sides: no value is ever read
      at another type, the dialogue never deadlocks, and it is over only with Alice through, Bob at
      `final` and both channels empty, which stays reachable throughout. */
  lemma CompatibleDialogue(d: Dispatch, a: Alice, b: Bob, final: Bob, steps: seq<Step>)
    requires After(d, a, b) == Some(final) && !final.Send?
    requires Run(Next(d), Config(a, b, [], []), steps).Some?
    ensures var c := Run(Next(d), Config(a, b, [], []), steps).value;
            && !TypeError(d, c)
            && (Finished(c, final) || exists step :: Apply(d, c, step).Some?)
            && exists more :: Run(Next(d), c, more).Some? && Finished(Run(Next(d), c, more).value, final)
  {
    var start := Config(a, b, [], []);
    assert AliceAhead(d, start, final);
    NextKeepsInv(d, final);
    RunKeeps(Next(d), c => Inv(d, c, final), start, steps);
    var c := Run(Next(d), start, steps).value;
    NoTypeError(d, c, final);
    if !Finished(c, final) {
      var step := NeverStuck(d, c, final);
    }
    var more := CanFinish(d, c, final);
  }
}
