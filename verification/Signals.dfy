/** Requests by signal, mode 2: the parent sends SIGUSR1 and waits for the child's SIGUSR1 before it sends the
    next. A signal that is sent while it is pending already is merged with that. One step is one system call, one
    delivery with its handler up to the next system call, or one test of the flag. */
module Signals {

  datatype ParentPc =
    | MBlock    // loop test; sigprocmask(SIG_BLOCK)
    | MKill     // kill(pid, SIGUSR1)
    | MCheck    // while (!usr1_received)
    | MEnter    // between the test and sigsuspend
    | MSuspend  // in sigsuspend, where SIGUSR1 is not blocked
    | MClear    // usr1_received = 0
    | MUnblock  // sigprocmask(SIG_SETMASK)
    | MFinal    // kill(pid, SIGUSR2)
    | MExit

  datatype ChildPc = CPause | CReply | CExit

  datatype State = State(
    parent: ParentPc,
    i: nat,
    sent: nat,
    received: nat,
    usr1Received: bool,
    parentPending: bool,
    child: ChildPc,
    receivedCount: nat,
    childPending: bool,
    childPending2: bool)

  predicate Init(s: State) {
    && s.parent == MBlock && s.i == 0 && s.sent == 0 && s.received == 0 && !s.usr1Received && !s.parentPending
    && s.child == CPause && s.receivedCount == 0 && !s.childPending && !s.childPending2
  }

  datatype Actor =
    | TheParent       // its next step outside the handler
    | ParentHandler   // SIGUSR1 delivered to the parent
    | ChildHandler    // SIGUSR1 delivered to the child, up to the reply
    | ChildReplies    // kill(getppid(), SIGUSR1) in the handler
    | ChildHandler2   // SIGUSR2 delivered to the child, also within the handler of SIGUSR1

  /** SIGUSR1 is blocked from MBlock on, except inside sigsuspend. */
  predicate Blocked(pc: ParentPc) {
    pc.MKill? || pc.MCheck? || pc.MEnter? || pc.MClear? || pc.MUnblock?
  }

  predicate Enabled(s: State, a: Actor) {
    match a
    case TheParent => !s.parent.MSuspend? && !s.parent.MExit?
    case ParentHandler => s.parentPending && !Blocked(s.parent) && !s.parent.MExit?
    case ChildHandler => s.childPending && s.child.CPause?
    case ChildReplies => s.child.CReply?
    case ChildHandler2 => s.childPending2 && !s.child.CExit?
  }

  function ParentStep(s: State, count: nat): State {
    match s.parent
    case MBlock => s.(parent := if s.i < count then MKill else MFinal)
    case MKill => s.(parent := MCheck, sent := s.sent + 1, childPending := true)
    case MCheck => s.(parent := if s.usr1Received then MClear else MEnter)
    case MEnter => s.(parent := MSuspend)
    case MClear => s.(parent := MUnblock, usr1Received := false)
    case MUnblock => s.(parent := MBlock, i := s.i + 1)
    case MFinal => s.(parent := MExit, sent := s.sent + 1, childPending2 := true)
    case _ => s
  }

  function Step(s: State, a: Actor, count: nat): State
    requires Enabled(s, a)
  {
    match a
    case TheParent => ParentStep(s, count)
    case ParentHandler =>
      s.(parentPending := false, received := s.received + 1, usr1Received := true,
         parent := if s.parent.MSuspend? then MCheck else s.parent)
    case ChildHandler => s.(childPending := false, receivedCount := s.receivedCount + 1, child := CReply)
    case ChildReplies => s.(child := CPause, parentPending := true)
    case ChildHandler2 => s.(childPending2 := false, receivedCount := s.receivedCount + 1, child := CExit)
  }

  ghost predicate Run(states: seq<State>, actors: seq<Actor>, count: nat) {
    && |states| == |actors| + 1 && Init(states[0])
    && forall n :: 0 <= n < |actors| ==>
         Enabled(states[n], actors[n]) && states[n + 1] == Step(states[n], actors[n], count)
  }

  ghost predicate Stuck(s: State) {
    forall a :: !Enabled(s, a)
  }

  // ----- the invariant -----

  predicate Waiting(pc: ParentPc) {
    pc.MCheck? || pc.MEnter? || pc.MSuspend?
  }

  /** Requests under way: pending at the child, in its handler, pending at the parent, or noticed there. */
  function Underway(s: State): nat {
    (if s.childPending then 1 else 0) + (if s.child.CReply? then 1 else 0)
    + (if s.parentPending then 1 else 0) + (if s.usr1Received then 1 else 0)
  }

  /** Iterations of the parent's loop that have sent their signal. */
  function Requests(s: State): nat {
    s.i + if Waiting(s.parent) || s.parent.MClear? || s.parent.MUnblock? then 1 else 0
  }

  predicate Final(s: State, count: nat) {
    && (s.parent.MFinal? || s.parent.MExit? ==> s.i == count)
    && (!s.parent.MFinal? && !s.parent.MExit? && !s.parent.MBlock? ==> s.i < count)
    && (!s.parent.MExit? ==> !s.childPending2 && !s.child.CExit?)
    && (s.parent.MExit? ==> s.childPending2 == !s.child.CExit?)
  }

  /** One request is under way exactly while the parent waits. */
  predicate StopAndWait(s: State) {
    && Underway(s) == (if Waiting(s.parent) || s.parent.MClear? then 1 else 0)
    && (s.parent.MClear? ==> s.usr1Received) && (s.parent.MEnter? || s.parent.MSuspend? ==> !s.usr1Received)
  }

  predicate Counted(s: State) {
    && s.sent == Requests(s) + (if s.parent.MExit? then 1 else 0)
    && s.receivedCount == Requests(s) - (if s.childPending then 1 else 0) + (if s.child.CExit? then 1 else 0)
    && s.received == Requests(s) - Underway(s) + (if s.usr1Received then 1 else 0)
  }

  predicate Inv(s: State, count: nat) {
    s.i <= count && Final(s, count) && StopAndWait(s) && Counted(s)
  }

  lemma InitInv(s: State, count: nat)
    requires Init(s)
    ensures Inv(s, count)
  {
  }

  lemma StepKeepsInv(s: State, a: Actor, t: State, count: nat)
    requires Inv(s, count) && Enabled(s, a) && t == Step(s, a, count)
    ensures Inv(t, count)
  {
  }

  /** What is left to do; every step takes from it. */
  function Work(s: State, count: nat): int {
    var left := 30 * (count - s.i);
    (if s.childPending then 12 else 0) + (if s.child.CReply? then 8 else 0) + (if s.parentPending then 4 else 0)
    + (if s.childPending2 then 3 else 0) +
    match s.parent
    case MBlock => left + 8
    case MKill => left + 7
    case MCheck => left - 30 + 13
    case MEnter => left - 30 + 12
    case MSuspend => left - 30 + 11
    case MClear => left - 30 + 10
    case MUnblock => left - 30 + 9
    case MFinal => 5
    case MExit => 0
  }

  lemma StepDoesWork(s: State, a: Actor, count: nat)
    requires Inv(s, count) && Enabled(s, a)
    ensures 0 <= Work(Step(s, a, count), count) < Work(s, count)
  {
    StepKeepsInv(s, a, Step(s, a, count), count);
  }

  /** Somebody can take a step unless both are done: no wake-up is missed in sigsuspend. */
  lemma NeverStuckEarly(s: State, count: nat)
    requires Inv(s, count) && !(s.parent.MExit? && s.child.CExit?)
    ensures exists a :: Enabled(s, a)
  {
    if Enabled(s, TheParent) {
    } else if s.parent.MSuspend? {
      assert Enabled(s, ChildHandler) || Enabled(s, ChildReplies) || Enabled(s, ParentHandler);
    } else {
      assert Enabled(s, ChildHandler2);
    }
  }

  // ----- whole runs -----

  lemma RunStep(states: seq<State>, actors: seq<Actor>, count: nat, n: nat)
    requires Run(states, actors, count) && n < |actors|
    ensures Enabled(states[n], actors[n]) && states[n + 1] == Step(states[n], actors[n], count)
  {
  }

  lemma {:induction false} RunKeepsInv(states: seq<State>, actors: seq<Actor>, count: nat, n: nat)
    requires Run(states, actors, count) && n < |states|
    ensures Inv(states[n], count)
  {
    if n == 0 {
      InitInv(states[n], count);
    } else {
      RunKeepsInv(states, actors, count, n - 1);
      RunStep(states, actors, count, n - 1);
      StepKeepsInv(states[n - 1], actors[n - 1], states[n], count);
    }
  }

  lemma {:induction false} RunIsShort(states: seq<State>, actors: seq<Actor>, count: nat, n: nat)
    requires Run(states, actors, count) && n < |states|
    ensures 0 <= Work(states[n], count) <= 30 * count + 8 - n
  {
    if n > 0 {
      RunIsShort(states, actors, count, n - 1);
      RunKeepsInv(states, actors, count, n - 1);
      RunStep(states, actors, count, n - 1);
      StepDoesWork(states[n - 1], actors[n - 1], count);
    }
  }

  /** In every state of every run no signal has been merged with another, because none is sent while one is pending;
      no more than one is under way, and the parent's count and the child's agree with the signals sent up to that
      one. */
  lemma NothingIsMerged(states: seq<State>, actors: seq<Actor>, count: nat, n: nat)
    requires Run(states, actors, count) && n < |states|
    ensures !(states[n].childPending && states[n].parentPending)
    ensures states[n].parent.MKill? ==> !states[n].childPending
    ensures states[n].child.CReply? ==> !states[n].parentPending
    ensures Underway(states[n]) <= 1
    ensures !states[n].parent.MExit? ==>
              states[n].sent - 1 <= states[n].received <= states[n].receivedCount <= states[n].sent <= count
    ensures states[n].parent.MFinal? ==>
              states[n].sent == states[n].received == states[n].receivedCount == count
  {
    RunKeepsInv(states, actors, count, n);
  }

  /** The parent's handler runs inside sigsuspend and nowhere else, so no reply can slip in between the test of the flag
      and the wait for it. */
  lemma HandlerRunsInSuspend(states: seq<State>, actors: seq<Actor>, count: nat, n: nat)
    requires Run(states, actors, count) && n < |actors| && actors[n] == ParentHandler
    ensures states[n].parent.MSuspend? && states[n + 1].parent.MCheck? && states[n + 1].usr1Received
  {
    RunKeepsInv(states, actors, count, n);
    RunStep(states, actors, count, n);
  }

  /** Every run is finite, and ends with both processes done: the child has received every signal and the parent
      one reply for each request. */
  lemma EveryRequestIsAnswered(states: seq<State>, actors: seq<Actor>, count: nat)
    requires Run(states, actors, count)
    ensures |actors| <= 30 * count + 8
    ensures var last := states[|actors|];
      Stuck(last) ==>
        && last.parent.MExit? && last.child.CExit?
        && last.sent == last.receivedCount == count + 1 && last.received == count
  {
    RunKeepsInv(states, actors, count, |actors|);
    RunIsShort(states, actors, count, |actors|);
    var last := states[|actors|];
    if !(last.parent.MExit? && last.child.CExit?) {
      NeverStuckEarly(last, count);
    }
  }
}
