/** The listener and the pinger of the datagram build, interleaved, as a state machine. One step is one
    message received, one operation under the lock, one slot of a ping round, or one pong written. */
module RegistryRuns {
  import opened Registry

  datatype Message =
    | Register(name: string, sock: int, from: Address)
    | Unregister(from: Address)
    | Pong(from: Address)
    | Other(from: Address)  // a response or a message of an unknown type

  datatype ListenerPc =
    | LIdle                          // epoll_wait and receive_sm
    | LLookup(message: Message)      // client_for_addr
    | LCheck(message: Message)       // is_name_taken
    | LInsert(message: Message)      // the locked part of register_client
    | LUnregister(id: int)           // unregister_client
    | LPong(slot: nat, from: Address)  // handle_pong, which takes no lock

  // The pinger holds the lock while it goes through the slots.
  datatype PingerPc = PSleeps | PAt(i: nat)

  // What has happened to a slot. The log notes where a pong came from.
  datatype Event = Joined(i: nat) | Heard(i: nat, from: Address) | Left(i: nat) | Visited(i: nat)

  datatype State = State(table: Table, listener: ListenerPc, pinger: PingerPc, rounds: nat, log: seq<Event>)

  ghost predicate Init(s: State) {
    && (forall i :: 0 <= i < CLIENTS_MAX ==> !s.table[i].active)
    && s.listener == LIdle && s.pinger == PSleeps && s.rounds == 0 && s.log == []
  }

  datatype Actor = Deliver(message: Message) | TheListener | ThePinger

  /** The pinger does not hold the lock, or the listener's next step needs no lock. */
  ghost predicate Enabled(s: State, a: Actor) {
    match a
    case Deliver(_) => s.listener.LIdle?
    case TheListener => !s.listener.LIdle? && (s.pinger.PSleeps? || s.listener.LPong?)
    case ThePinger => true
  }

  ghost predicate WellFormed(s: State) {
    && (s.pinger.PAt? ==> s.pinger.i < CLIENTS_MAX)
    && (s.listener.LPong? ==> s.listener.slot < CLIENTS_MAX)
    && (s.listener.LUnregister? ==> s.listener.id < CLIENTS_MAX)
    && (s.listener.LCheck? ==> s.listener.message.Register?)
    && (s.listener.LInsert? ==> s.listener.message.Register?)
  }

  /** The dispatch of thread_listen on the type of a message. */
  ghost function Dispatch(m: Message, id: int): ListenerPc {
    match m
    case Register(_, _, _) => LCheck(m)
    case Unregister(_) => LUnregister(id)
    case Pong(from) => if id < 0 then LIdle else LPong(id, from)
    case Other(_) => LIdle
  }

  ghost function ListenerStep(s: State): State
    requires WellFormed(s) && Enabled(s, TheListener)
  {
    match s.listener
    case LLookup(m) =>
      s.(listener := Dispatch(m, Find(s.table, IsAt(m.from))))
    case LCheck(m) =>
      s.(listener := if Taken(s.table, m.name) then LIdle else LInsert(m))
    case LInsert(m) =>
      var id := Find(s.table, Free);
      s.(listener := LIdle, table := Insert(s.table, m.name, m.sock, m.from),
         log := if id < 0 then s.log else s.log + [Joined(id)])
    case LUnregister(id) =>
      s.(listener := LIdle, table := Remove(s.table, id), log := if id < 0 then s.log else s.log + [Left(id)])
    case LPong(id, from) =>
      s.(listener := LIdle, table := s.table[id := s.table[id].(inactivity := 0)], log := s.log + [Heard(id, from)])
  }

  ghost function PingerStep(s: State): State
    requires WellFormed(s)
  {
    match s.pinger
    case PSleeps => s.(pinger := PAt(0))
    case PAt(i) =>
      var last := i + 1 == CLIENTS_MAX;
      s.(table := s.table[i := Ping(s.table[i])], log := s.log + [Visited(i)],
         pinger := if last then PSleeps else PAt(i + 1), rounds := if last then s.rounds + 1 else s.rounds)
  }

  ghost function Step(s: State, a: Actor): State
    requires WellFormed(s) && Enabled(s, a)
  {
    match a
    case Deliver(m) => s.(listener := LLookup(m))
    case TheListener => ListenerStep(s)
    case ThePinger => PingerStep(s)
  }

  ghost predicate Run(states: seq<State>, actors: seq<Actor>) {
    && |states| == |actors| + 1 && Init(states[0])
    && forall n :: 0 <= n < |actors| ==>
         WellFormed(states[n]) && Enabled(states[n], actors[n]) && states[n + 1] == Step(states[n], actors[n])
  }

  // ----- the history of one slot -----

  function Visits(log: seq<Event>, i: nat): nat {
    if log == [] then 0 else Visits(log[..|log| - 1], i) + if log[|log| - 1] == Visited(i) then 1 else 0
  }

  /** The counter of slot i starts anew. */
  predicate StartsAnew(e: Event, i: nat) {
    e == Joined(i) || (e.Heard? && e.i == i)
  }

  /** The visits of the pinger since the slot was last taken or its client last heard of. */
  function Since(log: seq<Event>, i: nat): nat {
    if log == [] then 0
    else
      var front, last := log[..|log| - 1], log[|log| - 1];
      if StartsAnew(last, i) then 0
      else Since(front, i) + if last == Visited(i) then 1 else 0
  }

  lemma VisitsMore(log: seq<Event>, e: Event, i: nat)
    ensures Visits(log + [e], i) == Visits(log, i) + if e == Visited(i) then 1 else 0
  {
    assert (log + [e])[..|log|] == log;
  }

  lemma SinceMore(log: seq<Event>, e: Event, i: nat)
    ensures Since(log + [e], i) ==
      if StartsAnew(e, i) then 0 else Since(log, i) + if e == Visited(i) then 1 else 0
  {
    assert (log + [e])[..|log|] == log;
  }

  // ----- the invariant -----

  /** A name that has been checked is still free when it is inserted. */
  ghost predicate CheckHolds(s: State) {
    s.listener.LInsert? ==> s.listener.message.Register? && !Taken(s.table, s.listener.message.name)
  }

  /** The counter of an active client is the number of visits since it was last heard of. */
  ghost predicate Counters(s: State) {
    forall i: nat :: i < CLIENTS_MAX && s.table[i].active ==>
                  s.table[i].inactivity == Since(s.log, i) <= INACTIVITY_MAX + 1
  }

  /** Each round visits each slot once. */
  ghost predicate RoundsVisit(s: State) {
    forall i: nat :: i < CLIENTS_MAX ==>
                  Visits(s.log, i) == s.rounds + if s.pinger.PAt? && i < s.pinger.i then 1 else 0
  }

  ghost predicate Inv(s: State) {
    WellFormed(s) && NamesDiffer(s.table) && CheckHolds(s) && Counters(s) && RoundsVisit(s)
  }

  lemma TakenMeans(table: Table, name: string)
    ensures Taken(table, name) <==> exists i :: 0 <= i < CLIENTS_MAX && IsCalled(name)(table[i])
  {
    FindFromIsFirst(table, IsCalled(name), 0);
  }

  /** A step that makes nobody active and changes no name takes no name. */
  lemma NamesStayFree(table: Table, after: Table, name: string)
    requires forall i :: 0 <= i < CLIENTS_MAX && after[i].active ==> table[i].active && table[i].name == after[i].name
    ensures NamesDiffer(table) ==> NamesDiffer(after)
    ensures !Taken(table, name) ==> !Taken(after, name)
  {
    TakenMeans(table, name);
    TakenMeans(after, name);
    assert forall i :: 0 <= i < CLIENTS_MAX && IsCalled(name)(after[i]) ==> IsCalled(name)(table[i]);
  }

  lemma StepIsWellFormed(s: State, a: Actor)
    requires WellFormed(s) && Enabled(s, a)
    ensures WellFormed(Step(s, a))
  {
    if a.TheListener? && s.listener.LLookup? {
      FindFromIsFirst(s.table, IsAt(s.listener.message.from), 0);
    }
  }

  lemma StepKeepsNames(s: State, a: Actor)
    requires WellFormed(s) && Enabled(s, a) && NamesDiffer(s.table) && CheckHolds(s)
    ensures NamesDiffer(Step(s, a).table) && CheckHolds(Step(s, a))
  {
    var t := Step(s, a);
    if a.TheListener? && s.listener.LInsert? {
      InsertKeepsNames(s.table, s.listener.message.name, s.listener.message.sock, s.listener.message.from);
    } else if s.listener.LInsert? {
      NamesStayFree(s.table, t.table, s.listener.message.name);
    } else {
      NamesStayFree(s.table, t.table, "");
    }
  }

  lemma ListenerKeepsCounters(s: State)
    requires WellFormed(s) && Enabled(s, TheListener) && Counters(s)
    ensures Counters(ListenerStep(s))
  {
    var t := ListenerStep(s);
    FindFromIsFirst(s.table, Free, 0);
    if |t.log| > |s.log| {
      var e := t.log[|s.log|];
      forall i: nat ensures Since(t.log, i) == if StartsAnew(e, i) then 0 else Since(s.log, i) {
        SinceMore(s.log, e, i);
      }
    }
  }

  lemma PingerKeepsCounters(s: State)
    requires WellFormed(s) && Counters(s)
    ensures Counters(PingerStep(s))
  {
    if s.pinger.PAt? {
      forall i: nat
        ensures Since(PingerStep(s).log, i) == Since(s.log, i) + if i == s.pinger.i then 1 else 0
      {
        SinceMore(s.log, Visited(s.pinger.i), i);
      }
    }
  }

  lemma StepKeepsRounds(s: State, a: Actor)
    requires WellFormed(s) && Enabled(s, a) && RoundsVisit(s)
    ensures RoundsVisit(Step(s, a))
  {
    var t := Step(s, a);
    if |t.log| > |s.log| {
      var e := t.log[|s.log|];
      forall i: nat | i < CLIENTS_MAX
        ensures Visits(t.log, i) == Visits(s.log, i) + if e == Visited(i) then 1 else 0
      {
        VisitsMore(s.log, e, i);
      }
    }
  }

  lemma StepKeepsInv(s: State, a: Actor)
    requires Inv(s) && Enabled(s, a)
    ensures Inv(Step(s, a))
  {
    StepIsWellFormed(s, a);
    StepKeepsNames(s, a);
    StepKeepsRounds(s, a);
    match a
    case TheListener => ListenerKeepsCounters(s);
    case ThePinger => PingerKeepsCounters(s);
    case Deliver(_) =>
  }

  lemma {:induction false} RunKeepsInv(states: seq<State>, actors: seq<Actor>, n: nat)
    requires Run(states, actors) && n < |states|
    ensures Inv(states[n])
  {
    if n > 0 {
      RunKeepsInv(states, actors, n - 1);
      StepKeepsInv(states[n - 1], actors[n - 1]);
      assert states[n - 1 + 1] == Step(states[n - 1], actors[n - 1]);
    }
  }

  // ----- the theorems -----

  /** Names are unique among the active clients, and the counters are exact, in every state of every run. */
  lemma NamesStayDistinct(states: seq<State>, actors: seq<Actor>, n: nat)
    requires Run(states, actors) && n < |states|
    ensures var s := states[n];
      && (forall i, j :: 0 <= i < j < CLIENTS_MAX && s.table[i].active && s.table[j].active ==>
            s.table[i].name != s.table[j].name)
      && (forall i: nat :: i < CLIENTS_MAX && s.table[i].active ==>
            s.table[i].inactivity == Since(s.log, i) <= INACTIVITY_MAX + 1)
      && (forall i: nat :: i < CLIENTS_MAX && s.pinger.PSleeps? ==> Visits(s.log, i) == s.rounds)
  {
    RunKeepsInv(states, actors, n);
  }

  /** A pong or a request to leave is taken for the first active client at the sender's address, and for nobody
      else; a pong from a stranger is dropped, and a message of any other kind leaves everything as it is. */
  lemma MessagesFindTheirSender(s: State, m: Message, t: State)
    requires WellFormed(s) && s.listener == LLookup(m) && Enabled(s, TheListener) && t == Step(s, TheListener)
    ensures m.Pong? && t.listener.LIdle? ==>
              forall i :: 0 <= i < CLIENTS_MAX ==> !(s.table[i].active && s.table[i].addr == m.from)
    ensures m.Pong? && !t.listener.LIdle? ==>
              t.listener.LPong? && t.listener.from == m.from && FirstActiveAt(s.table, m.from, t.listener.slot)
    ensures m.Unregister? ==> t.listener.LUnregister? && FirstActiveAt(s.table, m.from, t.listener.id)
    ensures m.Register? ==> t.listener == LCheck(m)
    ensures m.Other? ==> t == s.(listener := LIdle)
    ensures t == s.(listener := t.listener)
  {
    FindsTheAddress(s.table, m.from);
  }

  /** What happens to the slots is what the message asks for, and the log has it: a newcomer whose name nobody has
      gets the first inactive slot, a client that leaves has an inactive one, and one that is heard of a fresh
      counter. No other slot is touched. */
  lemma MessagesAreCarriedOut(s: State, t: State)
    requires WellFormed(s) && Enabled(s, TheListener) && t == Step(s, TheListener) && !s.listener.LLookup?
    ensures t.pinger == s.pinger && t.rounds == s.rounds
    ensures s.listener.LCheck? ==>
              && t.table == s.table && t.log == s.log
              && t.listener == if exists i :: 0 <= i < CLIENTS_MAX && HasName(s.table[i], s.listener.message.name)
                               then LIdle else LInsert(s.listener.message)
    ensures s.listener.LInsert? ==>
              && var m := s.listener.message;
              && t.listener == LIdle && LetIn(s.table, t.table, m.name, m.sock, m.from)
              && ((exists i :: NextSlot(s.table, i) && t.log == s.log + [Joined(i)])
                  || (t.log == s.log && forall i :: 0 <= i < CLIENTS_MAX ==> s.table[i].active))
    ensures s.listener.LUnregister? ==>
              && t.listener == LIdle && LetGo(s.table, t.table, s.listener.id)
              && t.log == if s.listener.id < 0 then s.log else s.log + [Left(s.listener.id)]
    ensures s.listener.LPong? ==>
              && var i := s.listener.slot;
              && t.listener == LIdle && t.log == s.log + [Heard(i, s.listener.from)]
              && forall j :: 0 <= j < CLIENTS_MAX ==>
                   t.table[j] == if j == i then s.table[j].(inactivity := 0) else s.table[j]
  {
    match s.listener
    case LCheck(m) =>
      TakenMeans(s.table, m.name);
      assert forall i :: 0 <= i < CLIENTS_MAX ==> HasName(s.table[i], m.name) == IsCalled(m.name)(s.table[i]);
    case LInsert(m) =>
      InsertLetsIn(s.table, m.name, m.sock, m.from);
      FindFromIsFirst(s.table, Free, 0);
      assert forall i :: 0 <= i < CLIENTS_MAX ==> Free(s.table[i]) == !s.table[i].active;
      assert Find(s.table, Free) >= 0 ==> NextSlot(s.table, Find(s.table, Free));
    case LUnregister(_) =>
    case LPong(_, _) =>
  }

  /** While the pinger goes through the slots nobody comes in or leaves: all that the listener can do is to write down
      a pong, for which it does not wait. Otherwise it can go on with whatever it has received. */
  lemma RoundIsLocked(s: State)
    requires WellFormed(s)
    ensures Enabled(s, ThePinger)
    ensures s.pinger.PSleeps? ==> (Enabled(s, TheListener) <==> !s.listener.LIdle?)
    ensures s.pinger.PAt? ==> (Enabled(s, TheListener) <==> s.listener.LPong?)
    ensures s.pinger.PAt? && Enabled(s, TheListener) ==>
              && var t := Step(s, TheListener);
              && |t.log| == |s.log| + 1 && t.log[|s.log|].Heard? && t.pinger == s.pinger
              && forall i :: 0 <= i < CLIENTS_MAX ==>
                   && t.table[i].active == s.table[i].active && t.table[i].name == s.table[i].name
                   && t.table[i].addr == s.table[i].addr
  {
  }

  ghost predicate HasName(c: Client, name: string) {
    c.active && c.name == name
  }

  // ----- messages without a meaning for the table -----

  /** Nothing is delivered between the states a and b. */
  ghost predicate NoneDelivered(actors: seq<Actor>, a: nat, b: nat) {
    b <= |actors| && forall k :: a <= k < b ==> !actors[k].Deliver?
  }

  lemma {:induction false} OthersAreLookedUp(states: seq<State>, actors: seq<Actor>, a: nat, k: nat, m: Message)
    requires Run(states, actors) && a < k < |states| && actors[a] == Deliver(m) && m.Other?
    requires NoneDelivered(actors, a + 1, k)
    ensures states[k].listener == LLookup(m) || states[k].listener == LIdle
    decreases k
  {
    RunStep(states, actors, k - 1);
    if a + 1 < k {
      OthersAreLookedUp(states, actors, a, k - 1, m);
    }
  }

  /** From the delivery of a response, or of a message of an unknown type, to the next delivery the listener changes
      no slot and writes nothing to the log, and only the pinger does. */
  lemma OthersLeaveNoTrace(states: seq<State>, actors: seq<Actor>, a: nat, k: nat, m: Message)
    requires Run(states, actors) && a <= k < |actors| && actors[a] == Deliver(m) && m.Other?
    requires NoneDelivered(actors, a + 1, k + 1)
    ensures actors[k] != ThePinger ==> states[k + 1].table == states[k].table && states[k + 1].log == states[k].log
    ensures actors[k] == ThePinger ==> states[k + 1].listener == states[k].listener
  {
    RunStep(states, actors, k);
    if a < k {
      OthersAreLookedUp(states, actors, a, k, m);
      assert k < |actors| && !actors[k].Deliver?;
      if actors[k].TheListener? {
        MessagesFindTheirSender(states[k], m, states[k + 1]);
      }
    }
  }

  // ----- who is in the table -----

  /** Somebody has taken slot i, and has neither left nor been dropped since, as the log tells it. */
  predicate Present(log: seq<Event>, i: nat) {
    if log == [] then false
    else
      var front, last := log[..|log| - 1], log[|log| - 1];
      match last
      case Joined(j) => j == i || Present(front, i)
      case Left(j) => j != i && Present(front, i)
      case Heard(_, _) => Present(front, i)
      case Visited(j) => Present(front, i) && (j == i ==> Since(front, i) <= INACTIVITY_MAX)
  }

  lemma PresentMore(log: seq<Event>, e: Event, i: nat)
    ensures Present(log + [e], i) <==>
      || e == Joined(i)
      || (Present(log, i) && e != Left(i) && (e == Visited(i) ==> Since(log, i) <= INACTIVITY_MAX))
  {
    assert (log + [e])[..|log|] == log;
  }

  ghost predicate InTheLog(s: State) {
    forall i: nat :: i < CLIENTS_MAX ==> (s.table[i].active <==> Present(s.log, i))
  }

  lemma ListenerKeepsTheLog(s: State)
    requires WellFormed(s) && Enabled(s, TheListener) && InTheLog(s)
    ensures InTheLog(ListenerStep(s))
  {
    var t := ListenerStep(s);
    FindFromIsFirst(s.table, Free, 0);
    if |t.log| > |s.log| {
      var e := t.log[|s.log|];
      forall i: nat | i < CLIENTS_MAX ensures t.table[i].active <==> Present(t.log, i) {
        PresentMore(s.log, e, i);
      }
    }
  }

  lemma PingerKeepsTheLog(s: State)
    requires WellFormed(s) && Counters(s) && InTheLog(s)
    ensures InTheLog(PingerStep(s))
  {
    var t := PingerStep(s);
    if s.pinger.PAt? {
      forall i: nat | i < CLIENTS_MAX ensures t.table[i].active <==> Present(t.log, i) {
        PresentMore(s.log, Visited(s.pinger.i), i);
      }
    }
  }

  /** In every state of every run the active slots are those that the log has somebody in. */
  lemma {:induction false} TableFollowsTheLog(states: seq<State>, actors: seq<Actor>, n: nat)
    requires Run(states, actors) && n < |states|
    ensures forall i: nat :: i < CLIENTS_MAX ==> (states[n].table[i].active <==> Present(states[n].log, i))
  {
    if n > 0 {
      TableFollowsTheLog(states, actors, n - 1);
      RunKeepsInv(states, actors, n - 1);
      RunStep(states, actors, n - 1);
      match actors[n - 1]
      case TheListener => ListenerKeepsTheLog(states[n - 1]);
      case ThePinger => PingerKeepsTheLog(states[n - 1]);
      case Deliver(_) =>
    }
  }

  lemma {:induction false} AbsentUntilJoined(log: seq<Event>, k: nat, i: nat)
    requires k < |log| && log[k] == Left(i) && forall j :: k < j < |log| ==> log[j] != Joined(i)
    ensures !Present(log, i)
  {
    if k + 1 < |log| {
      AbsentUntilJoined(log[..|log| - 1], k, i);
    }
  }

  /** From the moment that a client has left, its slot is inactive until the next one takes it. */
  lemma GoneUntilTaken(states: seq<State>, actors: seq<Actor>, n: nat, k: nat, i: nat)
    requires Run(states, actors) && n < |states| && i < CLIENTS_MAX
    requires k < |states[n].log| && states[n].log[k] == Left(i)
    requires forall j :: k < j < |states[n].log| ==> states[n].log[j] != Joined(i)
    ensures !states[n].table[i].active
  {
    TableFollowsTheLog(states, actors, n);
    AbsentUntilJoined(states[n].log, k, i);
  }

  /** The log between two states says nothing about slot i but visits. */
  ghost predicate Silent(log: seq<Event>, from: nat, i: nat) {
    from <= |log| && forall k :: from <= k < |log| ==> log[k] == Visited(i) || log[k].i != i
  }

  /** What a step does to slot i and to the number of its visits, when the log says nothing else about it. */
  ghost predicate VisitedAtMost(s: State, t: State, i: nat)
    requires i < CLIENTS_MAX
  {
    || (Visits(t.log, i) == Visits(s.log, i) && t.table[i] == s.table[i])
    || (Visits(t.log, i) == Visits(s.log, i) + 1 && t.table[i] == Ping(s.table[i]))
  }

  lemma ListenerInSilence(s: State, i: nat)
    requires WellFormed(s) && Enabled(s, TheListener) && i < CLIENTS_MAX && Silent(ListenerStep(s).log, |s.log|, i)
    ensures VisitedAtMost(s, ListenerStep(s), i)
  {
    var t := ListenerStep(s);
    FindFromIsFirst(s.table, Free, 0);
    if |t.log| > |s.log| {
      VisitsMore(s.log, t.log[|s.log|], i);
    }
  }

  lemma PingerInSilence(s: State, i: nat)
    requires WellFormed(s) && i < CLIENTS_MAX
    ensures VisitedAtMost(s, PingerStep(s), i)
  {
    if s.pinger.PAt? {
      VisitsMore(s.log, Visited(s.pinger.i), i);
    }
  }

  lemma StepInSilence(s: State, a: Actor, i: nat)
    requires WellFormed(s) && Enabled(s, a) && i < CLIENTS_MAX && Silent(Step(s, a).log, |s.log|, i)
    ensures VisitedAtMost(s, Step(s, a), i)
  {
    match a
    case TheListener => ListenerInSilence(s, i);
    case ThePinger => PingerInSilence(s, i);
    case Deliver(_) =>
  }

  /** Slot i after v visits, when its client was last heard of as `heard`. */
  ghost predicate Silenced(now: Client, heard: Client, v: int) {
    && v >= 0 && (now.active <==> v <= INACTIVITY_MAX + 1)
    && (v <= INACTIVITY_MAX + 1 ==> now == heard.(inactivity := v))
  }

  lemma SilenceGoesOn(heard: Client, from: nat, s: State, a: Actor, t: State, i: nat)
    requires WellFormed(s) && Enabled(s, a) && t == Step(s, a) && i < CLIENTS_MAX && Silent(t.log, |s.log|, i)
    requires heard.active && heard.inactivity == 0 && Silenced(s.table[i], heard, Visits(s.log, i) - from)
    ensures i < |t.table| && Silenced(t.table[i], heard, Visits(t.log, i) - from)
  {
    StepInSilence(s, a, i);
  }

  /** A client last heard of in state a, and silent from then on, is active in state b exactly when the pinger has
      visited it at most CONF_INACTIVITY_MAX + 1 times in between: the next visit drops it. */
  lemma {:induction false} DroppedAfterSilence(states: seq<State>, actors: seq<Actor>, a: nat, b: nat, i: nat)
    requires Run(states, actors) && a <= b < |states| && i < CLIENTS_MAX
    requires states[a].table[i].active && states[a].table[i].inactivity == 0
    requires Silent(states[b].log, |states[a].log|, i)
    ensures Silenced(states[b].table[i], states[a].table[i], Visits(states[b].log, i) - Visits(states[a].log, i))
    decreases b
  {
    if a < b {
      var s, actor := states[b - 1], actors[b - 1];
      RunStep(states, actors, b - 1);
      LogsGrow(states, actors, a, b - 1);
      SilentBefore(s, actor, |states[a].log|, i);
      DroppedAfterSilence(states, actors, a, b - 1, i);
      SilenceGoesOn(states[a].table[i], Visits(states[a].log, i), s, actor, states[b], i);
    }
  }

  lemma RunStep(states: seq<State>, actors: seq<Actor>, n: nat)
    requires Run(states, actors) && n < |actors|
    ensures WellFormed(states[n]) && Enabled(states[n], actors[n]) && states[n + 1] == Step(states[n], actors[n])
  {
  }

  lemma SilentBefore(s: State, a: Actor, from: nat, i: nat)
    requires WellFormed(s) && Enabled(s, a) && from <= |s.log| && Silent(Step(s, a).log, from, i)
    ensures Silent(s.log, from, i) && Silent(Step(s, a).log, |s.log|, i)
  {
    var t := Step(s, a);
    LogGrows(s, a);
    assert forall k :: 0 <= k < |s.log| ==> s.log[k] == t.log[..|s.log|][k] == t.log[k];
  }

  lemma LogGrows(s: State, a: Actor)
    requires WellFormed(s) && Enabled(s, a)
    ensures |s.log| <= |Step(s, a).log| && Step(s, a).log[..|s.log|] == s.log
  {
  }

  lemma {:induction false} LogsGrow(states: seq<State>, actors: seq<Actor>, a: nat, b: nat)
    requires Run(states, actors) && a <= b < |states|
    ensures |states[a].log| <= |states[b].log|
  {
    if a < b {
      LogsGrow(states, actors, a, b - 1);
      assert states[b - 1 + 1] == Step(states[b - 1], actors[b - 1]);
      LogGrows(states[b - 1], actors[b - 1]);
    }
  }
}
