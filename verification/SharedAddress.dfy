/** Two clients at one address: the second answers every ping at once, and is dropped all the same. */
module SharedAddress {
  import opened Registry
  import opened RegistryRuns
  import opened RegistryAnswers

  lemma Extend(states: seq<State>, actors: seq<Actor>, actor: Actor)
    returns (states': seq<State>, actors': seq<Actor>)
    requires Run(states, actors) && WellFormed(states[|actors|]) && Enabled(states[|actors|], actor)
    ensures Run(states', actors') && |actors'| == |actors| + 1 && states'[..|states|] == states
    ensures states'[|actors'|] == Step(states[|actors|], actor) && WellFormed(states'[|actors'|])
  {
    StepIsWellFormed(states[|actors|], actor);
    states', actors' := states + [Step(states[|actors|], actor)], actors + [actor];
  }

  // ----- two clients join -----

  /** Slots 0 to n - 1 are taken by clients at the address, and nothing else is going on. */
  ghost predicate Occupied(s: State, n: nat, addr: Address) {
    && n < CLIENTS_MAX && s.listener.LIdle? && s.pinger.PSleeps?
    && (forall i :: 0 <= i < n ==> s.table[i].active && s.table[i].addr == addr && s.table[i].inactivity == 0)
    && (forall i :: n <= i < CLIENTS_MAX ==> !s.table[i].active)
  }

  lemma NextFreeIs(table: Table, n: nat)
    requires n < CLIENTS_MAX && (forall i :: 0 <= i < n ==> table[i].active) && !table[n].active
    ensures Find(table, Free) == n
  {
    FindFromIsFirst(table, Free, 0);
    assert Free(table[n]);
  }

  lemma NameIsFree(table: Table, name: string)
    requires forall i :: 0 <= i < CLIENTS_MAX && table[i].active ==> table[i].name != name
    ensures !Registry.Taken(table, name)
  {
    TakenMeans(table, name);
  }

  /** One more client registers from the address. */
  lemma Joins(states: seq<State>, actors: seq<Actor>, n: nat, name: string, addr: Address)
    returns (states': seq<State>, actors': seq<Actor>)
    requires Run(states, actors) && Occupied(states[|actors|], n, addr) && n + 1 < CLIENTS_MAX
    requires forall i :: 0 <= i < n ==> states[|actors|].table[i].name != name
    ensures Run(states', actors') && Occupied(states'[|actors'|], n + 1, addr)
    ensures states'[|actors'|].table[n].name == name && JustJoined(states'[|actors'|], n, addr)
    ensures forall i :: 0 <= i < n ==> states'[|actors'|].table[i] == states[|actors|].table[i]
  {
    var s := states[|actors|];
    NextFreeIs(s.table, n);
    NameIsFree(s.table, name);
    states', actors' := Extend(states, actors, Deliver(Register(name, 0, addr)));
    states', actors' := Extend(states', actors', TheListener);
    assert states'[|actors'|] == s.(listener := LCheck(Register(name, 0, addr)));
    states', actors' := Extend(states', actors', TheListener);
    states', actors' := Extend(states', actors', TheListener);
  }

  // ----- rounds with answers -----

  /** From state a on slot 1 has been behind slot 0 at the address, and has answered in time. */
  ghost predicate Answering(states: seq<State>, actors: seq<Actor>, a: nat, addr: Address) {
    && Run(states, actors) && a < |states| && JustJoined(states[a], 1, addr)
    && Undisturbed(states[|actors|].log, |states[a].log|, 1)
    && (forall k :: a <= k < |states| ==> InTime(states[k], 1, addr))
  }

  lemma AnswersOn(states: seq<State>, actors: seq<Actor>, a: nat, addr: Address, actor: Actor)
    returns (states': seq<State>, actors': seq<Actor>)
    requires Answering(states, actors, a, addr)
    requires WellFormed(states[|actors|]) && Enabled(states[|actors|], actor)
    requires Undisturbed(Step(states[|actors|], actor).log, |states[|actors|].log|, 1)
    requires InTime(Step(states[|actors|], actor), 1, addr)
    ensures Answering(states', actors', a, addr) && WellFormed(states'[|actors'|])
    ensures states'[|actors'|] == Step(states[|actors|], actor)
  {
    states', actors' := Extend(states, actors, actor);
    UndisturbedMore(states[|actors|], actor, |states[a].log|);
    forall k | a <= k < |states'| ensures InTime(states'[k], 1, addr) {
      assert k < |states| ==> states'[k] == states'[..|states|][k] == states[k];
    }
    assert states'[a] == states'[..|states|][a] == states[a];
  }

  lemma UndisturbedMore(s: State, actor: Actor, from: nat)
    requires WellFormed(s) && Enabled(s, actor) && Undisturbed(s.log, from, 1)
    requires Undisturbed(Step(s, actor).log, |s.log|, 1)
    ensures Undisturbed(Step(s, actor).log, from, 1)
  {
    LogGrows(s, actor);
    var t := Step(s, actor);
    assert forall k :: 0 <= k < |s.log| ==> s.log[k] == t.log[..|s.log|][k] == t.log[k];
  }

  /** j slots have been visited in the round that comes after k rounds. */
  ghost predicate Visiting(s: State, k: nat, j: nat, addr: Address) {
    && j <= CLIENTS_MAX && s.listener.LIdle? && s.pinger == (if j == CLIENTS_MAX then PSleeps else PAt(j))
    && s.table[0] == Client(true, s.table[0].name, s.table[0].sock, addr, if j > 0 then 1 else 0)
    && s.table[1].addr == addr && s.table[1].active && s.table[1].inactivity == (if j > 1 then k + 1 else k)
    && (forall i :: 2 <= i < CLIENTS_MAX ==> !s.table[i].active)
    && Unanswered(s.log, 1, addr) == if j > 1 then 1 else 0
  }

  /** k rounds are over, and everything has been answered. */
  ghost predicate Answered(s: State, k: nat, addr: Address) {
    && s.listener.LIdle? && s.pinger.PSleeps? && Unanswered(s.log, 1, addr) == 0
    && s.table[0] == Client(true, s.table[0].name, s.table[0].sock, addr, 0)
    && s.table[1].addr == addr && s.table[1].active && s.table[1].inactivity == k
    && (forall i :: 2 <= i < CLIENTS_MAX ==> !s.table[i].active)
  }

  lemma VisitsOne(s: State, k: nat, j: nat, addr: Address)
    requires WellFormed(s) && k <= INACTIVITY_MAX && j < CLIENTS_MAX && Visiting(s, k, j, addr)
    ensures Visiting(PingerStep(s), k, j + 1, addr) && Undisturbed(PingerStep(s).log, |s.log|, 1)
    ensures InTime(PingerStep(s), 1, addr)
  {
    UnansweredMore(s.log, Visited(j), 1, addr);
  }

  lemma {:induction false} VisitsUpTo(states: seq<State>, actors: seq<Actor>, a: nat, addr: Address, k: nat, j: nat)
    returns (states': seq<State>, actors': seq<Actor>)
    requires Answering(states, actors, a, addr) && WellFormed(states[|actors|])
    requires k <= INACTIVITY_MAX && j <= CLIENTS_MAX && Visiting(states[|actors|], k, 0, addr)
    ensures Answering(states', actors', a, addr) && WellFormed(states'[|actors'|])
    ensures Visiting(states'[|actors'|], k, j, addr)
  {
    states', actors' := states, actors;
    if j > 0 {
      states', actors' := VisitsUpTo(states, actors, a, addr, k, j - 1);
      VisitsOne(states'[|actors'|], k, j - 1, addr);
      states', actors' := AnswersOn(states', actors', a, addr, ThePinger);
    }
  }

  lemma RoundBegins(s: State, k: nat, addr: Address)
    requires WellFormed(s) && Answered(s, k, addr)
    ensures Visiting(PingerStep(s), k, 0, addr) && PingerStep(s).log == s.log
  {
  }

  /** A pong from the address goes to slot 0. */
  lemma PongComes(s: State, k: nat, addr: Address)
    requires WellFormed(s) && Visiting(s, k, CLIENTS_MAX, addr)
    ensures Find(s.table, IsAt(addr)) == 0
    ensures var t := s.(listener := LPong(0, addr)); Answered(ListenerStep(t), k + 1, addr)
    ensures var t := s.(listener := LPong(0, addr)); Undisturbed(ListenerStep(t).log, |s.log|, 1)
  {
    FindFromIsFirst(s.table, IsAt(addr), 0);
    assert IsAt(addr)(s.table[0]);
    UnansweredMore(s.log, Heard(0, addr), 1, addr);
  }

  lemma PongIsWritten(states: seq<State>, actors: seq<Actor>, a: nat, addr: Address, k: nat)
    returns (states': seq<State>, actors': seq<Actor>)
    requires Answering(states, actors, a, addr) && WellFormed(states[|actors|])
    requires Visiting(states[|actors|], k, CLIENTS_MAX, addr)
    ensures Answering(states', actors', a, addr) && WellFormed(states'[|actors'|])
    ensures Answered(states'[|actors'|], k + 1, addr)
  {
    var s := states[|actors|];
    PongComes(s, k, addr);
    states', actors' := AnswersOn(states, actors, a, addr, Deliver(Pong(addr)));
    states', actors' := AnswersOn(states', actors', a, addr, TheListener);
    assert states'[|actors'|] == s.(listener := LPong(0, addr));
    states', actors' := AnswersOn(states', actors', a, addr, TheListener);
  }

  lemma {:induction false} AfterRounds(addr: Address, k: nat)
    returns (states: seq<State>, actors: seq<Actor>, a: nat)
    requires k <= INACTIVITY_MAX + 1
    ensures Answering(states, actors, a, addr) && WellFormed(states[|actors|])
    ensures Answered(states[|actors|], k, addr)
  {
    if k == 0 {
      var start := State(seq(CLIENTS_MAX, _ => Client(false, "", 0, 0, 0)), LIdle, PSleeps, 0, []);
      states, actors := Joins([start], [], 0, "a", addr);
      states, actors := Joins(states, actors, 1, "b", addr);
      a := |actors|;
      RunKeepsInv(states, actors, a);
    } else {
      states, actors, a := AfterRounds(addr, k - 1);
      RoundBegins(states[|actors|], k - 1, addr);
      states, actors := AnswersOn(states, actors, a, addr, ThePinger);
      states, actors := VisitsUpTo(states, actors, a, addr, k - 1, CLIENTS_MAX);
      states, actors := PongIsWritten(states, actors, a, addr, k - 1);
    }
  }

  /** For any address there is a run in which a client at it answers every ping before the next one, and is dropped in
      the round after CONF_INACTIVITY_MAX + 1 rounds: another one was there before it. */
  lemma AnsweringIsNotEnough(addr: Address)
    ensures exists states: seq<State>, actors, a: nat, b: nat ::
              && Run(states, actors) && AnswersInTime(states, a, b, 1, addr)
              && JustJoined(states[a], 1, addr) && !states[b].table[1].active
  {
    var states, actors, a := AfterRounds(addr, INACTIVITY_MAX + 1);
    states, actors := LastRound(states, actors, a, addr);
    assert AnswersInTime(states, a, |actors|, 1, addr);
  }

  lemma LastRound(states: seq<State>, actors: seq<Actor>, a: nat, addr: Address)
    returns (states': seq<State>, actors': seq<Actor>)
    requires Answering(states, actors, a, addr) && WellFormed(states[|actors|])
    requires Answered(states[|actors|], INACTIVITY_MAX + 1, addr)
    ensures Answering(states', actors', a, addr) && !states'[|actors'|].table[1].active
  {
    var s := states[|actors|];
    states', actors' := AnswersOn(states, actors, a, addr, ThePinger);
    UnansweredMore(s.log, Visited(0), 1, addr);
    states', actors' := AnswersOn(states', actors', a, addr, ThePinger);
    UnansweredMore(s.log + [Visited(0)], Visited(1), 1, addr);
    states', actors' := AnswersOn(states', actors', a, addr, ThePinger);
  }
}
