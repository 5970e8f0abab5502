/** Whether a client that answers its pings keeps its slot. */
module RegistryAnswers {
  import opened Registry
  import opened RegistryRuns

  /** The visits of the pinger to slot i since it was last taken or a pong from the address was last written. */
  function Unanswered(log: seq<Event>, i: nat, addr: Address): nat {
    if log == [] then 0
    else
      var front, last := log[..|log| - 1], log[|log| - 1];
      if last == Joined(i) || (last.Heard? && last.from == addr) then 0
      else Unanswered(front, i, addr) + if last == Visited(i) then 1 else 0
  }

  lemma UnansweredMore(log: seq<Event>, e: Event, i: nat, addr: Address)
    ensures Unanswered(log + [e], i, addr) ==
      if e == Joined(i) || (e.Heard? && e.from == addr) then 0
      else Unanswered(log, i, addr) + if e == Visited(i) then 1 else 0
  {
    assert (log + [e])[..|log|] == log;
  }

  /** No earlier active slot has the address of slot i. */
  predicate FirstAt(table: Table, i: nat)
    requires i < CLIENTS_MAX
  {
    forall j :: 0 <= j < i && table[j].active ==> table[j].addr != table[i].addr
  }

  /** Nobody takes slot i or leaves it from position `from` of the log on. */
  ghost predicate Undisturbed(log: seq<Event>, from: nat, i: nat) {
    from <= |log| && forall k :: from <= k < |log| ==> log[k] != Joined(i) && log[k] != Left(i)
  }

  // ----- a client that is found -----

  /** The client of slot i at the address is in the table, its pongs find it, and its counter is no more than the
      visits that it has not answered. */
  ghost predicate Found(s: State, i: nat, addr: Address)
    requires i < CLIENTS_MAX
  {
    && s.table[i].active && s.table[i].addr == addr
    && (s.listener.LPong? ==> (s.listener.slot == i <==> s.listener.from == addr))
    && Since(s.log, i) <= Unanswered(s.log, i, addr)
  }

  lemma LookupKeepsFound(s: State, i: nat, addr: Address)
    requires WellFormed(s) && Enabled(s, TheListener) && s.listener.LLookup?
    requires i < CLIENTS_MAX && Found(s, i, addr) && FirstAt(s.table, i)
    ensures Found(ListenerStep(s), i, addr)
  {
    var m := s.listener.message;
    FindFromIsFirst(s.table, IsAt(m.from), 0);
    assert IsAt(m.from)(s.table[i]) == (m.from == addr);
    var id := Find(s.table, IsAt(m.from));
    assert id >= 0 ==> IsAt(m.from)(s.table[id]);
  }

  /** One more event leaves the counter at no more than the unanswered visits, when pongs from the address, and no
      others, are for slot i. */
  lemma BalanceMore(log: seq<Event>, e: Event, i: nat, addr: Address)
    requires Since(log, i) <= Unanswered(log, i, addr) && e != Joined(i)
    requires e.Heard? ==> (e.i == i <==> e.from == addr)
    ensures Since(log + [e], i) <= Unanswered(log + [e], i, addr)
  {
    SinceMore(log, e, i);
    UnansweredMore(log, e, i, addr);
  }

  lemma ListenerKeepsPlace(s: State, i: nat, addr: Address)
    requires WellFormed(s) && Enabled(s, TheListener) && !s.listener.LLookup?
    requires i < CLIENTS_MAX && Found(s, i, addr) && Undisturbed(ListenerStep(s).log, |s.log|, i)
    ensures var t := ListenerStep(s);
      && t.table[i].active && t.table[i].addr == addr && !t.listener.LPong?
      && (t.log == s.log || (|t.log| == |s.log| + 1 && t.log == s.log + [t.log[|s.log|]] &&
            var e := t.log[|s.log|]; e != Joined(i) && (e.Heard? ==> (e.i == i <==> e.from == addr))))
  {
    var t := ListenerStep(s);
    FindFromIsFirst(s.table, Free, 0);
    if |t.log| > |s.log| {
      assert t.log[|s.log|] != Joined(i) && t.log[|s.log|] != Left(i);
    }
  }

  lemma ListenerKeepsFound(s: State, i: nat, addr: Address)
    requires WellFormed(s) && Enabled(s, TheListener) && !s.listener.LLookup?
    requires i < CLIENTS_MAX && Found(s, i, addr) && Undisturbed(ListenerStep(s).log, |s.log|, i)
    ensures Found(ListenerStep(s), i, addr)
  {
    ListenerKeepsPlace(s, i, addr);
    if ListenerStep(s).log != s.log {
      BalanceMore(s.log, ListenerStep(s).log[|s.log|], i, addr);
    }
  }

  lemma PingerKeepsFound(s: State, i: nat, addr: Address)
    requires WellFormed(s) && Counters(s) && i < CLIENTS_MAX && Found(s, i, addr)
    requires Unanswered(PingerStep(s).log, i, addr) <= INACTIVITY_MAX + 1
    ensures Found(PingerStep(s), i, addr)
  {
    if s.pinger.PAt? {
      SinceMore(s.log, Visited(s.pinger.i), i);
      UnansweredMore(s.log, Visited(s.pinger.i), i, addr);
    }
  }

  lemma StepKeepsFound(s: State, a: Actor, i: nat, addr: Address)
    requires WellFormed(s) && Counters(s) && Enabled(s, a)
    requires i < CLIENTS_MAX && Found(s, i, addr) && FirstAt(s.table, i)
    requires Undisturbed(Step(s, a).log, |s.log|, i)
    requires Unanswered(Step(s, a).log, i, addr) <= INACTIVITY_MAX + 1
    ensures Found(Step(s, a), i, addr)
  {
    match a
    case TheListener =>
      if s.listener.LLookup? {
        LookupKeepsFound(s, i, addr);
      } else {
        ListenerKeepsFound(s, i, addr);
      }
    case ThePinger => PingerKeepsFound(s, i, addr);
    case Deliver(_) =>
  }

  // ----- a client behind another one at its address -----

  /** No pong is on its way to slot i. */
  ghost predicate Unheard(s: State, i: nat, addr: Address)
    requires i < CLIENTS_MAX
  {
    s.table[i].addr == addr && (s.listener.LPong? ==> s.listener.slot != i)
  }

  lemma LookupStaysUnheard(s: State, i: nat, addr: Address)
    requires WellFormed(s) && Enabled(s, TheListener) && s.listener.LLookup?
    requires i < CLIENTS_MAX && Unheard(s, i, addr) && !FirstAt(s.table, i)
    ensures Unheard(ListenerStep(s), i, addr) && ListenerStep(s).log == s.log
  {
    var m := s.listener.message;
    var id := Find(s.table, IsAt(m.from));
    FindFromIsFirst(s.table, IsAt(m.from), 0);
    var j :| 0 <= j < i && s.table[j].active && s.table[j].addr == addr;
    assert IsAt(m.from)(s.table[j]) == (m.from == addr);
    assert id >= 0 ==> IsAt(m.from)(s.table[id]);
  }

  lemma ListenerStaysUnheard(s: State, i: nat, addr: Address)
    requires WellFormed(s) && Enabled(s, TheListener) && !s.listener.LLookup?
    requires i < CLIENTS_MAX && Unheard(s, i, addr) && Undisturbed(ListenerStep(s).log, |s.log|, i)
    ensures Unheard(ListenerStep(s), i, addr) && Silent(ListenerStep(s).log, |s.log|, i)
  {
    var t := ListenerStep(s);
    FindFromIsFirst(s.table, Free, 0);
    if |t.log| > |s.log| {
      assert t.log[|s.log|] != Joined(i) && t.log[|s.log|] != Left(i);
    }
  }

  lemma StepStaysUnheard(s: State, a: Actor, i: nat, addr: Address)
    requires WellFormed(s) && Enabled(s, a) && i < CLIENTS_MAX && Unheard(s, i, addr) && !FirstAt(s.table, i)
    requires Undisturbed(Step(s, a).log, |s.log|, i)
    ensures Unheard(Step(s, a), i, addr) && Silent(Step(s, a).log, |s.log|, i)
  {
    match a
    case TheListener =>
      if s.listener.LLookup? {
        LookupStaysUnheard(s, i, addr);
      } else {
        ListenerStaysUnheard(s, i, addr);
      }
    case ThePinger =>
    case Deliver(_) =>
  }

  // ----- over runs -----

  /** Between the states a and b nobody else takes slot i, its client does not leave, and it answers in time: there are
      never more than CONF_INACTIVITY_MAX + 1 visits without a pong from its address. */
  ghost predicate AnswersInTime(states: seq<State>, a: nat, b: nat, i: nat, addr: Address) {
    && a <= b < |states|
    && Undisturbed(states[b].log, |states[a].log|, i)
    && forall k :: a <= k <= b ==> InTime(states[k], i, addr)
  }

  ghost predicate InTime(s: State, i: nat, addr: Address) {
    Unanswered(s.log, i, addr) <= INACTIVITY_MAX + 1
  }

  /** Slot i has just been taken by a client at the address. */
  ghost predicate JustJoined(s: State, i: nat, addr: Address) {
    && i < CLIENTS_MAX && s.table[i].active && s.table[i].addr == addr && s.table[i].inactivity == 0
    && s.log != [] && s.log[|s.log| - 1] == Joined(i) && s.listener.LIdle?
  }

  lemma UndisturbedBefore(s: State, a: Actor, from: nat, i: nat)
    requires WellFormed(s) && Enabled(s, a) && from <= |s.log| && Undisturbed(Step(s, a).log, from, i)
    ensures Undisturbed(s.log, from, i) && Undisturbed(Step(s, a).log, |s.log|, i)
  {
    var t := Step(s, a);
    LogGrows(s, a);
    assert forall k :: 0 <= k < |s.log| ==> s.log[k] == t.log[..|s.log|][k] == t.log[k];
  }

  lemma UndisturbedSince(states: seq<State>, actors: seq<Actor>, a: nat, b: nat, i: nat)
    requires Run(states, actors) && a < b < |states| && Undisturbed(states[b].log, |states[a].log|, i)
    ensures Undisturbed(states[b - 1].log, |states[a].log|, i) && Undisturbed(states[b].log, |states[b - 1].log|, i)
  {
    RunStep(states, actors, b - 1);
    LogsGrow(states, actors, a, b - 1);
    UndisturbedBefore(states[b - 1], actors[b - 1], |states[a].log|, i);
  }

  lemma AnsweredBefore(states: seq<State>, actors: seq<Actor>, a: nat, b: nat, i: nat, addr: Address)
    requires Run(states, actors) && AnswersInTime(states, a, b, i, addr) && a < b
    ensures AnswersInTime(states, a, b - 1, i, addr) && Undisturbed(states[b].log, |states[b - 1].log|, i)
    ensures InTime(states[b], i, addr)
  {
    UndisturbedSince(states, actors, a, b, i);
  }

  lemma CountersHold(states: seq<State>, actors: seq<Actor>, n: nat)
    requires Run(states, actors) && n < |states|
    ensures Counters(states[n])
  {
    RunKeepsInv(states, actors, n);
  }

  lemma FoundAfter(s: State, a: Actor, t: State, i: nat, addr: Address)
    requires WellFormed(s) && Counters(s) && Enabled(s, a) && t == Step(s, a)
    requires i < CLIENTS_MAX && Found(s, i, addr) && FirstAt(s.table, i)
    requires Undisturbed(t.log, |s.log|, i) && InTime(t, i, addr)
    ensures Found(t, i, addr)
  {
    StepKeepsFound(s, a, i, addr);
  }

  lemma FoundNext(states: seq<State>, actors: seq<Actor>, b: nat, i: nat, addr: Address)
    requires Run(states, actors) && 0 < b < |states| && i < CLIENTS_MAX
    requires Found(states[b - 1], i, addr) && FirstAt(states[b - 1].table, i)
    requires Undisturbed(states[b].log, |states[b - 1].log|, i) && InTime(states[b], i, addr)
    ensures Found(states[b], i, addr)
  {
    var s, actor, t := states[b - 1], actors[b - 1], states[b];
    RunStep(states, actors, b - 1);
    CountersHold(states, actors, b - 1);
    FoundAfter(s, actor, t, i, addr);
  }

  lemma JustJoinedIsFound(s: State, i: nat, addr: Address)
    requires JustJoined(s, i, addr)
    ensures Found(s, i, addr)
  {
  }

  /** In all states from a up to, not including, b no earlier active slot has the address of slot i. */
  ghost predicate FirstFrom(states: seq<State>, a: nat, b: nat, i: nat)
    requires b <= |states| && i < CLIENTS_MAX
  {
    forall k :: a <= k < b ==> FirstAt(states[k].table, i)
  }

  lemma FirstBefore(states: seq<State>, a: nat, b: nat, i: nat)
    requires a < b <= |states| && i < CLIENTS_MAX && FirstFrom(states, a, b, i)
    ensures FirstFrom(states, a, b - 1, i) && FirstAt(states[b - 1].table, i)
  {
  }

  lemma {:induction false} StaysFound(states: seq<State>, actors: seq<Actor>, a: nat, b: nat, i: nat, addr: Address)
    requires Run(states, actors) && AnswersInTime(states, a, b, i, addr) && JustJoined(states[a], i, addr)
    requires FirstFrom(states, a, b, i)
    ensures Found(states[b], i, addr)
    decreases b
  {
    if a < b {
      AnsweredBefore(states, actors, a, b, i, addr);
      FirstBefore(states, a, b, i);
      StaysFound(states, actors, a, b - 1, i, addr);
      FoundNext(states, actors, b, i, addr);
    } else {
      JustJoinedIsFound(states[a], i, addr);
    }
  }

  lemma SilentMore(s: State, a: Actor, from: nat, i: nat)
    requires WellFormed(s) && Enabled(s, a) && Silent(s.log, from, i) && Silent(Step(s, a).log, |s.log|, i)
    ensures Silent(Step(s, a).log, from, i)
  {
    var t := Step(s, a);
    LogGrows(s, a);
    assert forall k :: 0 <= k < |s.log| ==> s.log[k] == t.log[..|s.log|][k] == t.log[k];
  }

  lemma UnheardGoesOn(states: seq<State>, actors: seq<Actor>, a: nat, b: nat, i: nat, addr: Address)
    requires Run(states, actors) && a < b < |states| && i < CLIENTS_MAX
    requires Undisturbed(states[b].log, |states[b - 1].log|, i)
    requires Unheard(states[b - 1], i, addr) && !FirstAt(states[b - 1].table, i)
    requires Silent(states[b - 1].log, |states[a].log|, i)
    ensures Unheard(states[b], i, addr) && Silent(states[b].log, |states[a].log|, i)
  {
    RunStep(states, actors, b - 1);
    StepStaysUnheard(states[b - 1], actors[b - 1], i, addr);
    SilentMore(states[b - 1], actors[b - 1], |states[a].log|, i);
  }

  lemma {:induction false} StaysUnheard(states: seq<State>, actors: seq<Actor>, a: nat, b: nat, i: nat, addr: Address)
    requires Run(states, actors) && a <= b < |states| && Undisturbed(states[b].log, |states[a].log|, i)
    requires JustJoined(states[a], i, addr) && forall k :: a <= k < b ==> !FirstAt(states[k].table, i)
    ensures Unheard(states[b], i, addr) && Silent(states[b].log, |states[a].log|, i)
    decreases b
  {
    if a < b {
      UndisturbedSince(states, actors, a, b, i);
      StaysUnheard(states, actors, a, b - 1, i, addr);
      UnheardGoesOn(states, actors, a, b, i, addr);
    }
  }

  /** A client that answers in time is never dropped, as long as no earlier active slot has its address. */
  lemma AnsweringKeepsTheSlot(states: seq<State>, actors: seq<Actor>, a: nat, b: nat, i: nat, addr: Address)
    requires Run(states, actors) && AnswersInTime(states, a, b, i, addr) && JustJoined(states[a], i, addr)
    requires FirstFrom(states, a, b, i)
    ensures states[b].table[i].active && states[b].table[i].addr == addr
  {
    StaysFound(states, actors, a, b, i, addr);
  }

  /** Behind another active client at its address it is dropped as if it had kept silent, whatever it sends. */
  lemma ShadowedIsDropped(states: seq<State>, actors: seq<Actor>, a: nat, b: nat, i: nat, addr: Address)
    requires Run(states, actors) && a <= b < |states| && Undisturbed(states[b].log, |states[a].log|, i)
    requires JustJoined(states[a], i, addr) && forall k :: a <= k < b ==> !FirstAt(states[k].table, i)
    ensures Silenced(states[b].table[i], states[a].table[i], Visits(states[b].log, i) - Visits(states[a].log, i))
  {
    StaysUnheard(states, actors, a, b, i, addr);
    DroppedAfterSilence(states, actors, a, b, i);
  }

  /** After CONF_INACTIVITY_MAX + 2 visits a client that has always answered in time is still there if and only if no
      earlier active slot has its address. */
  lemma KeptIffFirst(states: seq<State>, actors: seq<Actor>, a: nat, b: nat, i: nat, addr: Address)
    requires Run(states, actors) && AnswersInTime(states, a, b, i, addr) && JustJoined(states[a], i, addr)
    requires Visits(states[b].log, i) - Visits(states[a].log, i) > INACTIVITY_MAX + 1
    requires forall k :: a <= k < b ==> FirstAt(states[k].table, i) == FirstAt(states[a].table, i)
    ensures states[b].table[i].active <==> FirstAt(states[a].table, i)
  {
    if FirstAt(states[a].table, i) {
      AnsweringKeepsTheSlot(states, actors, a, b, i, addr);
    } else {
      ShadowedIsDropped(states, actors, a, b, i, addr);
    }
  }
}
