/** exec_command: cutting argv at the bars and launching the children. */
module Pipeline {
  import opened Segments
  import opened Descriptors

  /** The strings that exec finds at argv + from: all up to the first NULL. */
  function UntilNull(argv: seq<Option<string>>, from: nat): Args
    decreases |argv| - from
  {
    if from >= |argv| || argv[from].None? then [] else [argv[from].value] + UntilNull(argv, from + 1)
  }

  /** argv + from holds the n arguments args and then NULL. */
  ghost predicate HoldsArgs(argv: seq<Option<string>>, from: nat, args: Args) {
    && from + |args| < |argv| && argv[from + |args|] == None
    && forall k :: 0 <= k < |args| ==> argv[from + k] == Some(args[k])
  }

  lemma {:induction false} ReadsArgs(argv: seq<Option<string>>, from: nat, args: Args)
    requires HoldsArgs(argv, from, args)
    ensures UntilNull(argv, from) == args
    decreases |args|
  {
    if args != [] {
      assert argv[from] == Some(args[0]);
      forall k | 0 <= k < |args| - 1 ensures argv[from + 1 + k] == Some(args[1..][k]) {
        assert argv[from + (k + 1)] == Some(args[k + 1]);
      }
      ReadsArgs(argv, from + 1, args[1..]);
    }
  }

  /** The bars among args have become NULL and nothing else has changed. */
  ghost predicate BarsCut(was: seq<Option<string>>, now: seq<Option<string>>, from: nat, count: nat) {
    && |now| == |was|
    && forall k :: 0 <= k < |was| ==>
         now[k] == if from <= k < from + count && was[k] == Some("|") then None else was[k]
  }

  /** Cutting at the first bar leaves the first segment, and the rest as it was. */
  lemma CutLeaves(argv: seq<Option<string>>, from: nat, args: Args, k: nat)
    requires HoldsArgs(argv, from, args) && k == Cut(args, 0) < |args|
    ensures HoldsArgs(argv[from + k := None], from, args[..k])
    ensures HoldsArgs(argv[from + k := None], from + k + 1, args[k + 1..])
  {
    var rest := args[k + 1..];
    forall i | 0 <= i < |rest| ensures argv[from + k := None][from + k + 1 + i] == Some(rest[i]) {
      assert argv[from + (k + 1 + i)] == Some(args[k + 1 + i]);
    }
  }

  lemma CutMore(was: seq<Option<string>>, now: seq<Option<string>>, from: nat, args: Args, k: nat)
    requires HoldsArgs(was, from, args) && k == Cut(args, 0) < |args|
    requires BarsCut(was[from + k := None], now, from + k + 1, |args| - k - 1)
    ensures BarsCut(was, now, from, |args|)
  {
    forall i | 0 <= i < |was|
      ensures now[i] == if from <= i < from + |args| && was[i] == Some(BAR) then None else was[i]
    {
      if from <= i < from + |args| {
        assert was[from + (i - from)] == Some(args[i - from]);
      }
    }
  }

  lemma NothingToCut(argv: seq<Option<string>>, from: nat, args: Args)
    requires HoldsArgs(argv, from, args) && Cut(args, 0) == |args|
    ensures BarsCut(argv, argv, from, |args|)
  {
    forall i | from <= i < from + |args| ensures argv[i] != Some(BAR) {
      assert argv[from + (i - from)] == Some(args[i - from]);
    }
  }

  class Shell {
    var fds: Table
    var pipes: nat
    var children: seq<Child>

    ghost function State(): Process reads this {
      Process(fds, pipes, children)
    }

    static method LowestFree(fds: Table) returns (d: nat)
      ensures d !in fds && forall k: nat :: k < d ==> k in fds
    {
      d := 0;
      ghost var rest := fds.Keys;
      while d in fds
        invariant forall k: nat :: k < d ==> k in fds
        invariant forall k :: k in fds && k >= d ==> k in rest
        decreases |rest|
      {
        rest := rest - {d};
        d := d + 1;
      }
    }

    /** pipe: the two ends get the two lowest free descriptors. */
    method Pipe() returns (r: nat, w: nat)
      modifies this
      ensures Taken(old(fds), r, w)
      ensures State() == Process(WithPipe(old(fds), r, w, old(pipes)), old(pipes) + 1, old(children))
    {
      r := LowestFree(fds);
      fds := fds[r := ReadEnd(pipes)];
      w := LowestFree(fds);
      forall k: nat | r < k < w ensures k in old(fds) {
        assert k in fds;
      }
      fds := fds[w := WriteEnd(pipes)];
      pipes := pipes + 1;
    }

    /** The index of the first bar, or -1; it becomes NULL. */
    method CutAtBar(argv: array<Option<string>>, from: nat, argc: nat, ghost args: Args) returns (to: int)
      requires argc == |args| && HoldsArgs(argv[..], from, args)
      modifies argv
      ensures to == if Cut(args, 0) == argc then -1 else Cut(args, 0)
      ensures argv[..] == if to < 0 then old(argv[..]) else old(argv[..])[from + to := None]
    {
      to := -1;
      for i := 0 to argc
        invariant to == -1 && argv[..] == old(argv[..]) && Cut(args, 0) == Cut(args, i)
      {
        assert argv[from + i] == Some(args[i]);
        if argv[from + i] == Some(BAR) {
          to := i;
          argv[from + i] := None;
          break;
        }
      }
    }

    /** The child before a bar. */
    method SpawnWriter(argv: array<Option<string>>, from: nat, ghost args: Args)
      returns (ghost r: nat, ghost w: nat, ghost child: Child)
      requires State().Valid() && HoldsArgs(argv[..], from, args)
      modifies this
      ensures Spawned(old(State()), State(), r, w, child) && child.args == args
    {
      ReadsArgs(argv[..], from, args);
      ghost var fds0, first := fds, pipes;
      var r', w' := Pipe();
      var spawned := Child(UntilNull(argv[..], from), ChildTable(fds, r', w'));
      children := children + [spawned];
      fds := ParentTable(fds, r', w');
      r, w, child := r', w', spawned;
      ChildTurns(fds0, r, w, first);
      ParentTurns(fds0, r, w, first);
    }

    /** The child behind the last bar. */
    method SpawnLast(argv: array<Option<string>>, from: nat, ghost args: Args)
      requires State().Valid() && HoldsArgs(argv[..], from, args)
      modifies this
      ensures Ran(old(State()), State(), [Child(args, old(fds))], [args])
    {
      ReadsArgs(argv[..], from, args);
      RanLast(State(), args);
      children := children + [Child(UntilNull(argv[..], from), fds)];
    }

    /** exec_command; argv + from and argc are the arguments of the call. */
    method ExecCommand(argv: array<Option<string>>, from: nat, argc: nat, ghost args: Args)
      returns (ghost added: seq<Child>)
      requires State().Valid() && argc == |args| && HoldsArgs(argv[..], from, args)
      modifies this, argv
      ensures Ran(old(State()), State(), added, Split(args))
      ensures BarsCut(old(argv[..]), argv[..], from, argc)
      decreases argc
    {
      ghost var was, s := argv[..], State();
      var to := CutAtBar(argv, from, argc, args);
      if to < 0 {
        NothingToCut(was, from, args);
        SpawnLast(argv, from, args);
        return [Child(args, s.fds)];
      }
      CutLeaves(was, from, args, to);
      ghost var r, w, child := SpawnWriter(argv, from, args[..to]);
      ghost var m, rest := State(), args[to + 1..];
      added := ExecCommand(argv, from + to + 1, argc - to - 1, rest);
      RanMore(s, m, State(), r, w, child, added, Split(rest));
      added := [child] + added;
      CutMore(was, argv[..], from, args, to);
    }
  }
}
