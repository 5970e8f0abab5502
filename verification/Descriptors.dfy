/** Descriptor tables, and how the children of a pipeline are connected. */
module Descriptors {
  import opened Segments

  datatype Option<T> = None | Some(value: T)

  // What a descriptor refers to: a file from outside, or one end of a pipe.
  datatype End = Outside(file: int) | ReadEnd(pipe: nat) | WriteEnd(pipe: nat)

  type Table = map<nat, End>

  datatype Child = Child(args: Args, fds: Table)

  // The shell's descriptors, how many pipes there have been, and its children as they were when they called exec.
  datatype Process = Process(fds: Table, pipes: nat, children: seq<Child>) {
    ghost predicate Valid() {
      PipesBelow(fds, pipes)
    }
  }

  /** What descriptor d refers to, if it is open. */
  function At(fds: Table, d: nat): Option<End> {
    if d in fds then Some(fds[d]) else None
  }

  ghost predicate Holds(fds: Table, end: End) {
    exists d :: d in fds && fds[d] == end
  }

  /** No pipe with this number or a later one has been made. */
  ghost predicate PipesBelow(fds: Table, limit: nat) {
    forall p: nat :: Holds(fds, ReadEnd(p)) || Holds(fds, WriteEnd(p)) ==> p < limit
  }

  // ----- what a pipeline should be -----

  /** A child's three standard descriptors. */
  ghost predicate Standard(child: Child, stdin: Option<End>, stdout: Option<End>, stderr: Option<End>) {
    At(child.fds, 0) == stdin && At(child.fds, 1) == stdout && At(child.fds, 2) == stderr
  }

  /** Pipe first + i leads from child i to child i + 1, and both ends of the pipeline are those given. */
  ghost predicate Wired(
      children: seq<Child>, stdin: Option<End>, stdout: Option<End>, stderr: Option<End>, first: nat) {
    forall i :: 0 <= i < |children| ==>
      Standard(children[i],
               if i == 0 then stdin else Some(ReadEnd(first + i - 1)),
               if i == |children| - 1 then stdout else Some(WriteEnd(first + i)),
               stderr)
  }

  /** One child for each segment, and no child could read what it writes. */
  ghost predicate OneChildEach(children: seq<Child>, segments: seq<Args>, first: nat) {
    && |children| == |segments|
    && forall i :: 0 <= i < |children| ==>
         children[i].args == segments[i] && !Holds(children[i].fds, ReadEnd(first + i))
  }

  /** The write end of each pipe is held by the child that writes to it and by nobody else. */
  ghost predicate OneWriterEach(children: seq<Child>, parent: Table, first: nat) {
    && (forall p: nat :: first <= p ==> !Holds(parent, WriteEnd(p)))
    && (forall i, p: nat :: 0 <= i < |children| && first <= p ==>
          (Holds(children[i].fds, WriteEnd(p)) <==> p == first + i && i < |children| - 1))
  }

  /** The write ends of older pipes that a child holds were handed down from the parent. */
  ghost predicate Inherited(children: seq<Child>, parent: Table, first: nat) {
    forall i, p: nat :: 0 <= i < |children| && p < first && Holds(children[i].fds, WriteEnd(p)) ==>
                     Holds(parent, WriteEnd(p))
  }

  /** What child i of n has: the pipe it reads from as 0, the pipe it writes to as 1, all else that was open at the
      call, and in the places that were closed no more than that write end and read ends of the pipes before it. */
  ghost predicate HandedTo(child: Table, fds: Table, first: nat, i: nat, n: nat) {
    && At(child, 0) == (if i == 0 then At(fds, 0) else Some(ReadEnd(first + i - 1)))
    && (i + 1 < n ==> At(child, 1) == Some(WriteEnd(first + i)))
    && (i + 1 == n && 1 in fds ==> At(child, 1) == At(fds, 1))
    && (forall d :: d in fds && d >= 2 ==> d in child && child[d] == fds[d])
    && (forall d :: d in child && d !in fds ==>
          || (i + 1 < n && child[d] == WriteEnd(first + i))
          || (child[d].ReadEnd? && first <= child[d].pipe < first + i))
  }

  ghost predicate HandedDown(children: seq<Child>, fds: Table, first: nat) {
    forall i: nat :: i < |children| ==> HandedTo(children[i].fds, fds, first, i, |children|)
  }

  /** The parent keeps its descriptors except 0, which the last pipe replaces, and gains read ends only. */
  ghost predicate ParentAfter(fds: Table, first: nat, after: Table, next: nat) {
    && first <= next && PipesBelow(after, next)
    && At(after, 0) == (if next == first then At(fds, 0) else Some(ReadEnd(next - 1)))
    && (forall d :: d in fds && d != 0 ==> d in after && after[d] == fds[d])
    && (forall end :: Holds(after, end) && !Holds(fds, end) ==> end.ReadEnd? && first <= end.pipe)
  }

  /** The standard descriptors that were open at the call leave a pipeline of n children its place. Standard input
      may be closed, since the first pipe takes its place. */
  predicate RoomForPipes(fds: Table, n: nat) {
    n == 1 || (1 in fds && 2 in fds) || (n == 2 && 0 !in fds && 1 !in fds)
  }

  /** Write ends stay where they belong, and the parent keeps what it had. */
  ghost predicate Sealed(children: seq<Child>, fds: Table, after: Table, first: nat, next: nat) {
    OneWriterEach(children, after, first) && Inherited(children, fds, first) && ParentAfter(fds, first, after, next)
  }

  /** The pipeline is connected as it should be exactly when there is room for its pipes. */
  ghost predicate Connected(children: seq<Child>, fds: Table, first: nat) {
    Wired(children, At(fds, 0), At(fds, 1), At(fds, 2), first) <==> RoomForPipes(fds, |children|)
  }

  /** The children for the given segments when the parent has the table fds, and `after` in the end; the pipes
      are those from first up to, not including, next. */
  ghost predicate Launched(added: seq<Child>, segments: seq<Args>, fds: Table, after: Table, first: nat, next: nat) {
    && |segments| > 0 && next == first + |segments| - 1
    && OneChildEach(added, segments, first)
    && Sealed(added, fds, after, first, next) && HandedDown(added, fds, first)
    && Connected(added, fds, first)
  }

  /** What a call of exec_command does for the given segments between the states s and t. */
  ghost predicate Ran(s: Process, t: Process, added: seq<Child>, segments: seq<Args>) {
    t.children == s.children + added && Launched(added, segments, s.fds, t.fds, s.pipes, t.pipes)
  }

  // ----- the descriptor tables around one fork -----

  /** pipe, in a table where r and w are free. */
  function WithPipe(fds: Table, r: nat, w: nat, p: nat): Table {
    fds[r := ReadEnd(p)][w := WriteEnd(p)]
  }

  /** The child: close(fd[0]), dup2(fd[1], 1). */
  function ChildTable(fds: Table, r: nat, w: nat): Table
    requires w in fds && w != r
  {
    var closed := fds - {r};
    closed[1 := closed[w]]
  }

  /** The parent: close(fd[1]), dup2(fd[0], 0). */
  function ParentTable(fds: Table, r: nat, w: nat): Table
    requires r in fds && w != r
  {
    var closed := fds - {w};
    closed[0 := closed[r]]
  }

  /** A pipe takes the two lowest free descriptors. */
  ghost predicate Taken(fds: Table, r: nat, w: nat) {
    && r !in fds && (forall k: nat :: k < r ==> k in fds)
    && w !in fds && r < w && (forall k: nat :: r < k < w ==> k in fds)
  }

  /** What a child behind a new pipe p has: everything that was open at the fork, but the write end as 1 and w. */
  ghost predicate ChildTurned(fds: Table, r: nat, w: nat, child: Table, p: nat) {
    child == fds[w := WriteEnd(p)][1 := WriteEnd(p)]
  }

  /** What the parent goes on with: everything that was open, but the read end as 0 and r. */
  ghost predicate ParentTurned(fds: Table, r: nat, w: nat, parent: Table, p: nat) {
    parent == fds[r := ReadEnd(p)][0 := ReadEnd(p)]
  }

  lemma ChildTurns(fds: Table, r: nat, w: nat, p: nat)
    requires Taken(fds, r, w)
    ensures ChildTurned(fds, r, w, ChildTable(WithPipe(fds, r, w, p), r, w), p)
  {
    var t, u := ChildTable(WithPipe(fds, r, w, p), r, w), fds[w := WriteEnd(p)][1 := WriteEnd(p)];
    assert forall d :: d in t <==> d in u;
    assert forall d :: d in t ==> t[d] == u[d];
  }

  lemma ParentTurns(fds: Table, r: nat, w: nat, p: nat)
    requires Taken(fds, r, w)
    ensures ParentTurned(fds, r, w, ParentTable(WithPipe(fds, r, w, p), r, w), p)
  {
    var t, u := ParentTable(WithPipe(fds, r, w, p), r, w), fds[r := ReadEnd(p)][0 := ReadEnd(p)];
    assert forall d :: d in t <==> d in u;
    assert forall d :: d in t ==> t[d] == u[d];
  }

  /** What follows for the standard descriptors and the pipe ends of the child. */
  lemma ChildEnds(fds: Table, r: nat, w: nat, child: Table, p: nat)
    requires PipesBelow(fds, p) && Taken(fds, r, w) && ChildTurned(fds, r, w, child, p)
    ensures At(child, 0) == At(fds, 0) && At(child, 1) == Some(WriteEnd(p))
    ensures At(child, 2) == (if w == 2 then Some(WriteEnd(p)) else At(fds, 2))
    ensures !Holds(child, ReadEnd(p))
    ensures forall q: nat :: p <= q ==> (Holds(child, WriteEnd(q)) <==> q == p)
    ensures forall q: nat :: q < p && Holds(child, WriteEnd(q)) ==> Holds(fds, WriteEnd(q))
  {
    forall q: nat, d | d in child && child[d] == WriteEnd(q) && q != p ensures Holds(fds, WriteEnd(q)) {
      assert d in fds && fds[d] == WriteEnd(q);
    }
    assert child[1] == WriteEnd(p);
  }

  lemma ParentEnds(fds: Table, r: nat, w: nat, parent: Table, p: nat)
    requires PipesBelow(fds, p) && Taken(fds, r, w) && ParentTurned(fds, r, w, parent, p)
    ensures At(parent, 0) == Some(ReadEnd(p))
    ensures At(parent, 1) == (if r == 1 then Some(ReadEnd(p)) else At(fds, 1))
    ensures At(parent, 2) == (if r == 2 then Some(ReadEnd(p)) else At(fds, 2))
    ensures PipesBelow(parent, p + 1)
    ensures forall end :: Holds(parent, end) && !Holds(fds, end) ==> end == ReadEnd(p)
    ensures !Holds(parent, WriteEnd(p))
  {
    forall end, d | d in parent && parent[d] == end && end != ReadEnd(p) ensures Holds(fds, end) {
      assert d in fds && fds[d] == end;
    }
  }

  /** One child behind a new pipe, and the parent's turn to the next segment. */
  ghost predicate Spawned(s: Process, t: Process, r: nat, w: nat, child: Child) {
    && s.Valid() && Taken(s.fds, r, w) && t.pipes == s.pipes + 1 && t.children == s.children + [child]
    && ChildTurned(s.fds, r, w, child.fds, s.pipes)
    && ParentTurned(s.fds, r, w, t.fds, s.pipes)
  }

  // ----- the first child in front of the rest of the pipeline -----

  lemma ChildrenMore(child: Child, rest: seq<Child>, segments: seq<Args>, first: nat)
    requires OneChildEach(rest, segments, first + 1) && !Holds(child.fds, ReadEnd(first))
    ensures OneChildEach([child] + rest, [child.args] + segments, first)
  {
    var children := [child] + rest;
    forall i | 1 <= i < |children|
      ensures children[i].args == ([child.args] + segments)[i] && !Holds(children[i].fds, ReadEnd(first + i))
    {
      assert children[i] == rest[i - 1];
    }
  }

  lemma OneWriterMore(child: Child, rest: seq<Child>, middle: Table, parent: Table, first: nat)
    requires OneWriterEach(rest, parent, first + 1) && Inherited(rest, middle, first + 1) && |rest| > 0
    requires !Holds(middle, WriteEnd(first)) && !Holds(parent, WriteEnd(first))
    requires forall p: nat :: first <= p ==> (Holds(child.fds, WriteEnd(p)) <==> p == first)
    ensures OneWriterEach([child] + rest, parent, first)
  {
    var children := [child] + rest;
    forall i, p: nat | 0 <= i < |children| && first <= p
      ensures Holds(children[i].fds, WriteEnd(p)) <==> p == first + i && i < |children| - 1
    {
      if i > 0 {
        assert children[i] == rest[i - 1];
        if p > first {
          assert Holds(rest[i - 1].fds, WriteEnd(p)) <==> p == first + 1 + (i - 1) && i - 1 < |rest| - 1;
        }
      }
    }
    forall p: nat | first <= p ensures !Holds(parent, WriteEnd(p)) {
      assert p == first || first + 1 <= p;
    }
  }

  lemma InheritedMore(child: Child, rest: seq<Child>, middle: Table, fds: Table, first: nat)
    requires Inherited(rest, middle, first + 1)
    requires forall p: nat :: p < first && Holds(child.fds, WriteEnd(p)) ==> Holds(fds, WriteEnd(p))
    requires forall end :: Holds(middle, end) && !Holds(fds, end) ==> end == ReadEnd(first)
    ensures Inherited([child] + rest, fds, first)
  {
    var children := [child] + rest;
    forall i, p: nat | 0 <= i < |children| && p < first && Holds(children[i].fds, WriteEnd(p))
      ensures Holds(fds, WriteEnd(p))
    {
      if i > 0 {
        assert children[i] == rest[i - 1];
      }
    }
  }

  lemma ParentMore(fds: Table, middle: Table, after: Table, first: nat, next: nat)
    requires At(middle, 0) == Some(ReadEnd(first))
    requires forall d :: d in fds && d != 0 ==> d in middle && middle[d] == fds[d]
    requires forall end :: Holds(middle, end) && !Holds(fds, end) ==> end == ReadEnd(first)
    requires ParentAfter(middle, first + 1, after, next)
    ensures ParentAfter(fds, first, after, next)
  {
  }

  /** The wiring is right when it is right around the first pipe and behind it. */
  lemma WiredSplits(child: Child, rest: seq<Child>, stdin: Option<End>, stdout: Option<End>, stderr: Option<End>,
                    first: nat)
    requires |rest| > 0
    ensures Wired([child] + rest, stdin, stdout, stderr, first) <==>
            && Standard(child, stdin, Some(WriteEnd(first)), stderr)
            && Wired(rest, Some(ReadEnd(first)), stdout, stderr, first + 1)
  {
    var children := [child] + rest;
    assert children[0] == child;
    forall i | 1 <= i < |children| ensures children[i] == rest[i - 1] {
    }
    if Wired(children, stdin, stdout, stderr, first) {
      forall i | 0 <= i < |rest|
        ensures Standard(rest[i], if i == 0 then Some(ReadEnd(first)) else Some(ReadEnd(first + 1 + i - 1)),
                         if i == |rest| - 1 then stdout else Some(WriteEnd(first + 1 + i)), stderr)
      {
        assert children[i + 1] == rest[i];
      }
    }
  }

  /** Two different ends for the last child cannot both be right. */
  lemma WiredOnce(children: seq<Child>, stdin: Option<End>, stdout: Option<End>, stderr: Option<End>,
                  stdout': Option<End>, stderr': Option<End>, first: nat)
    requires |children| > 0 && Wired(children, stdin, stdout, stderr, first)
    requires Wired(children, stdin, stdout', stderr', first)
    ensures stdout == stdout' && stderr == stderr'
  {
    var last := children[|children| - 1];
    assert At(last.fds, 1) == stdout == stdout';
  }

  lemma WiringMore(child: Child, rest: seq<Child>, fds: Table, r: nat, w: nat, middle: Table, first: nat)
    requires PipesBelow(fds, first) && Taken(fds, r, w) && |rest| > 0
    requires ChildTurned(fds, r, w, child.fds, first) && ParentTurned(fds, r, w, middle, first)
    requires Connected(rest, middle, first + 1)
    ensures Connected([child] + rest, fds, first)
  {
    ChildEnds(fds, r, w, child.fds, first);
    ParentEnds(fds, r, w, middle, first);
    WiredSplits(child, rest, At(fds, 0), At(fds, 1), At(fds, 2), first);
    var fits := Wired(rest, At(middle, 0), At(fds, 1), At(fds, 2), first + 1);
    if (r == 1 || r == 2) && fits && RoomForPipes(middle, |rest|) {
      WiredOnce(rest, At(middle, 0), At(fds, 1), At(fds, 2), At(middle, 1), At(middle, 2), first + 1);
    }
    assert r == 1 ==> 0 in fds;
    assert r == 2 ==> 0 in fds && 1 in fds;
    assert r >= 3 ==> 0 in fds && 1 in fds && 2 in fds;
    assert r == 0 && w >= 2 ==> 1 in fds;
    assert r == 0 && w >= 3 ==> 2 in fds;
    assert r == 1 && w >= 3 ==> 2 in fds;
  }

  lemma SealedMore(child: Child, rest: seq<Child>, fds: Table, r: nat, w: nat, middle: Table, after: Table,
                   first: nat, next: nat)
    requires PipesBelow(fds, first) && Taken(fds, r, w) && |rest| > 0
    requires ChildTurned(fds, r, w, child.fds, first) && ParentTurned(fds, r, w, middle, first)
    requires Sealed(rest, middle, after, first + 1, next)
    ensures Sealed([child] + rest, fds, after, first, next)
  {
    ChildEnds(fds, r, w, child.fds, first);
    ParentEnds(fds, r, w, middle, first);
    ParentMore(fds, middle, after, first, next);
    OneWriterMore(child, rest, middle, after, first);
    InheritedMore(child, rest, middle, fds, first);
  }

  /** What a later child is handed by the parent after the first pipe, it is handed by the parent before it. */
  lemma HandedOn(later: Table, fds: Table, r: nat, w: nat, middle: Table, first: nat, i: nat, n: nat)
    requires Taken(fds, r, w) && ParentTurned(fds, r, w, middle, first) && i < n
    requires HandedTo(later, middle, first + 1, i, n)
    ensures HandedTo(later, fds, first, i + 1, n + 1)
  {
    assert middle[0] == ReadEnd(first);
    forall d | d in later && d !in fds
      ensures (i + 2 < n + 1 && later[d] == WriteEnd(first + i + 1))
              || (later[d].ReadEnd? && first <= later[d].pipe < first + i + 1)
    {
      if d in middle {
        assert d == r || d == 0;
      }
    }
  }

  lemma HandedFirst(child: Table, fds: Table, r: nat, w: nat, first: nat, n: nat)
    requires Taken(fds, r, w) && n > 1 && ChildTurned(fds, r, w, child, first)
    ensures HandedTo(child, fds, first, 0, n)
  {
  }

  lemma HandedMore(child: Child, rest: seq<Child>, fds: Table, r: nat, w: nat, middle: Table, first: nat)
    requires Taken(fds, r, w) && |rest| > 0
    requires ChildTurned(fds, r, w, child.fds, first) && ParentTurned(fds, r, w, middle, first)
    requires HandedDown(rest, middle, first + 1)
    ensures HandedDown([child] + rest, fds, first)
  {
    var children := [child] + rest;
    HandedFirst(child.fds, fds, r, w, first, |children|);
    forall i: nat | i < |children| ensures HandedTo(children[i].fds, fds, first, i, |children|) {
      if i > 0 {
        assert children[i] == rest[i - 1];
        HandedOn(rest[i - 1].fds, fds, r, w, middle, first, i - 1, |rest|);
      }
    }
  }

  lemma LaunchedMore(child: Child, rest: seq<Child>, segments: seq<Args>, fds: Table, r: nat, w: nat, middle: Table,
                     after: Table, first: nat, next: nat)
    requires PipesBelow(fds, first) && Taken(fds, r, w)
    requires ChildTurned(fds, r, w, child.fds, first) && ParentTurned(fds, r, w, middle, first)
    requires Launched(rest, segments, middle, after, first + 1, next)
    ensures Launched([child] + rest, [child.args] + segments, fds, after, first, next)
  {
    ChildEnds(fds, r, w, child.fds, first);
    SealedMore(child, rest, fds, r, w, middle, after, first, next);
    HandedMore(child, rest, fds, r, w, middle, first);
    ChildrenMore(child, rest, segments, first);
    WiringMore(child, rest, fds, r, w, middle, first);
  }

  lemma RanLast(s: Process, args: Args)
    requires s.Valid()
    ensures var child := Child(args, s.fds);
      Ran(s, s.(children := s.children + [child]), [child], [args])
  {
  }

  lemma RanFrom(m: Process, t: Process, added: seq<Child>, segments: seq<Args>, first: nat)
    requires Ran(m, t, added, segments) && m.pipes == first + 1
    ensures Launched(added, segments, m.fds, t.fds, first + 1, t.pipes)
  {
  }

  lemma SpawnedMore(s: Process, m: Process, t: Process, r: nat, w: nat, child: Child, added: seq<Child>,
                    segments: seq<Args>)
    requires Spawned(s, m, r, w, child) && Ran(m, t, added, segments)
    ensures Launched([child] + added, [child.args] + segments, s.fds, t.fds, s.pipes, t.pipes)
  {
    RanFrom(m, t, added, segments, s.pipes);
    LaunchedMore(child, added, segments, s.fds, r, w, m.fds, t.fds, s.pipes, t.pipes);
  }

  lemma RanMore(s: Process, m: Process, t: Process, r: nat, w: nat, child: Child, added: seq<Child>,
                segments: seq<Args>)
    requires Spawned(s, m, r, w, child) && Ran(m, t, added, segments)
    ensures Ran(s, t, [child] + added, [child.args] + segments)
  {
    SpawnedMore(s, m, t, r, w, child, added, segments);
    Associates(s.children, child, added);
  }

  lemma Associates(before: seq<Child>, child: Child, after: seq<Child>)
    ensures (before + [child]) + after == before + ([child] + after)
  {
  }

  /** The tables around a fork with standard output closed and the other two open. */
  lemma ClosedTables(input: int, error: int)
    ensures var fds: Table := map[0 := Outside(input), 2 := Outside(error)];
      && PipesBelow(fds, 0) && Taken(fds, 1, 3)
      && ChildTurned(fds, 1, 3, ChildTable(WithPipe(fds, 1, 3, 0), 1, 3), 0)
      && ParentTurned(fds, 1, 3, ParentTable(WithPipe(fds, 1, 3, 0), 1, 3), 0)
  {
    var fds: Table := map[0 := Outside(input), 2 := Outside(error)];
    assert PipesBelow(fds, 0) && Taken(fds, 1, 3);
    ChildTurns(fds, 1, 3, 0);
    ParentTurns(fds, 1, 3, 0);
  }

  /** With standard output closed and the other two open, the pipe between two commands begins at descriptor 1: the
      second command gets the end it reads from as its standard output. */
  lemma ClosedOutput(input: int, error: int, first: Args, second: Args)
    ensures var fds: Table := map[0 := Outside(input), 2 := Outside(error)];
      var child := Child(first, ChildTable(WithPipe(fds, 1, 3, 0), 1, 3));
      var last := Child(second, ParentTable(WithPipe(fds, 1, 3, 0), 1, 3));
      && Ran(Process(fds, 0, []), Process(last.fds, 1, [child, last]), [child, last], [first, second])
      && At(last.fds, 0) == At(last.fds, 1) == Some(ReadEnd(0)) && At(fds, 1) == None
      && !Wired([child, last], At(fds, 0), At(fds, 1), At(fds, 2), 0)
  {
    var fds: Table := map[0 := Outside(input), 2 := Outside(error)];
    ClosedTables(input, error);
    var child := Child(first, ChildTable(WithPipe(fds, 1, 3, 0), 1, 3));
    var last := Child(second, ParentTable(WithPipe(fds, 1, 3, 0), 1, 3));
    TwoRan(fds, 1, 3, child, last);
  }

  /** A pipeline of two commands. */
  lemma TwoRan(fds: Table, r: nat, w: nat, child: Child, last: Child)
    requires PipesBelow(fds, 0) && Taken(fds, r, w)
    requires ChildTurned(fds, r, w, child.fds, 0) && ParentTurned(fds, r, w, last.fds, 0)
    ensures Ran(Process(fds, 0, []), Process(last.fds, 1, [child, last]), [child, last], [child.args, last.args])
  {
    ParentEnds(fds, r, w, last.fds, 0);
    var start, middle := Process(fds, 0, []), Process(last.fds, 1, [child]);
    RanLast(middle, last.args);
    RanMore(start, middle, middle.(children := middle.children + [last]), r, w, child, [last], [last.args]);
    assert [child] + [last] == [child, last] && [child.args] + [last.args] == [child.args, last.args];
  }
}
