/** The filtering threads as a state machine. One step is the work on one pixel, one operation on pp_sem, or
    one access to pixels_processed. */
module ParallelFilter {
  import opened Counting
  import opened GridSum
  import opened Convolution

  datatype Pc =
    | TLoop              // the loop test, and a pixel
    | TTry               // sem_trywait
    | TRead              // reads pixels_processed
    | TStore(read: nat)  // writes pixels_processed, clears processed
    | TPost              // sem_post
    | TDone

  datatype Thread = Thread(pc: Pc, pixel: nat, processed: nat)

  datatype Cell = Unset | Set(p: pix)

  // The filter and the image it is applied to.
  datatype Job = Job(data: seq<real>, size: nat, from: Picture, pixelCount: nat) {
    ghost predicate Valid() {
      from.Valid() && pixelCount == from.width * from.height
    }

    ghost function Target(pixel: nat): pix
      requires Valid()
    {
      Filtered(data, size, from, pixel % from.width, pixel / from.width)
    }
  }

  // `writes` counts how often each pixel of the output has been written.
  datatype State = State(threads: seq<Thread>, out: seq<Cell>, writes: seq<nat>, sem: nat, pixelsProcessed: nat)

  ghost function Init(count: nat, n: nat): State {
    State(seq(count, t requires 0 <= t => Thread(TLoop, t, 0)), seq(n, _ => Unset), seq(n, _ => 0), 1, 0)
  }

  ghost predicate Enabled(s: State, t: nat) {
    t < |s.threads| && !s.threads[t].pc.TDone?
  }

  ghost predicate Fits(s: State, job: Job) {
    job.Valid() && |s.out| == |s.writes| == job.pixelCount
  }

  function SetT(s: State, t: nat, thread: Thread): State
    requires t < |s.threads|
  {
    s.(threads := s.threads[t := thread])
  }

  ghost function Step(s: State, t: nat, job: Job): State
    requires Enabled(s, t) && Fits(s, job)
  {
    var me, count := s.threads[t], |s.threads|;
    match me.pc
    case TLoop =>
      if me.pixel < job.pixelCount then
        WritePixel(SetT(s, t, Thread(if me.processed + 1 > count + 5 then TTry else TLoop,
                                     me.pixel + count, me.processed + 1)),
                   me.pixel, job)
      else
        SetT(s, t, me.(pc := TDone))
    case TTry =>
      if s.sem > 0 then SetT(s, t, me.(pc := TRead)).(sem := s.sem - 1) else SetT(s, t, me.(pc := TLoop))
    case TRead => SetT(s, t, me.(pc := TStore(s.pixelsProcessed)))
    case TStore(read) =>
      SetT(s, t, me.(pc := TPost, processed := 0)).(pixelsProcessed := read + me.processed)
    case TPost => SetT(s, t, me.(pc := TLoop)).(sem := s.sem + 1)
  }

  /** pgm_set_pixel of the filtered pixel, which lands where the stride is. */
  ghost function WritePixel(s: State, pixel: nat, job: Job): (r: State)
    requires Fits(s, job) && pixel < job.pixelCount
    ensures r == s.(out := s.out[pixel := Set(job.Target(pixel))], writes := s.writes[pixel := s.writes[pixel] + 1])
  {
    IndexDivides(pixel, job.from.width);
    var at := Index(pixel % job.from.width, pixel / job.from.width, job.from.width);
    s.(out := s.out[at := Set(job.Target(pixel))], writes := s.writes[at := s.writes[at] + 1])
  }

  /** A finite piece of an execution; the actors say which thread takes each step. */
  ghost predicate Run(states: seq<State>, actors: seq<nat>, count: nat, job: Job) {
    && |states| == |actors| + 1 && job.Valid()
    && states[0] == Init(count, job.pixelCount)
    && forall n :: 0 <= n < |actors| ==>
         Enabled(states[n], actors[n]) && Fits(states[n], job) && states[n + 1] == Step(states[n], actors[n], job)
  }

  ghost predicate Stuck(s: State) {
    forall t: nat :: !Enabled(s, t)
  }

  // ----- the invariant -----

  function Inside(t: Thread): nat {
    if t.pc.TRead? || t.pc.TStore? || t.pc.TPost? then 1 else 0
  }

  function Processed(t: Thread): nat {
    t.processed
  }

  function Done(c: Cell): nat {
    if c.Set? then 1 else 0
  }

  /** The thread that pixel p belongs to has passed it. */
  ghost predicate Passed(s: State, p: nat)
    requires |s.threads| > 0
  {
    p < s.threads[p % |s.threads|].pixel
  }

  ghost predicate Strided(s: State)
    requires |s.threads| > 0
  {
    forall t :: 0 <= t < |s.threads| ==> s.threads[t].pixel >= t && s.threads[t].pixel % |s.threads| == t
  }

  /** A pixel has its final value, and has been written once, when its thread has passed it; else it has not been
      touched. */
  ghost predicate Painted(s: State, job: Job)
    requires |s.threads| > 0 && Fits(s, job)
  {
    forall p: nat :: p < job.pixelCount ==>
      && s.out[p] == (if Passed(s, p) then Set(job.Target(p)) else Unset)
      && s.writes[p] == if Passed(s, p) then 1 else 0
  }

  ghost predicate Locked(s: State) {
    && s.sem + Sum(s.threads, Inside) == 1
    && forall t :: 0 <= t < |s.threads| && s.threads[t].pc.TStore? ==> s.threads[t].pc.read == s.pixelsProcessed
  }

  /** No pixel done is forgotten, and none counted twice. */
  ghost predicate Counted(s: State) {
    s.pixelsProcessed + Sum(s.threads, Processed) == Sum(s.out, Done)
  }

  ghost predicate Finished(s: State, job: Job) {
    forall t :: 0 <= t < |s.threads| && s.threads[t].pc.TDone? ==> s.threads[t].pixel >= job.pixelCount
  }

  /** A thread adds to the progress counter in batches of more than count + 5 pixels. */
  ghost predicate Batched(s: State) {
    forall t :: 0 <= t < |s.threads| && (s.threads[t].pc.TTry? || s.threads[t].pc.TRead? || s.threads[t].pc.TStore?) ==>
                  s.threads[t].processed > |s.threads| + 5
  }

  ghost predicate Inv(s: State, count: nat, job: Job) {
    && |s.threads| == count > 0 && Fits(s, job)
    && Strided(s) && Painted(s, job) && Locked(s) && Counted(s) && Finished(s, job)
    && Batched(s)
  }

  lemma NextInStride(q: nat, p: nat, count: nat)
    requires count > 0
    ensures (q + count) % count == q % count
    ensures q < p && p % count == q % count ==> q + count <= p
  {
    var a, b := p / count, q / count;
    IndexDivides(p, count);
    IndexDivides(q, count);
    assert (b + 1) * count + q % count == q + count;
    ModOnce(b + 1, q % count, count);
    if q < p && p % count == q % count {
      if a < b {
        RowAbove(a, b, count);
      } else if b < a {
        RowAbove(b, a, count);
      }
    }
  }

  lemma ModOnce(k: nat, r: nat, m: nat)
    requires r < m
    ensures (k * m + r) % m == r
  {
    IndexDivides(k * m + r, m);
    IndexInjectiveAt(r, k, (k * m + r) % m, (k * m + r) / m, m);
  }

  lemma IndexInjectiveAt(x: nat, y: nat, x': nat, y': nat, width: nat)
    requires x < width && x' < width && Index(x, y, width) == Index(x', y', width)
    ensures x == x' && y == y'
  {
    if x != x' || y != y' {
      IndexInjective(x, y, x', y', width);
    }
  }

  lemma ModIsAtMost(p: nat, count: nat)
    requires count > 0
    ensures p % count <= p && (p < count ==> p % count == p)
  {
  }

  lemma InitPaints(count: nat, job: Job)
    requires count > 0 && job.Valid()
    ensures var s := Init(count, job.pixelCount); Fits(s, job) && Strided(s) && Painted(s, job) && Finished(s, job)
  {
    var s := Init(count, job.pixelCount);
    forall t: nat | t < count ensures s.threads[t].pixel % count == t {
      ModIsAtMost(t, count);
    }
    forall p: nat | p < job.pixelCount ensures !Passed(s, p) {
      ModIsAtMost(p, count);
    }
  }

  lemma InitInv(count: nat, job: Job)
    requires count > 0 && job.Valid()
    ensures Inv(Init(count, job.pixelCount), count, job)
  {
    var s := Init(count, job.pixelCount);
    SumZero(s.threads, Inside);
    SumZero(s.threads, Processed);
    SumZero(s.out, Done);
    InitPaints(count, job);
  }

  lemma WriteKeepsPainted(s: State, r: State, t: nat, job: Job)
    requires |s.threads| > 0 && Enabled(s, t) && Fits(s, job) && Strided(s) && Painted(s, job)
    requires s.threads[t].pc.TLoop? && s.threads[t].pixel < job.pixelCount
    requires r == Step(s, t, job) && Fits(r, job) && |r.threads| > 0
    ensures Strided(r) && Painted(r, job) && Sum(r.out, Done) == Sum(s.out, Done) + 1
  {
    var q, count := s.threads[t].pixel, |s.threads|;
    IndexDivides(q, job.from.width);
    NextInStride(q, q, count);
    assert !Passed(s, q);
    SumUpdate(s.out, q, Set(job.Target(q)), Done);
    forall p: nat | p < job.pixelCount ensures Passed(r, p) <==> Passed(s, p) || p == q {
      NextInStride(q, p, count);
    }
  }

  lemma WriteKeepsRest(s: State, t: nat, job: Job)
    requires Enabled(s, t) && Fits(s, job) && Locked(s) && Counted(s)
    requires s.threads[t].pc.TLoop? && s.threads[t].pixel < job.pixelCount
    requires Sum(Step(s, t, job).out, Done) == Sum(s.out, Done) + 1
    ensures var r := Step(s, t, job); Locked(r) && Counted(r)
  {
    var r := Step(s, t, job);
    SumUpdate(s.threads, t, r.threads[t], Inside);
    SumUpdate(s.threads, t, r.threads[t], Processed);
  }

  /** The steps that do not write a pixel. */
  lemma OtherKeepsPainted(s: State, r: State, t: nat, job: Job)
    requires |s.threads| > 0 && Enabled(s, t) && Fits(s, job) && Strided(s) && Painted(s, job)
    requires !(s.threads[t].pc.TLoop? && s.threads[t].pixel < job.pixelCount)
    requires r == Step(s, t, job) && Fits(r, job) && |r.threads| > 0
    ensures Strided(r) && Painted(r, job)
  {
    forall p: nat ensures Passed(r, p) == Passed(s, p) {
    }
  }

  lemma OnlyOneInside(s: State, t: nat, u: nat)
    requires Locked(s) && t < |s.threads| && u < |s.threads| && t != u && Inside(s.threads[t]) == 1
    ensures Inside(s.threads[u]) == 0 && s.sem == 0
  {
    var out := s.threads[t].(pc := TLoop);
    SumUpdate(s.threads, t, out, Inside);
    SumAtLeast(s.threads[t := out], u, Inside);
  }

  lemma OtherKeepsRest(s: State, t: nat, job: Job)
    requires Enabled(s, t) && Fits(s, job) && Locked(s) && Counted(s)
    requires !(s.threads[t].pc.TLoop? && s.threads[t].pixel < job.pixelCount)
    ensures var r := Step(s, t, job); Locked(r) && Counted(r)
  {
    var r := Step(s, t, job);
    SumUpdate(s.threads, t, r.threads[t], Inside);
    SumUpdate(s.threads, t, r.threads[t], Processed);
    if s.threads[t].pc.TStore? {
      forall u: nat | u < |s.threads| && u != t ensures !s.threads[u].pc.TStore? {
        OnlyOneInside(s, t, u);
      }
    }
  }

  lemma StepIsLocal(s: State, t: nat, job: Job)
    requires Enabled(s, t) && Fits(s, job)
    ensures var r := Step(s, t, job);
      && r.threads == s.threads[t := r.threads[t]] && Fits(r, job)
      && (r.threads[t].pc.TDone? ==> r.threads[t].pixel >= job.pixelCount)
  {
    var me := s.threads[t];
    if me.pc.TLoop? && me.pixel < job.pixelCount {
      assert Step(s, t, job).threads[t].pixel == me.pixel + |s.threads|;
    }
  }

  lemma StepKeepsBatched(s: State, t: nat, job: Job)
    requires Enabled(s, t) && Fits(s, job) && Batched(s)
    ensures Batched(Step(s, t, job))
  {
    StepIsLocal(s, t, job);
  }

  lemma StepKeepsInv(s: State, t: nat, count: nat, job: Job)
    requires Inv(s, count, job) && Enabled(s, t)
    ensures Inv(Step(s, t, job), count, job)
  {
    StepIsLocal(s, t, job);
    StepKeepsBatched(s, t, job);
    if s.threads[t].pc.TLoop? && s.threads[t].pixel < job.pixelCount {
      WriteKeepsPainted(s, Step(s, t, job), t, job);
      WriteKeepsRest(s, t, job);
    } else {
      OtherKeepsPainted(s, Step(s, t, job), t, job);
      OtherKeepsRest(s, t, job);
    }
  }

  // ----- termination -----

  function ThreadWork(n: nat): Thread -> nat {
    (t: Thread) =>
      5 * (if t.pixel < n then n - t.pixel else 0) +
      match t.pc
      case TDone => 0
      case TLoop => 1
      case TPost => 2
      case TStore(_) => 3
      case TRead => 4
      case TTry => 5
  }

  lemma OwnWork(s: State, t: nat, job: Job)
    requires Enabled(s, t) && Fits(s, job)
    ensures ThreadWork(job.pixelCount)(Step(s, t, job).threads[t]) < ThreadWork(job.pixelCount)(s.threads[t])
  {
  }

  lemma StepDoesWork(s: State, t: nat, job: Job)
    requires Enabled(s, t) && Fits(s, job)
    ensures Sum(Step(s, t, job).threads, ThreadWork(job.pixelCount)) < Sum(s.threads, ThreadWork(job.pixelCount))
  {
    StepIsLocal(s, t, job);
    OwnWork(s, t, job);
    SumUpdate(s.threads, t, Step(s, t, job).threads[t], ThreadWork(job.pixelCount));
  }

  // ----- whole runs -----

  lemma {:induction false} RunKeepsInv(states: seq<State>, actors: seq<nat>, count: nat, job: Job, n: nat)
    requires Run(states, actors, count, job) && n < |states| && count > 0
    ensures Inv(states[n], count, job)
    ensures Sum(states[n].threads, ThreadWork(job.pixelCount)) + n <= count * (5 * job.pixelCount + 1)
  {
    if n == 0 {
      InitInv(count, job);
      SumBounded(states[0].threads, ThreadWork(job.pixelCount), 5 * job.pixelCount + 1);
    } else {
      RunKeepsInv(states, actors, count, job, n - 1);
      StepKeepsInv(states[n - 1], actors[n - 1], count, job);
      StepDoesWork(states[n - 1], actors[n - 1], job);
      assert states[n - 1 + 1] == Step(states[n - 1], actors[n - 1], job);
    }
  }

  /** The progress counter and what the threads have not added to it yet are the pixels done, in every state of
      every run; a thread that adds something adds more than count + 5 pixels. */
  lemma ProgressIsExact(states: seq<State>, actors: seq<nat>, count: nat, job: Job, n: nat)
    requires Run(states, actors, count, job) && n < |states| && count > 0
    ensures states[n].pixelsProcessed + Sum(states[n].threads, Processed) == Sum(states[n].out, Done)
    ensures |states[n].out| == |states[n].writes| == job.pixelCount
    ensures forall p :: 0 <= p < job.pixelCount ==> states[n].writes[p] == Done(states[n].out[p]) <= 1
    ensures forall t :: 0 <= t < |states[n].threads| && states[n].threads[t].pc.TStore? ==>
              && states[n].threads[t].pc.read == states[n].pixelsProcessed
              && states[n].threads[t].processed > count + 5
  {
    RunKeepsInv(states, actors, count, job, n);
  }

  /** A thread does not wait for the lock: it counts its batch when the lock is free, and goes on filtering when not. */
  lemma TryNeverWaits(s: State, t: nat, job: Job)
    requires Enabled(s, t) && Fits(s, job) && s.threads[t].pc.TTry?
    ensures var r := Step(s, t, job);
      && r.threads[t].pixel == s.threads[t].pixel && r.threads[t].processed == s.threads[t].processed
      && r.pixelsProcessed == s.pixelsProcessed
      && (if s.sem > 0 then r.threads[t].pc.TRead? && r.sem == s.sem - 1 else r.threads[t].pc.TLoop? && r.sem == 0)
  {
  }

  /** Two threads that both read the counter before either of them writes it, as the lock prevents: the batch of the
      first one is lost. */
  lemma UpdatesWouldBeLost(s: State, t: nat, u: nat, job: Job, a: State, b: State, c: State)
    requires Fits(s, job) && t != u && Enabled(s, t) && Enabled(s, u)
    requires s.threads[t].pc.TRead? && s.threads[u].pc.TRead?
    requires a == Step(s, t, job) && Fits(a, job) && Enabled(a, u) && b == Step(a, u, job)
    requires Fits(b, job) && Enabled(b, t) && c == Step(b, t, job)
    ensures Fits(c, job) && Enabled(c, u)
    ensures Step(c, u, job).pixelsProcessed == s.pixelsProcessed + s.threads[u].processed
  {
  }

  // ----- one thread -----

  /** It finds the lock free whenever it has seven pixels to count. */
  ghost predicate CountsInSevens(s: State) {
    && |s.threads| == 1 && s.pixelsProcessed % 7 == 0
    && match s.threads[0].pc
       case TLoop => s.threads[0].processed <= 6
       case TPost => s.threads[0].processed == 0
       case TDone => s.threads[0].processed <= 6
       case _ => s.threads[0].processed == 7
  }

  lemma SumOfOne(threads: seq<Thread>, w: Thread -> nat)
    requires |threads| == 1
    ensures Sum(threads, w) == w(threads[0])
  {
    assert threads[1..] == [];
  }

  lemma StepCountsInSevens(s: State, t: nat, job: Job)
    requires Enabled(s, t) && Fits(s, job) && CountsInSevens(s) && Locked(s)
    ensures CountsInSevens(Step(s, t, job))
  {
    SumOfOne(s.threads, Inside);
  }

  lemma {:induction false} RunCountsInSevens(states: seq<State>, actors: seq<nat>, job: Job, n: nat)
    requires Run(states, actors, 1, job) && n < |states|
    ensures CountsInSevens(states[n])
  {
    if n > 0 {
      RunCountsInSevens(states, actors, job, n - 1);
      RunKeepsInv(states, actors, 1, job, n - 1);
      StepCountsInSevens(states[n - 1], actors[n - 1], job);
      assert states[n - 1 + 1] == Step(states[n - 1], actors[n - 1], job);
    }
  }

  lemma AllPixelsDone(s: State, count: nat, job: Job)
    requires Inv(s, count, job) && Stuck(s)
    ensures Sum(s.out, Done) == job.pixelCount
  {
    forall p: nat | p < job.pixelCount ensures s.out[p].Set? {
      assert !Enabled(s, p % count);
      assert Passed(s, p);
    }
    SumOfOnes(s.out);
  }

  lemma {:induction false} SumOfOnes(cells: seq<Cell>)
    requires forall p :: 0 <= p < |cells| ==> cells[p].Set?
    ensures Sum(cells, Done) == |cells|
  {
    if cells != [] {
      SumOfOnes(cells[1..]);
    }
  }

  lemma SevensAtTheEnd(s: State, n: nat)
    requires Stuck(s) && CountsInSevens(s) && s.pixelsProcessed + Sum(s.threads, Processed) == n
    ensures s.pixelsProcessed == n - n % 7
  {
    assert !Enabled(s, 0);
    SumOfOne(s.threads, Processed);
    WholeSevens(s.pixelsProcessed, s.threads[0].processed);
  }

  lemma WholeSevens(counted: nat, left: nat)
    requires counted % 7 == 0 && left <= 6
    ensures (counted + left) % 7 == left
  {
  }

  /** The counter stays behind in the end: nothing counts the last pixels. With one thread it is behind by what is left
      of the pixels after dividing by seven. */
  lemma LastPixelsAreNotCounted(states: seq<State>, actors: seq<nat>, job: Job)
    requires Run(states, actors, 1, job) && Stuck(states[|actors|])
    ensures states[|actors|].pixelsProcessed == job.pixelCount - job.pixelCount % 7
  {
    var s := states[|actors|];
    RunKeepsInv(states, actors, 1, job, |actors|);
    RunCountsInSevens(states, actors, job, |actors|);
    AllPixelsDone(s, 1, job);
    SevensAtTheEnd(s, job.pixelCount);
  }

  lemma FinalPixel(s: State, count: nat, job: Job, x: nat, y: nat)
    requires Inv(s, count, job) && Stuck(s) && x < job.from.width && y < job.from.height
    ensures var at := Index(x, y, job.from.width);
      && 0 <= at < job.pixelCount
      && s.out[at] == Set(Filtered(job.data, job.size, job.from, x, y)) && s.writes[at] == 1
  {
    var at := Index(x, y, job.from.width);
    IndexInRange(x, y, job.from.width, job.from.height);
    TargetAt(job, x, y);
    assert !Enabled(s, at % count);
    assert Passed(s, at);
  }

  lemma TargetAt(job: Job, x: nat, y: nat)
    requires job.Valid() && x < job.from.width && y < job.from.height
    ensures Index(x, y, job.from.width) >= 0
    ensures job.Target(Index(x, y, job.from.width)) == Filtered(job.data, job.size, job.from, x, y)
  {
    var at := Index(x, y, job.from.width);
    IndexInRange(x, y, job.from.width, job.from.height);
    IndexDivides(at, job.from.width);
    IndexInjectiveAt(x, y, at % job.from.width, at / job.from.width, job.from.width);
  }

  /** Every run is finite, and when it is over each pixel has been written once, with the value that filtering
      the image pixel by pixel gives it. */
  lemma FiltersTheImage(states: seq<State>, actors: seq<nat>, count: nat, job: Job)
    requires Run(states, actors, count, job) && count > 0
    ensures |actors| <= count * (5 * job.pixelCount + 1)
    ensures Stuck(states[|actors|]) ==>
      forall x: nat, y: nat :: x < job.from.width && y < job.from.height ==>
        var s, at := states[|actors|], Index(x, y, job.from.width);
        && 0 <= at < |s.out| == |s.writes|
        && s.out[at] == Set(Filtered(job.data, job.size, job.from, x, y)) && s.writes[at] == 1
  {
    var s := states[|actors|];
    RunKeepsInv(states, actors, count, job, |actors|);
    if Stuck(s) {
      forall x: nat, y: nat | x < job.from.width && y < job.from.height
        ensures var at := Index(x, y, job.from.width);
          && 0 <= at < |s.out| == |s.writes|
          && s.out[at] == Set(Filtered(job.data, job.size, job.from, x, y)) && s.writes[at] == 1
      {
        FinalPixel(s, count, job, x, y);
      }
    }
  }
}
