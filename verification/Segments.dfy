/** The segments of a command line: what stands between the bars. */
module Segments {
  type Args = seq<string>

  const BAR := "|"

  /** The first bar from position p on. */
  function Cut(args: Args, p: nat): (k: nat)
    requires p <= |args|
    ensures p <= k <= |args| && (k < |args| ==> args[k] == BAR)
    ensures forall i :: p <= i < k ==> args[i] != BAR
    decreases |args| - p
  {
    if p == |args| || args[p] == BAR then p else Cut(args, p + 1)
  }

  function Split(args: Args): (segments: seq<Args>)
    ensures |segments| > 0
    decreases |args|
  {
    var k := Cut(args, 0);
    if k == |args| then [args] else [args[..k]] + Split(args[k + 1..])
  }

  function Join(segments: seq<Args>): Args {
    if segments == [] then []
    else if |segments| == 1 then segments[0]
    else segments[0] + [BAR] + Join(segments[1..])
  }

  lemma OneBarMore(args: Args, k: nat)
    requires k < |args| && args[k] == "|" && forall i :: 0 <= i < k ==> args[i] != "|"
    ensures multiset(args)["|"] == multiset(args[k + 1..])["|"] + 1
  {
    assert args == args[..k] + [args[k]] + args[k + 1..];
    assert multiset(args[..k])["|"] == 0;
  }

  lemma {:induction false} SplitJoins(args: Args)
    ensures Join(Split(args)) == args
    decreases |args|
  {
    var k := Cut(args, 0);
    if k < |args| {
      SplitJoins(args[k + 1..]);
      assert Split(args)[1..] == Split(args[k + 1..]);
      assert args == args[..k] + [BAR] + args[k + 1..];
    }
  }

  lemma {:induction false} SplitHasNoBars(args: Args)
    ensures forall i :: 0 <= i < |Split(args)| ==> "|" !in Split(args)[i]
    decreases |args|
  {
    var k := Cut(args, 0);
    if k < |args| {
      SplitHasNoBars(args[k + 1..]);
    }
  }

  lemma {:induction false} SplitCounts(args: Args)
    ensures |Split(args)| == multiset(args)["|"] + 1
    decreases |args|
  {
    var k := Cut(args, 0);
    if k < |args| {
      OneBarMore(args, k);
      SplitCounts(args[k + 1..]);
    } else {
      assert multiset(args)["|"] == 0;
    }
  }

  /** The segments joined with bars are the command line; there is no bar in a segment, and one segment more
      than there are bars. */
  lemma JoinOfSplit(args: Args)
    ensures Join(Split(args)) == args
    ensures forall i :: 0 <= i < |Split(args)| ==> "|" !in Split(args)[i]
    ensures |Split(args)| == multiset(args)["|"] + 1
  {
    SplitJoins(args);
    SplitHasNoBars(args);
    SplitCounts(args);
  }

  lemma AroundABar(first: Args, rest: Args)
    ensures var args := first + [BAR] + rest;
      && args[|first|] == BAR && args[..|first|] == first && args[|first| + 1..] == rest
      && forall i :: 0 <= i < |first| ==> args[i] == first[i]
  {
  }

  lemma SplitAtBar(args: Args, first: Args, rest: Args)
    requires BAR !in first && |first| < |args| && args[|first|] == BAR
    requires args[..|first|] == first && args[|first| + 1..] == rest
    ensures Split(args) == [first] + Split(rest)
  {
    assert forall i :: 0 <= i < |first| ==> args[i] == first[i];
    assert Cut(args, 0) == |first|;
  }

  lemma NoBar(args: Args)
    requires BAR !in args
    ensures Split(args) == [args]
  {
    assert Cut(args, 0) == |args|;
  }

  /** Nothing else joins to the same line. */
  lemma {:induction false} SplitOfJoin(segments: seq<Args>)
    requires |segments| > 0 && forall i :: 0 <= i < |segments| ==> "|" !in segments[i]
    ensures Split(Join(segments)) == segments
  {
    if |segments| == 1 {
      NoBar(segments[0]);
    } else {
      SplitOfJoin(segments[1..]);
      AroundABar(segments[0], Join(segments[1..]));
      SplitAtBar(Join(segments), segments[0], Join(segments[1..]));
      assert [segments[0]] + segments[1..] == segments;
    }
  }
}
