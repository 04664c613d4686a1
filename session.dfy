/**
  A session as a sequence of calls into the task list, and what holds of the
  list at its end: its length is the starting length plus the successful adds
  minus the successful deletes, and the surviving descriptions appear in the
  order they were inserted.
 */
module Session {
  import opened Todo

  /** One call into the task list that may change it. */
  datatype Command = AddCmd(description: string) | CompleteCmd(number: int) | DeleteCmd(number: int)

  /** The list at the end of a run and the status of each call, in order. */
  datatype Trace = Trace(tasks: seq<Task>, statuses: seq<Status>)

  function Apply(tasks: seq<Task>, cmd: Command): Update
  {
    match cmd
    case AddCmd(d) => Add(tasks, d)
    case CompleteCmd(n) => MarkComplete(tasks, n)
    case DeleteCmd(n) => Delete(tasks, n)
  }

  function Run(tasks: seq<Task>, cmds: seq<Command>): (r: Trace)
    ensures |r.statuses| == |cmds|
    decreases |cmds|
  {
    if cmds == [] then
      Trace(tasks, [])
    else
      var step := Apply(tasks, cmds[0]);
      var rest := Run(step.tasks, cmds[1..]);
      Trace(rest.tasks, [step.status] + rest.statuses)
  }

  function Count(statuses: seq<Status>, s: Status): nat
  {
    if statuses == [] then 0
    else (if statuses[0] == s then 1 else 0) + Count(statuses[1..], s)
  }

  function Descriptions(tasks: seq<Task>): (r: seq<string>)
    ensures |r| == |tasks|
    ensures forall k :: 0 <= k < |tasks| ==> r[k] == tasks[k].description
  {
    if tasks == [] then [] else [tasks[0].description] + Descriptions(tasks[1..])
  }

  /** The description a command adds, if it is an add. */
  function AddedBy(cmd: Command): seq<string>
  {
    if cmd.AddCmd? then [cmd.description] else []
  }

  /** The descriptions of the add commands of a run, in order. */
  function AddedDescriptions(cmds: seq<Command>): seq<string>
  {
    if cmds == [] then [] else AddedBy(cmds[0]) + AddedDescriptions(cmds[1..])
  }

  /** `a` can be obtained from `b` by leaving elements out. */
  predicate IsSubsequence(a: seq<string>, b: seq<string>)
    decreases |b|
  {
    a == [] ||
    (b != [] && ((a[0] == b[0] && IsSubsequence(a[1..], b[1..])) || IsSubsequence(a, b[1..])))
  }

  lemma {:induction false} SubsequenceReflexive(a: seq<string>)
    ensures IsSubsequence(a, a)
    decreases |a|
  {
    if a != [] {
      SubsequenceReflexive(a[1..]);
    }
  }

  lemma {:induction false} SubsequenceOfLonger(a: seq<string>, p: seq<string>)
    ensures IsSubsequence(a, p + a)
    decreases |p|
  {
    if p == [] {
      assert p + a == a;
      SubsequenceReflexive(a);
    } else {
      assert (p + a)[1..] == p[1..] + a;
      SubsequenceOfLonger(a, p[1..]);
    }
  }

  lemma {:induction false} SubsequenceTransitive(a: seq<string>, b: seq<string>, c: seq<string>)
    requires IsSubsequence(a, b) && IsSubsequence(b, c)
    ensures IsSubsequence(a, c)
    decreases |c|
  {
    if a != [] {
      if IsSubsequence(b, c[1..]) {
        SubsequenceTransitive(a, b, c[1..]);
      } else if a[0] == b[0] && IsSubsequence(a[1..], b[1..]) {
        SubsequenceTransitive(a[1..], b[1..], c[1..]);
      } else {
        SubsequenceTransitive(a, b[1..], c[1..]);
      }
    }
  }

  lemma {:induction false} SubsequenceAppend(a: seq<string>, b: seq<string>, s: seq<string>)
    requires IsSubsequence(a, b)
    ensures IsSubsequence(a + s, b + s)
    decreases |b|
  {
    if a == [] {
      assert a + s == s;
      SubsequenceOfLonger(s, b);
    } else {
      assert (a + s)[0] == a[0] && (a + s)[1..] == a[1..] + s;
      assert (b + s)[0] == b[0] && (b + s)[1..] == b[1..] + s;
      if a[0] == b[0] && IsSubsequence(a[1..], b[1..]) {
        SubsequenceAppend(a[1..], b[1..], s);
      } else {
        SubsequenceAppend(a, b[1..], s);
      }
    }
  }

  /** Removing the element at `i` leaves a subsequence. */
  lemma {:induction false} SubsequenceRemoveAt(s: seq<string>, i: nat)
    requires i < |s|
    ensures IsSubsequence(s[..i] + s[i + 1..], s)
    decreases i
  {
    if i == 0 {
      assert s[..0] + s[1..] == s[1..];
      SubsequenceReflexive(s[1..]);
    } else {
      var t := s[..i] + s[i + 1..];
      assert t[0] == s[0];
      assert t[1..] == s[1..][..i - 1] + s[1..][i..];
      SubsequenceRemoveAt(s[1..], i - 1);
    }
  }

  /** One call keeps the old descriptions in order, plus the added one at the end. */
  lemma StepKeepsOrder(tasks: seq<Task>, cmd: Command)
    ensures IsSubsequence(Descriptions(Apply(tasks, cmd).tasks),
                          Descriptions(tasks) + AddedBy(cmd))
  {
    var after := Apply(tasks, cmd);
    match cmd
    case AddCmd(d) =>
      assert Descriptions(after.tasks) == Descriptions(tasks) + [d];
      SubsequenceReflexive(Descriptions(tasks) + [d]);
    case CompleteCmd(n) =>
      assert Descriptions(after.tasks) == Descriptions(tasks);
      assert Descriptions(tasks) + [] == Descriptions(tasks);
      SubsequenceReflexive(Descriptions(tasks));
    case DeleteCmd(n) =>
      assert Descriptions(tasks) + [] == Descriptions(tasks);
      if after.status == Deleted {
        var ds := Descriptions(tasks);
        assert Descriptions(after.tasks) == ds[..n - 1] + ds[n..];
        SubsequenceRemoveAt(ds, n - 1);
      } else {
        SubsequenceReflexive(Descriptions(tasks));
      }
  }

  /**
    At the end of a run, the surviving descriptions are a subsequence of the
    starting descriptions followed by the added ones: order is preserved.
   */
  lemma {:induction false} RunKeepsOrder(tasks: seq<Task>, cmds: seq<Command>)
    ensures IsSubsequence(Descriptions(Run(tasks, cmds).tasks),
                          Descriptions(tasks) + AddedDescriptions(cmds))
    decreases |cmds|
  {
    if cmds == [] {
      assert Descriptions(tasks) + [] == Descriptions(tasks);
      SubsequenceReflexive(Descriptions(tasks));
    } else {
      var step := Apply(tasks, cmds[0]);
      var rest := cmds[1..];
      var mid := Descriptions(step.tasks);
      var firstAdded := AddedBy(cmds[0]);
      assert AddedDescriptions(cmds) == firstAdded + AddedDescriptions(rest);
      RunKeepsOrder(step.tasks, rest);
      StepKeepsOrder(tasks, cmds[0]);
      SubsequenceAppend(mid, Descriptions(tasks) + firstAdded, AddedDescriptions(rest));
      assert Descriptions(tasks) + firstAdded + AddedDescriptions(rest)
          == Descriptions(tasks) + AddedDescriptions(cmds);
      SubsequenceTransitive(Descriptions(Run(step.tasks, rest).tasks),
                            mid + AddedDescriptions(rest),
                            Descriptions(tasks) + AddedDescriptions(cmds));
    }
  }

  /** The length at the end of a run: start + successful adds - successful deletes. */
  lemma {:induction false} RunLength(tasks: seq<Task>, cmds: seq<Command>)
    ensures |Run(tasks, cmds).tasks|
         == |tasks| + Count(Run(tasks, cmds).statuses, Added) - Count(Run(tasks, cmds).statuses, Deleted)
    decreases |cmds|
  {
    if cmds != [] {
      var step := Apply(tasks, cmds[0]);
      var rest := Run(step.tasks, cmds[1..]);
      RunLength(step.tasks, cmds[1..]);
      var statuses := [step.status] + rest.statuses;
      assert statuses[1..] == rest.statuses;
      assert Run(tasks, cmds).statuses == statuses;
    }
  }

  /** The number of add commands in a run. */
  function AddCount(cmds: seq<Command>): nat
  {
    if cmds == [] then 0 else (if cmds[0].AddCmd? then 1 else 0) + AddCount(cmds[1..])
  }

  /**
    Every add reports Added and nothing else does, so with RunLength the final
    length is the starting length plus the adds minus the successful deletes.
   */
  lemma {:induction false} AddsAlwaysReported(tasks: seq<Task>, cmds: seq<Command>)
    ensures Count(Run(tasks, cmds).statuses, Added) == AddCount(cmds)
    ensures |Run(tasks, cmds).tasks| == |tasks| + AddCount(cmds) - Count(Run(tasks, cmds).statuses, Deleted)
    decreases |cmds|
  {
    if cmds != [] {
      var step := Apply(tasks, cmds[0]);
      var rest := Run(step.tasks, cmds[1..]);
      AddsAlwaysReported(step.tasks, cmds[1..]);
      var statuses := [step.status] + rest.statuses;
      assert statuses[1..] == rest.statuses;
      assert Run(tasks, cmds).statuses == statuses;
      assert step.status == Added <==> cmds[0].AddCmd?;
    }
    RunLength(tasks, cmds);
  }

  /** Every add of a run reports Added, so a run of adds alone grows the list by its length. */
  lemma {:induction false} AddsOnlyGrow(tasks: seq<Task>, cmds: seq<Command>)
    requires forall k :: 0 <= k < |cmds| ==> cmds[k].AddCmd?
    ensures |Run(tasks, cmds).tasks| == |tasks| + |cmds|
    ensures Descriptions(Run(tasks, cmds).tasks) == Descriptions(tasks) + AddedDescriptions(cmds)
    decreases |cmds|
  {
    if cmds != [] {
      var step := Apply(tasks, cmds[0]);
      AddsOnlyGrow(step.tasks, cmds[1..]);
      assert Descriptions(step.tasks) == Descriptions(tasks) + [cmds[0].description];
      assert AddedDescriptions(cmds) == [cmds[0].description] + AddedDescriptions(cmds[1..]);
    }
  }
}
