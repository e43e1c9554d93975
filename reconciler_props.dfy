/**
 * What the reconciler of library/create_resource_group.py promises, stated
 * over its functional specification (Reconciler.Reconcile and the loop
 * specifications it is built from): linear backoff, bounded attempts, the
 * exact retry condition, fall-through on an exhausted budget, the health
 * loop's exit rule and the short-circuit on an already bound pool.
 */
module ReconcilerProps {
  import opened Common
  import opened ResourceGroup
  import opened Reconciler

  /** The durations of the sleeps of a trace, in order. */
  function Sleeps(trace: seq<Event>): (r: seq<nat>)
    ensures |r| <= |trace|
  {
    if trace == [] then []
    else (if trace[0].Sleep? then [trace[0].seconds] else []) + Sleeps(trace[1..])
  }

  /** How many times an event occurs in a trace. */
  function Occurrences(trace: seq<Event>, e: Event): (c: nat)
    ensures c <= |trace|
  {
    if trace == [] then 0
    else (if trace[0] == e then 1 else 0) + Occurrences(trace[1..], e)
  }

  /** The backoff sequence 1, 2, ..., n. */
  function Ramp(n: nat): (r: seq<nat>)
    ensures |r| == n
    ensures forall j :: 0 <= j < n ==> r[j] == j + 1
  {
    if n == 0 then [] else Ramp(n - 1) + [n]
  }

  /** How many attempts a retry loop makes: the retried ones and the one that stopped it. */
  function AttemptsMade(attempts: seq<Attempt>): (m: nat)
    ensures m <= |attempts|
  {
    var n := FirstStop(attempts, 0);
    if n < |attempts| then n + 1 else n
  }

  /** How many health checks the health loop makes. */
  function ChecksMade(checks: seq<(Outcome, bool)>): (m: nat)
    ensures m <= |checks|
  {
    var n := FirstHealthy(checks, 0);
    if n < |checks| then n + 1 else n
  }

  /** Where a visibility loop runs its commands. */
  function StageTarget(ctx: Context, s: Stage): Target {
    if s == VisibleLocal then Local else PeerTarget(ctx)
  }

  /** Attempts that never sleep by themselves. */
  ghost predicate Quiet(attempts: seq<Attempt>) {
    forall j :: 0 <= j < |attempts| ==> Sleeps(attempts[j].events) == []
  }

  lemma {:induction false} SleepsAppend(a: seq<Event>, b: seq<Event>)
    ensures Sleeps(a + b) == Sleeps(a) + Sleeps(b)
    decreases |a|
  {
    if a == [] {
      assert a + b == b;
    } else {
      var head: seq<nat> := if a[0].Sleep? then [a[0].seconds] else [];
      assert (a + b)[0] == a[0];
      assert (a + b)[1..] == a[1..] + b;
      SleepsAppend(a[1..], b);
      assert Sleeps(a + b) == head + (Sleeps(a[1..]) + Sleeps(b));
      assert head + (Sleeps(a[1..]) + Sleeps(b)) == (head + Sleeps(a[1..])) + Sleeps(b);
    }
  }

  lemma {:induction false} OccurrencesAppend(a: seq<Event>, b: seq<Event>, e: Event)
    ensures Occurrences(a + b, e) == Occurrences(a, e) + Occurrences(b, e)
    decreases |a|
  {
    if a == [] {
      assert a + b == b;
    } else {
      assert (a + b)[0] == a[0];
      assert (a + b)[1..] == a[1..] + b;
      OccurrencesAppend(a[1..], b, e);
    }
  }

  /** A trace without sleep events has no sleeps. */
  lemma {:induction false} NoSleepEvents(trace: seq<Event>)
    requires forall k :: 0 <= k < |trace| ==> !trace[k].Sleep?
    ensures Sleeps(trace) == []
    decreases |trace|
  {
    if trace != [] {
      NoSleepEvents(trace[1..]);
    }
  }

  /** The two commands of a visibility attempt are different command lines. */
  lemma ProbeIsNotRescan(t: Target)
    ensures CommandOn(t, ListPoolsArgv) != CommandOn(t, RescanArgv)
  {
    assert |CommandOn(t, ListPoolsArgv)| != |CommandOn(t, RescanArgv)|;
  }

  /** The attempts of every loop are quiet: all sleeps of a loop are its backoff. */
  lemma AttemptsQuiet(ctx: Context, s: Stage)
    ensures Quiet(Attempts(ctx, s))
  {
    forall j | 0 <= j < Budget(s)
      ensures Sleeps(Attempts(ctx, s)[j].events) == []
    {
      AttemptsAt(ctx, s, Budget(s), j);
      NoSleepEvents(AttemptAt(ctx, s, j).events);
    }
  }

  /** Quiet attempts 0 .. n-1, all retried, are followed by sleeps of 1, 2, ..., n. */
  lemma {:induction false} RetriesBackoff(attempts: seq<Attempt>, n: nat)
    requires n <= |attempts| && Quiet(attempts)
    ensures Sleeps(Retries(attempts, n)) == Ramp(n)
  {
    if n > 0 {
      var before := Retries(attempts, n - 1);
      var a := attempts[n - 1].events;
      RetriesBackoff(attempts, n - 1);
      SleepsAppend(before + a, [Sleep(n)]);
      SleepsAppend(before, a);
    }
  }

  /** A retry loop over quiet attempts backs off linearly: its sleeps are
      exactly 1, 2, ..., r, where r is the number of attempts that asked for a
      retry; the attempt that ends the loop is not followed by a sleep. */
  lemma LoopBackoff(attempts: seq<Attempt>)
    requires Quiet(attempts)
    ensures Sleeps(LoopRun(attempts).trace) == Ramp(FirstStop(attempts, 0))
  {
    var n := FirstStop(attempts, 0);
    RetriesBackoff(attempts, n);
    if n < |attempts| {
      SleepsAppend(Retries(attempts, n), attempts[n].events);
    }
  }

  /** When attempts 0 .. n-1 each hold an event `per` times, their retries hold it n * per times. */
  lemma {:induction false} RetriesCount(attempts: seq<Attempt>, n: nat, e: Event, per: nat)
    requires n <= |attempts| && !e.Sleep?
    requires forall j :: 0 <= j < n ==> Occurrences(attempts[j].events, e) == per
    ensures Occurrences(Retries(attempts, n), e) == n * per
  {
    if n > 0 {
      var before := Retries(attempts, n - 1);
      var a := attempts[n - 1].events;
      RetriesCount(attempts, n - 1, e, per);
      OccurrencesAppend(before + a, [Sleep(n)], e);
      OccurrencesAppend(before, a, e);
      assert Occurrences([Sleep(n)], e) == 0;
      assert (n - 1) * per + per == n * per;
    }
  }

  /** An event that every attempt holds once occurs once per attempt made. */
  lemma LoopCount(attempts: seq<Attempt>, e: Event)
    requires !e.Sleep?
    requires forall j :: 0 <= j < |attempts| ==> Occurrences(attempts[j].events, e) == 1
    ensures Occurrences(LoopRun(attempts).trace, e) == AttemptsMade(attempts)
  {
    var n := FirstStop(attempts, 0);
    RetriesCount(attempts, n, e, 1);
    if n < |attempts| {
      OccurrencesAppend(Retries(attempts, n), attempts[n].events, e);
    }
  }

  /** A loop ends the module exactly when some attempt is fatal and every
      attempt before it asked for a retry; it then ends it with that attempt's
      exit. When every attempt asks for a retry the whole budget is spent and
      the loop falls through. */
  lemma LoopStop(attempts: seq<Attempt>)
    ensures LoopRun(attempts).stop.Some? <==>
      exists j :: 0 <= j < |attempts| && attempts[j].verdict.Fatal?
        && forall i :: 0 <= i < j ==> attempts[i].verdict.Retry?
    ensures LoopRun(attempts).stop.Some? ==>
      LoopRun(attempts).stop.value == attempts[FirstStop(attempts, 0)].verdict.exit
    ensures (forall j :: 0 <= j < |attempts| ==> attempts[j].verdict.Retry?) ==>
      LoopRun(attempts).stop == None && AttemptsMade(attempts) == |attempts|
  {
    var n := FirstStop(attempts, 0);
    if exists j :: 0 <= j < |attempts| && attempts[j].verdict.Fatal? && forall i :: 0 <= i < j ==> attempts[i].verdict.Retry? {
      var j :| 0 <= j < |attempts| && attempts[j].verdict.Fatal? && forall i :: 0 <= i < j ==> attempts[i].verdict.Retry?;
      assert n == j;
    }
  }

  /** The create and attach loops end the module only by failing with
      changed=False; the visibility loops never end it. */
  lemma LoopExitUnchanged(ctx: Context, s: Stage)
    ensures LoopRun(Attempts(ctx, s)).stop.Some? ==>
      (s == CreateGroup || s == AttachPool)
      && LoopRun(Attempts(ctx, s)).stop.value.Failed? && !LoopRun(Attempts(ctx, s)).stop.value.changed
  {
    var attempts := Attempts(ctx, s);
    var n := FirstStop(attempts, 0);
    if n < |attempts| {
      AttemptsAt(ctx, s, Budget(s), n);
    }
  }

  /** A visibility loop probes its target once per attempt, at most 60 times,
      and refreshes it exactly once after every failed probe. */
  lemma VisibilityCommands(ctx: Context, s: Stage)
    requires s == VisibleLocal || s == VisiblePeer
    ensures Occurrences(LoopRun(Attempts(ctx, s)).trace, Cmd(CommandOn(StageTarget(ctx, s), ListPoolsArgv)))
            == AttemptsMade(Attempts(ctx, s)) <= VisibilityBudget
    ensures Occurrences(LoopRun(Attempts(ctx, s)).trace, Cmd(CommandOn(StageTarget(ctx, s), RescanArgv)))
            == FirstStop(Attempts(ctx, s), 0)
  {
    var attempts := Attempts(ctx, s);
    var t := StageTarget(ctx, s);
    var probe := Cmd(CommandOn(t, ListPoolsArgv));
    var rescan := Cmd(CommandOn(t, RescanArgv));
    var n := FirstStop(attempts, 0);
    ProbeIsNotRescan(t);
    forall j | 0 <= j < |attempts|
      ensures Occurrences(attempts[j].events, probe) == 1
      ensures Occurrences(attempts[j].events, rescan) == if attempts[j].verdict.Retry? then 1 else 0
    {
      AttemptsAt(ctx, s, Budget(s), j);
      if attempts[j].verdict.Retry? {
        assert attempts[j].events == [probe, rescan];
      } else {
        assert attempts[j].events == [probe];
      }
    }
    LoopCount(attempts, probe);
    RetriesCount(attempts, n, rescan, 1);
    if n < |attempts| {
      OccurrencesAppend(Retries(attempts, n), attempts[n].events, rescan);
    }
  }

  /** The attach loop runs the attach command once per attempt, at most 30 times. */
  lemma AttachCommands(ctx: Context)
    ensures Occurrences(LoopRun(Attempts(ctx, AttachPool)).trace, Cmd(AttachArgv(GroupName(ctx.poolname), ctx.poolname)))
            == AttemptsMade(Attempts(ctx, AttachPool)) <= AttachBudget
  {
    var attempts := Attempts(ctx, AttachPool);
    var cmd := Cmd(AttachArgv(GroupName(ctx.poolname), ctx.poolname));
    forall j | 0 <= j < |attempts|
      ensures Occurrences(attempts[j].events, cmd) == 1
    {
      AttemptsAt(ctx, AttachPool, AttachBudget, j);
      assert attempts[j].events == [cmd];
    }
    LoopCount(attempts, cmd);
  }

  /** With an explicit node name every create attempt runs the create command
      for that node and never reads the hostname file; without one, every
      attempt reads the hostname file again. At most 30 attempts either way. */
  lemma CreateCommands(ctx: Context)
    ensures ctx.node != "" ==>
      Occurrences(LoopRun(Attempts(ctx, CreateGroup)).trace, Cmd(CreateArgv(ctx.node, GroupName(ctx.poolname))))
        == AttemptsMade(Attempts(ctx, CreateGroup))
      && Occurrences(LoopRun(Attempts(ctx, CreateGroup)).trace, ReadFile(HostnameFile)) == 0
    ensures ctx.node == "" ==>
      Occurrences(LoopRun(Attempts(ctx, CreateGroup)).trace, ReadFile(HostnameFile))
        == AttemptsMade(Attempts(ctx, CreateGroup))
    ensures AttemptsMade(Attempts(ctx, CreateGroup)) <= CreateBudget
  {
    var attempts := Attempts(ctx, CreateGroup);
    var cmd := Cmd(CreateArgv(ctx.node, GroupName(ctx.poolname)));
    var read := ReadFile(HostnameFile);
    var e := if ctx.node != "" then cmd else read;
    forall j | 0 <= j < |attempts|
      ensures Occurrences(attempts[j].events, e) == 1
      ensures ctx.node != "" ==> Occurrences(attempts[j].events, read) == 0
    {
      AttemptsAt(ctx, CreateGroup, CreateBudget, j);
      var events := attempts[j].events;
      if ctx.node != "" {
        assert events == [cmd];
      } else {
        assert events[0] == read;
        assert events[1..] == [] || (|events[1..]| == 1 && events[1..][0].Cmd?);
      }
    }
    LoopCount(attempts, e);
    if ctx.node != "" {
      var n := FirstStop(attempts, 0);
      RetriesCount(attempts, n, read, 0);
      if n < |attempts| {
        OccurrencesAppend(Retries(attempts, n), attempts[n].events, read);
      }
    }
  }

  /** The create loop retries exactly when the hostname resolved and the
      command failed with the exact "in transition" stderr. */
  lemma CreateRetryCondition(ctx: Context, i: nat)
    ensures AttemptAt(ctx, CreateGroup, i).verdict.Retry? <==>
      ResolveHostname(ctx.node, ctx.env.hostFile(i)).Ok? && ctx.env.create(i).NonZero?
      && ctx.env.create(i).stderr == InTransition
  {
  }

  /** The attach loop retries exactly when the command failed with the exact
      "in transition" stderr. */
  lemma AttachRetryCondition(ctx: Context, i: nat)
    ensures AttemptAt(ctx, AttachPool, i).verdict.Retry? <==>
      ctx.env.attach(i).NonZero? && ctx.env.attach(i).stderr == InTransition
  {
  }

  /** A completed create command is judged on its stdout alone: whatever it
      wrote to stderr, it succeeds when stdout is empty, and otherwise ends the
      module with no error attached. */
  lemma CreateIgnoresStderr(ctx: Context, i: nat)
    requires ResolveHostname(ctx.node, ctx.env.hostFile(i)).Ok? && ctx.env.create(i).Completed?
    ensures AttemptAt(ctx, CreateGroup, i).verdict.Succeeded? <==> ctx.env.create(i).stdout == ""
    ensures ctx.env.create(i).stdout != "" ==>
      AttemptAt(ctx, CreateGroup, i).verdict == Fatal(Failed(false, ErrorText, None))
  {
  }

  /** A completed attach command succeeds only when stdout and stderr are both
      empty; any output ends the module with no error attached. */
  lemma AttachNeedsSilence(ctx: Context, i: nat)
    requires ctx.env.attach(i).Completed?
    ensures AttemptAt(ctx, AttachPool, i).verdict.Succeeded? <==> ctx.env.attach(i).stdout + ctx.env.attach(i).stderr == ""
    ensures ctx.env.attach(i).stdout + ctx.env.attach(i).stderr != "" ==>
      AttemptAt(ctx, AttachPool, i).verdict == Fatal(Failed(false, ErrorText, None))
  {
  }

  /** The failed health checks 0 .. k-1 sleep only after PoolNotFoundException,
      for 1, 2, ... seconds in turn. */
  lemma {:induction false} FailedChecksBackoff(checks: seq<(Outcome, bool)>, k: nat)
    requires k <= |checks|
    ensures Sleeps(FailedChecks(checks, k)) == Ramp(NotFoundCount(checks, k))
  {
    if k > 0 {
      var prev := FailedChecks(checks, k - 1);
      var events := HealthEvents(checks[k - 1].1);
      var c := NotFoundCount(checks, k - 1);
      var notFound := IsPoolNotFound(checks[k - 1].0.err);
      var tail: seq<Event> := if notFound then [Sleep(c + 1)] else [];
      assert FailedChecks(checks, k) == prev + events + tail;
      FailedChecksBackoff(checks, k - 1);
      SleepsAppend(prev + events, tail);
      SleepsAppend(prev, events);
      NoSleepEvents(events);
      assert Sleeps(prev + events) == Ramp(c);
      if notFound {
        assert tail[1..] == [];
        assert Sleeps(tail) == [c + 1];
        assert NotFoundCount(checks, k) == c + 1;
      } else {
        assert NotFoundCount(checks, k) == c;
      }
    }
  }

  /** The health loop's sleeps are 1, 2, ..., one per PoolNotFoundException
      before the check that ended it; no other error sleeps. */
  lemma HealthBackoff(checks: seq<(Outcome, bool)>, rgname: string)
    requires |checks| > 0
    ensures Sleeps(HealthRun(checks, rgname).trace) == Ramp(NotFoundCount(checks, FirstHealthy(checks, 0)))
  {
    var n := FirstHealthy(checks, 0);
    FailedChecksBackoff(checks, n);
    if n < |checks| {
      SleepsAppend(FailedChecks(checks, n), HealthEvents(checks[n].1));
      NoSleepEvents(HealthEvents(checks[n].1));
    }
  }

  /** One health check dumps the cluster state once. */
  lemma DumpOncePerCheck(repaired: bool)
    ensures Occurrences(HealthEvents(repaired), Cmd(DumpArgv)) == 1
  {
    assert DumpArgv != RepairArgv by { assert |DumpArgv| != |RepairArgv|; }
    assert HealthEvents(repaired)[1..] == if repaired then [Cmd(RepairArgv)] else [];
  }

  /** Failed checks 0 .. k-1 dump the cluster state once each. */
  lemma {:induction false} FailedChecksDumps(checks: seq<(Outcome, bool)>, k: nat)
    requires k <= |checks|
    ensures Occurrences(FailedChecks(checks, k), Cmd(DumpArgv)) == k
  {
    if k > 0 {
      var step := checks[k - 1];
      var tail := if IsPoolNotFound(step.0.err) then [Sleep(NotFoundCount(checks, k - 1) + 1)] else [];
      FailedChecksDumps(checks, k - 1);
      OccurrencesAppend(FailedChecks(checks, k - 1) + HealthEvents(step.1), tail, Cmd(DumpArgv));
      OccurrencesAppend(FailedChecks(checks, k - 1), HealthEvents(step.1), Cmd(DumpArgv));
      DumpOncePerCheck(step.1);
    }
  }

  /** The health loop dumps the cluster state once per check and makes at most
      as many checks as its budget; it always ends the module with
      changed=True: with the group name after the first healthy check,
      otherwise failing with the error of the last check. */
  lemma HealthOutcome(checks: seq<(Outcome, bool)>, rgname: string)
    requires |checks| > 0
    ensures Occurrences(HealthRun(checks, rgname).trace, Cmd(DumpArgv)) == ChecksMade(checks) <= |checks|
    ensures HealthRun(checks, rgname).exit.changed
    ensures HealthRun(checks, rgname).exit.Exited? <==> exists k :: 0 <= k < |checks| && checks[k].0.ok
    ensures HealthRun(checks, rgname).exit.Exited? ==> HealthRun(checks, rgname).exit.groupName == Some(rgname)
    ensures HealthRun(checks, rgname).exit.Failed? ==>
      HealthRun(checks, rgname).exit == Failed(true, ErrorText, checks[|checks| - 1].0.err)
  {
    var n := FirstHealthy(checks, 0);
    FailedChecksDumps(checks, n);
    if n < |checks| {
      OccurrencesAppend(FailedChecks(checks, n), HealthEvents(checks[n].1), Cmd(DumpArgv));
      DumpOncePerCheck(checks[n].1);
    }
  }

  /** An already bound pool: the module reads the snapshot, issues no command
      and reports no change. */
  lemma AlreadyBoundShortCircuit(ctx: Context)
    requires AlreadyBound(ctx.poolname, ctx.env.snapshot)
    ensures Reconcile(ctx).trace == [ReadFile(StateFile)]
    ensures Reconcile(ctx).exit == Exited(false, None)
  {
  }

  /** Every run starts by reading the snapshot, and the module reports a
      change exactly when it reaches the health loop: the pool is not yet
      bound and neither the create nor the attach loop ended the module. */
  lemma ReconcileChanged(ctx: Context)
    ensures Reconcile(ctx).trace[0] == ReadFile(StateFile)
    ensures Reconcile(ctx).exit.changed <==>
      !AlreadyBound(ctx.poolname, ctx.env.snapshot)
      && LoopRun(Attempts(ctx, CreateGroup)).stop.None? && LoopRun(Attempts(ctx, AttachPool)).stop.None?
  {
    if !AlreadyBound(ctx.poolname, ctx.env.snapshot) {
      LoopExitUnchanged(ctx, CreateGroup);
      LoopExitUnchanged(ctx, AttachPool);
      HealthOutcome(Checks(ctx, HealthBudget), GroupName(ctx.poolname));
    }
  }

  /** Three failed probes, then a visible pool: three refreshes with sleeps of 1, 2 and 3 seconds. */
  lemma ThreeFailedProbes(ctx: Context)
    requires forall j :: 0 <= j < 3 ==>
      !EnsurePoolIsVisible(ctx.poolname, Local, ctx.env.localList(j), ctx.env.decodeListing).ok
    requires EnsurePoolIsVisible(ctx.poolname, Local, ctx.env.localList(3), ctx.env.decodeListing).ok
    ensures var probe := Cmd(ListPoolsArgv);
      var rescan := Cmd(RescanArgv);
      LoopRun(Attempts(ctx, VisibleLocal)).trace
        == [probe, rescan, Sleep(1), probe, rescan, Sleep(2), probe, rescan, Sleep(3), probe]
  {
    var attempts := Attempts(ctx, VisibleLocal);
    var failed := Attempt([Cmd(ListPoolsArgv), Cmd(RescanArgv)], Retry);
    forall j | 0 <= j < 3
      ensures attempts[j] == failed
    {
      AttemptsAt(ctx, VisibleLocal, VisibilityBudget, j);
    }
    AttemptsAt(ctx, VisibleLocal, VisibilityBudget, 3);
    assert attempts[3] == Attempt([Cmd(ListPoolsArgv)], Succeeded);
    assert FirstStop(attempts, 0) == 3;
    assert Retries(attempts, 1) == failed.events + [Sleep(1)];
    assert Retries(attempts, 2) == failed.events + [Sleep(1)] + failed.events + [Sleep(2)];
  }

  /** An attach that is always in transition: 30 attach commands, sleeps of
      1 .. 30 seconds, and the loop falls through to the health checks. */
  lemma AttachAlwaysInTransition(ctx: Context)
    requires forall j :: 0 <= j < AttachBudget ==>
      ctx.env.attach(j).NonZero? && ctx.env.attach(j).stderr == InTransition
    ensures LoopRun(Attempts(ctx, AttachPool)).stop == None
    ensures Occurrences(LoopRun(Attempts(ctx, AttachPool)).trace, Cmd(AttachArgv(GroupName(ctx.poolname), ctx.poolname))) == 30
    ensures Sleeps(LoopRun(Attempts(ctx, AttachPool)).trace) == Ramp(30)
  {
    var attempts := Attempts(ctx, AttachPool);
    forall j | 0 <= j < AttachBudget
      ensures attempts[j].verdict.Retry?
    {
      AttemptsAt(ctx, AttachPool, AttachBudget, j);
      AttachRetryCondition(ctx, j);
    }
    LoopStop(attempts);
    AttachCommands(ctx);
    AttemptsQuiet(ctx, AttachPool);
    LoopBackoff(attempts);
  }

  /** Health checks that all fail with PoolNotFoundException: a dump and a
      sleep of 1, 2, ..., k seconds each. */
  function NotFoundRounds(k: nat): seq<Event> {
    if k == 0 then [] else NotFoundRounds(k - 1) + [Cmd(DumpArgv), Sleep(k)]
  }

  lemma {:induction false} FailedChecksNotFound(checks: seq<(Outcome, bool)>, k: nat, poolname: string)
    requires k <= |checks|
    requires forall j :: 0 <= j < k ==> checks[j] == (Outcome(false, Some(PoolNotFoundException(poolname))), false)
    ensures FailedChecks(checks, k) == NotFoundRounds(k)
    ensures NotFoundCount(checks, k) == k
  {
    if k > 0 {
      FailedChecksNotFound(checks, k - 1, poolname);
    }
  }

  /** A pool that never shows up in the dump: five dumps with sleeps of 1 .. 5
      seconds, then the module fails with changed=True and PoolNotFoundException. */
  lemma PoolNeverFound(ctx: Context)
    requires forall k :: 0 <= k < HealthBudget ==>
      ctx.env.dump(k).Completed? && LastMatch(ctx.env.decodeDump(ctx.env.dump(k).stdout), ctx.poolname).None?
    ensures var dump := Cmd(DumpArgv);
      HealthRun(Checks(ctx, HealthBudget), GroupName(ctx.poolname))
        == Final([dump, Sleep(1), dump, Sleep(2), dump, Sleep(3), dump, Sleep(4), dump, Sleep(5)],
                 Failed(true, ErrorText, Some(PoolNotFoundException(ctx.poolname))))
  {
    var checks := Checks(ctx, HealthBudget);
    forall k | 0 <= k < HealthBudget
      ensures checks[k] == (Outcome(false, Some(PoolNotFoundException(ctx.poolname))), false)
    {
      ChecksAt(ctx, HealthBudget, k);
    }
    assert FirstHealthy(checks, 0) == HealthBudget;
    FailedChecksNotFound(checks, HealthBudget, ctx.poolname);
  }

  /** Health checks that all fail without PoolNotFoundException: one dump each, no sleep. */
  lemma {:induction false} FailedChecksQuiet(checks: seq<(Outcome, bool)>, k: nat)
    requires k <= |checks|
    requires forall j :: 0 <= j < k ==> !checks[j].1 && !IsPoolNotFound(checks[j].0.err)
    ensures FailedChecks(checks, k) == seq(k, _ => Cmd(DumpArgv))
  {
    if k > 0 {
      FailedChecksQuiet(checks, k - 1);
      assert seq(k, _ => Cmd(DumpArgv)) == seq(k - 1, _ => Cmd(DumpArgv)) + [Cmd(DumpArgv)];
    }
  }

  /** An unrepairable pool: five dumps with no sleep and no repair, then the
      module fails with changed=True and PoolNotRepairableException. */
  lemma PoolNotRepairable(ctx: Context, problems: seq<string>)
    requires problems != []
    requires forall k :: 0 <= k < HealthBudget ==>
      ctx.env.dump(k).Completed?
      && LastMatch(ctx.env.decodeDump(ctx.env.dump(k).stdout), ctx.poolname) == Some(DumpPool(ctx.poolname, problems, false))
    ensures var dump := Cmd(DumpArgv);
      HealthRun(Checks(ctx, HealthBudget), GroupName(ctx.poolname))
        == Final([dump, dump, dump, dump, dump], Failed(true, ErrorText, Some(PoolNotRepairableException(problems))))
  {
    var checks := Checks(ctx, HealthBudget);
    forall k | 0 <= k < HealthBudget
      ensures checks[k] == (Outcome(false, Some(PoolNotRepairableException(problems))), false)
    {
      ChecksAt(ctx, HealthBudget, k);
    }
    assert FirstHealthy(checks, 0) == HealthBudget;
    FailedChecksQuiet(checks, HealthBudget);
  }

  /** A repairable problem found by the first check: one dump, one repair,
      and the module exits with changed=True and the group name. */
  lemma RepairOnFirstCheck(ctx: Context, problems: seq<string>)
    requires problems != []
    requires ctx.env.dump(0).Completed?
    requires LastMatch(ctx.env.decodeDump(ctx.env.dump(0).stdout), ctx.poolname) == Some(DumpPool(ctx.poolname, problems, true))
    requires ctx.env.repair(0).Completed?
    ensures HealthRun(Checks(ctx, HealthBudget), GroupName(ctx.poolname))
      == Final([Cmd(DumpArgv), Cmd(RepairArgv)], Exited(true, Some(GroupName(ctx.poolname))))
  {
    var checks := Checks(ctx, HealthBudget);
    ChecksAt(ctx, HealthBudget, 0);
    assert checks[0] == (Outcome(true, None), true);
    assert FirstHealthy(checks, 0) == 0;
  }
}
