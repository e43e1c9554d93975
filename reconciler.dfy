/**
 * The driver of library/create_resource_group.py (`run_module`): a fixed
 * sequence of bounded retry loops, each with its own linear backoff counter,
 * that brings one pool under a resource group.
 *
 * The control plane is an environment of scripted results: the k-th call of
 * each kind within its loop gets the k-th scripted result. JSON decoding is
 * part of the environment too. Sleeps and the commands issued are recorded in
 * a ghost trace of events; the module's process exit becomes a ModuleExit
 * value. The method RunModule follows the source loop by loop and is proved
 * equal to the functional specification Reconcile, about which the lemmas in
 * ReconcilerProps state the retry, backoff and short-circuit properties.
 */
module Reconciler {
  import opened Common
  import opened ResourceGroup

  const VisibilityBudget: nat := 60
  const CreateBudget: nat := 30
  const AttachBudget: nat := 30
  const HealthBudget: nat := 5

  /** What the reconciler does to the outside world. */
  datatype Event = ReadFile(path: string) | Cmd(argv: seq<string>) | Sleep(seconds: nat)

  /** Scripted results of the control plane, indexed by attempt number within a loop. */
  datatype Env = Env(
    snapshot: Snapshot,
    decodeListing: string -> Option<seq<PoolRecord>>,
    decodeDump: string -> seq<DumpGroup>,
    localList: nat -> CmdResult,
    localRescan: nat -> CmdResult,
    peerList: nat -> CmdResult,
    peerRescan: nat -> CmdResult,
    hostFile: nat -> FileRead,
    create: nat -> CmdResult,
    attach: nat -> CmdResult,
    dump: nat -> CmdResult,
    repair: nat -> CmdResult)

  /** The module parameters that matter (`poolname`, `ha_peer_ipaddr`, `node`) and the environment. */
  datatype Context = Context(poolname: string, peerAddr: string, node: string, env: Env)

  /** The `msg` of a `fail_json` call (the attach loop's text reads "exist"). */
  datatype FailMsg = NonZeroExitStatus | NonZeroExistStatus | IoErrorEncountered | ErrorText

  /** How the module ends: `exit_json` or `fail_json`, with its `changed` flag. */
  datatype ModuleExit =
    | Exited(changed: bool, groupName: Option<string>)
    | Failed(changed: bool, msg: FailMsg, cause: Option<Error>)

  /** The four loops that share the shape "try, on a retryable failure sleep i+1 and try again". */
  datatype Stage = VisibleLocal | VisiblePeer | CreateGroup | AttachPool

  /** What one attempt tells its loop: stop and go on, retry after a sleep, or end the module. */
  datatype Verdict = Succeeded | Retry | Fatal(exit: ModuleExit)

  datatype Attempt = Attempt(events: seq<Event>, verdict: Verdict)

  /** The events of a loop and, when it ended the module, how. */
  datatype Run = Run(trace: seq<Event>, stop: Option<ModuleExit>)

  /** The events of a whole module run and how it ended. */
  datatype Final = Final(trace: seq<Event>, exit: ModuleExit)

  function PeerTarget(ctx: Context): Target {
    Remote(ctx.peerAddr, DefaultKeyDir)
  }

  function Budget(s: Stage): nat {
    if s == VisibleLocal || s == VisiblePeer then VisibilityBudget
    else if s == CreateGroup then CreateBudget
    else AttachBudget
  }

  /** One visibility probe; a failed probe is followed by a refresh whose result is ignored. */
  function VisibilityAttempt(ctx: Context, t: Target, list: CmdResult): Attempt {
    if EnsurePoolIsVisible(ctx.poolname, t, list, ctx.env.decodeListing).ok
    then Attempt([Cmd(CommandOn(t, ListPoolsArgv))], Succeeded)
    else Attempt([Cmd(CommandOn(t, ListPoolsArgv)), Cmd(CommandOn(t, RescanArgv))], Retry)
  }

  /** How the create loop treats one result. */
  function CreateVerdict(r: Outcome): (v: Verdict)
    ensures v.Succeeded? <==> r.ok
    ensures v.Retry? <==> !r.ok && r.err.Some? && r.err.value.CalledProcessError? && r.err.value.stderr == InTransition
    ensures v.Fatal? ==> !v.exit.changed && v.exit.Failed? && v.exit.cause == r.err
  {
    if r.ok then Succeeded
    else if r.err.Some? && r.err.value.CalledProcessError? then
      if r.err.value.stderr == InTransition then Retry
      else Fatal(Failed(false, NonZeroExitStatus, r.err))
    else if r.err.Some? && r.err.value.IOError? then Fatal(Failed(false, IoErrorEncountered, r.err))
    else Fatal(Failed(false, ErrorText, r.err))
  }

  /** How the attach loop treats one result. */
  function AttachVerdict(r: Outcome): (v: Verdict)
    ensures v.Succeeded? <==> r.ok
    ensures v.Retry? <==> !r.ok && r.err.Some? && r.err.value.CalledProcessError? && r.err.value.stderr == InTransition
    ensures v.Fatal? ==> !v.exit.changed && v.exit.Failed? && v.exit.cause == r.err
  {
    if r.ok then Succeeded
    else if r.err.Some? && r.err.value.CalledProcessError? then
      if r.err.value.stderr == InTransition then Retry
      else Fatal(Failed(false, NonZeroExistStatus, r.err))
    else Fatal(Failed(false, ErrorText, r.err))
  }

  /** What one create attempt reads and runs: the hostname file when no node is
      given, then the create command unless that read failed. */
  function CreateEvents(ctx: Context, i: nat): seq<Event> {
    (if ctx.node == "" then [ReadFile(HostnameFile)] else [])
    + match ResolveHostname(ctx.node, ctx.env.hostFile(i))
      case Ok(host) => [Cmd(CreateArgv(host, GroupName(ctx.poolname)))]
      case Err(_) => []
  }

  /** The i-th attempt of a loop. */
  function AttemptAt(ctx: Context, s: Stage, i: nat): Attempt {
    var rgname := GroupName(ctx.poolname);
    match s
    case VisibleLocal => VisibilityAttempt(ctx, Local, ctx.env.localList(i))
    case VisiblePeer => VisibilityAttempt(ctx, PeerTarget(ctx), ctx.env.peerList(i))
    case CreateGroup =>
      Attempt(CreateEvents(ctx, i),
              CreateVerdict(CreateResourceGroup(rgname, ctx.node, ctx.env.hostFile(i), ctx.env.create(i))))
    case AttachPool =>
      Attempt([Cmd(AttachArgv(rgname, ctx.poolname))],
              AttachVerdict(AddPoolToResourceGroup(rgname, ctx.poolname, ctx.env.attach(i))))
  }

  /** Attempts 0 .. n-1 of a loop, as it would make them if none of them stopped it. */
  function AttemptsUpTo(ctx: Context, s: Stage, n: nat): (r: seq<Attempt>)
    ensures |r| == n
  {
    if n == 0 then [] else AttemptsUpTo(ctx, s, n - 1) + [AttemptAt(ctx, s, n - 1)]
  }

  /** Every attempt a loop's budget allows. */
  function Attempts(ctx: Context, s: Stage): (r: seq<Attempt>)
    ensures |r| == Budget(s)
  {
    AttemptsUpTo(ctx, s, Budget(s))
  }

  /** Attempt i of the sequence is the i-th attempt. */
  lemma {:induction false} AttemptsAt(ctx: Context, s: Stage, n: nat, i: nat)
    requires i < n
    ensures AttemptsUpTo(ctx, s, n)[i] == AttemptAt(ctx, s, i)
  {
    if i < n - 1 {
      AttemptsAt(ctx, s, n - 1, i);
    }
  }

  /** The first attempt, at or after attempt i, that does not ask for a retry;
      the number of attempts when every remaining one does. */
  function FirstStop(attempts: seq<Attempt>, i: nat): (n: nat)
    requires i <= |attempts|
    ensures i <= n <= |attempts|
    ensures forall j :: i <= j < n ==> attempts[j].verdict.Retry?
    ensures n < |attempts| ==> !attempts[n].verdict.Retry?
    decreases |attempts| - i
  {
    if i == |attempts| || !attempts[i].verdict.Retry? then i
    else FirstStop(attempts, i + 1)
  }

  /** The events of attempts 0 .. n-1 when each of them was retried:
      attempt j is followed by a sleep of j + 1 seconds. */
  function Retries(attempts: seq<Attempt>, n: nat): seq<Event>
    requires n <= |attempts|
  {
    if n == 0 then []
    else Retries(attempts, n - 1) + attempts[n - 1].events + [Sleep(n)]
  }

  /** A whole retry loop: the retried attempts, then the attempt that stopped
      it, if any; only a fatal attempt ends the module. */
  function LoopRun(attempts: seq<Attempt>): (r: Run)
    ensures r.stop.Some? ==>
      FirstStop(attempts, 0) < |attempts| && attempts[FirstStop(attempts, 0)].verdict == Fatal(r.stop.value)
    ensures Retries(attempts, FirstStop(attempts, 0)) <= r.trace
  {
    var n := FirstStop(attempts, 0);
    if n == |attempts| then Run(Retries(attempts, n), None)
    else
      var a := attempts[n];
      Run(Retries(attempts, n) + a.events, if a.verdict.Fatal? then Some(a.verdict.exit) else None)
  }

  /** The k-th health check: its outcome and whether it issued a repair. */
  function HealthStep(ctx: Context, k: nat): (Outcome, bool) {
    HealthCheck(ctx.poolname, ctx.env.dump(k), ctx.env.decodeDump, ctx.env.repair(k))
  }

  /** Health checks 0 .. n-1, as the health loop would make them if none of them succeeded. */
  function Checks(ctx: Context, n: nat): (r: seq<(Outcome, bool)>)
    ensures |r| == n
  {
    if n == 0 then [] else Checks(ctx, n - 1) + [HealthStep(ctx, n - 1)]
  }

  /** Check k of the sequence is the k-th health check. */
  lemma {:induction false} ChecksAt(ctx: Context, n: nat, k: nat)
    requires k < n
    ensures Checks(ctx, n)[k] == HealthStep(ctx, k)
  {
    if k < n - 1 {
      ChecksAt(ctx, n - 1, k);
    }
  }

  /** What one health check runs: the dump, then the repair when it issued one. */
  function HealthEvents(repaired: bool): seq<Event> {
    [Cmd(DumpArgv)] + (if repaired then [Cmd(RepairArgv)] else [])
  }

  predicate IsPoolNotFound(err: Option<Error>) {
    err.Some? && err.value.PoolNotFoundException?
  }

  /** How many of the health checks 0 .. k-1 reported PoolNotFoundException. */
  function NotFoundCount(checks: seq<(Outcome, bool)>, k: nat): (c: nat)
    requires k <= |checks|
    ensures c <= k
  {
    if k == 0 then 0
    else NotFoundCount(checks, k - 1) + (if IsPoolNotFound(checks[k - 1].0.err) then 1 else 0)
  }

  /** The first health check, at or after check k, that succeeds; the number of checks when none does. */
  function FirstHealthy(checks: seq<(Outcome, bool)>, k: nat): (n: nat)
    requires k <= |checks|
    ensures k <= n <= |checks|
    ensures forall j :: k <= j < n ==> !checks[j].0.ok
    ensures n < |checks| ==> checks[n].0.ok
    decreases |checks| - k
  {
    if k == |checks| || checks[k].0.ok then k
    else FirstHealthy(checks, k + 1)
  }

  /** The events of failed health checks 0 .. k-1: a PoolNotFoundException is
      followed by a sleep one second longer than the previous such sleep. */
  function FailedChecks(checks: seq<(Outcome, bool)>, k: nat): seq<Event>
    requires k <= |checks|
  {
    if k == 0 then []
    else
      var step := checks[k - 1];
      FailedChecks(checks, k - 1) + HealthEvents(step.1)
      + (if IsPoolNotFound(step.0.err) then [Sleep(NotFoundCount(checks, k - 1) + 1)] else [])
  }

  /** The whole health loop: the first healthy check exits with the group name
      and changed=True; when every check fails the module fails with the last
      error, also with changed=True. */
  function HealthRun(checks: seq<(Outcome, bool)>, rgname: string): (r: Final)
    requires |checks| > 0
    ensures r.exit.changed
    ensures r.exit.Exited? <==> exists k :: 0 <= k < |checks| && checks[k].0.ok
    ensures r.exit.Failed? ==> r.exit.cause == checks[|checks| - 1].0.err
  {
    var n := FirstHealthy(checks, 0);
    if n < |checks|
    then Final(FailedChecks(checks, n) + HealthEvents(checks[n].1), Exited(true, Some(rgname)))
    else Final(FailedChecks(checks, n), Failed(true, ErrorText, checks[n - 1].0.err))
  }

  /** The health loop ends at the first healthy check. */
  lemma HealthRunHealthy(checks: seq<(Outcome, bool)>, k: nat, rgname: string)
    requires k < |checks| && checks[k].0.ok && k <= FirstHealthy(checks, 0)
    ensures HealthRun(checks, rgname) == Final(FailedChecks(checks, k) + HealthEvents(checks[k].1), Exited(true, Some(rgname)))
  {
  }

  /** After a failed check, the failed checks grow by that check's events and
      by its sleep when it reported PoolNotFoundException. */
  lemma FailedChecksStep(checks: seq<(Outcome, bool)>, k: nat)
    requires k < |checks|
    ensures FailedChecks(checks, k + 1) == FailedChecks(checks, k) + HealthEvents(checks[k].1)
      + (if IsPoolNotFound(checks[k].0.err) then [Sleep(NotFoundCount(checks, k) + 1)] else [])
    ensures NotFoundCount(checks, k + 1) == NotFoundCount(checks, k) + (if IsPoolNotFound(checks[k].0.err) then 1 else 0)
  {
  }

  /** The whole module run. */
  ghost function Reconcile(ctx: Context): (r: Final)
    ensures |r.trace| > 0 && r.trace[0] == ReadFile(StateFile)
    ensures AlreadyBound(ctx.poolname, ctx.env.snapshot) ==> r == Final([ReadFile(StateFile)], Exited(false, None))
  {
    var start := [ReadFile(StateFile)];
    if AlreadyBound(ctx.poolname, ctx.env.snapshot) then Final(start, Exited(false, None))
    else
      var local := LoopRun(Attempts(ctx, VisibleLocal));
      var peer := LoopRun(Attempts(ctx, VisiblePeer));
      var create := LoopRun(Attempts(ctx, CreateGroup));
      var before := start + local.trace + peer.trace;
      if create.stop.Some? then Final(before + create.trace, create.stop.value)
      else
        var attach := LoopRun(Attempts(ctx, AttachPool));
        if attach.stop.Some? then Final(before + create.trace + attach.trace, attach.stop.value)
        else
          var health := HealthRun(Checks(ctx, HealthBudget), GroupName(ctx.poolname));
          Final(before + create.trace + attach.trace + health.trace, health.exit)
  }

  /** A visibility loop (local, then peer): at most 60 probes; every failed
      probe is followed by one refresh, whose result is ignored, and one sleep
      of 1, 2, 3, ... seconds; running out of probes is not an error. */
  method VisibilityLoop(ctx: Context, s: Stage) returns (ghost events: seq<Event>)
    requires s == VisibleLocal || s == VisiblePeer
    ensures events == LoopRun(Attempts(ctx, s)).trace
    ensures LoopRun(Attempts(ctx, s)).stop == None
  {
    ghost var attempts := Attempts(ctx, s);
    ghost var n := FirstStop(attempts, 0);
    events := [];
    var backoff := 1;
    var i := 0;
    while i < VisibilityBudget
      invariant 0 <= i <= n && backoff == i + 1
      invariant events == Retries(attempts, i)
    {
      var visible, probed := ProbeOnce(ctx, s, i);
      if !visible {
        assert i < n;
        events := events + probed + [Sleep(backoff)];
        assert events == Retries(attempts, i + 1);
        backoff := backoff + 1;
      } else {
        assert i == n;
        events := events + probed;
        assert LoopRun(attempts) == Run(events, None);
        break;
      }
      i := i + 1;
    }
  }

  /** Attempt i of a visibility loop: list the pools on the target and, when
      the pool is not among them, ask the target to rescan its devices. */
  method ProbeOnce(ctx: Context, s: Stage, i: nat) returns (visible: bool, ghost events: seq<Event>)
    requires s == VisibleLocal || s == VisiblePeer
    requires i < Budget(s)
    ensures Attempts(ctx, s)[i] == Attempt(events, if visible then Succeeded else Retry)
  {
    AttemptsAt(ctx, s, Budget(s), i);
    var target := if s == VisibleLocal then Local else PeerTarget(ctx);
    var listed := if s == VisibleLocal then ctx.env.localList(i) else ctx.env.peerList(i);
    assert AttemptAt(ctx, s, i) == VisibilityAttempt(ctx, target, listed);
    visible := EnsurePoolIsVisible(ctx.poolname, target, listed, ctx.env.decodeListing).ok;
    events := [Cmd(CommandOn(target, ListPoolsArgv))];
    if !visible {
      var _ := IssueRefresh(target, if s == VisibleLocal then ctx.env.localRescan(i) else ctx.env.peerRescan(i));
      events := events + [Cmd(CommandOn(target, RescanArgv))];
    }
  }

  /** The create loop: at most 30 attempts; only a CalledProcessError whose
      stderr is exactly the "in transition" text is retried; any other failure
      ends the module; running out of attempts is not an error. */
  method CreateLoop(ctx: Context) returns (stop: Option<ModuleExit>, ghost events: seq<Event>)
    ensures Run(events, stop) == LoopRun(Attempts(ctx, CreateGroup))
  {
    var rgname := GroupName(ctx.poolname);
    ghost var attempts := Attempts(ctx, CreateGroup);
    ghost var n := FirstStop(attempts, 0);
    events := [];
    var delay := 1;
    var i := 0;
    while i < CreateBudget
      invariant 0 <= i <= n && delay == i + 1
      invariant events == Retries(attempts, i)
    {
      var res, issued := CreateOnce(ctx, rgname, i);
      ghost var attempt := attempts[i];
      events := events + issued;
      if !attempt.verdict.Retry? {
        assert i == n;
        assert LoopRun(attempts) == Run(events, if attempt.verdict.Fatal? then Some(attempt.verdict.exit) else None);
      }
      if res.ok {
        return None, events;
      }
      if res.err.Some? && res.err.value.CalledProcessError? {
        if res.err.value.stderr == InTransition {
          events := events + [Sleep(delay)];
          delay := delay + 1;
          i := i + 1;
          continue;
        }
        return Some(Failed(false, NonZeroExitStatus, res.err)), events;
      } else if res.err.Some? && res.err.value.IOError? {
        return Some(Failed(false, IoErrorEncountered, res.err)), events;
      } else {
        return Some(Failed(false, ErrorText, res.err)), events;
      }
    }
    return None, events;
  }

  /** Attempt i of the create loop: with an explicit node name the hostname
      file is not read. */
  method CreateOnce(ctx: Context, rgname: string, i: nat) returns (res: Outcome, ghost events: seq<Event>)
    requires rgname == GroupName(ctx.poolname) && i < CreateBudget
    ensures Attempts(ctx, CreateGroup)[i] == Attempt(events, CreateVerdict(res))
  {
    AttemptsAt(ctx, CreateGroup, CreateBudget, i);
    var hostname := ctx.node;
    events := [];
    if hostname == "" {
      events := events + [ReadFile(HostnameFile)];
    }
    var resolved := ResolveHostname(hostname, ctx.env.hostFile(i));
    if resolved.Ok? {
      events := events + [Cmd(CreateArgv(resolved.value, rgname))];
    }
    if ctx.node != "" {
      res := CreateResourceGroup(rgname, ctx.node, ctx.env.hostFile(i), ctx.env.create(i));
    } else {
      res := CreateResourceGroup(rgname, "", ctx.env.hostFile(i), ctx.env.create(i));
    }
  }

  /** The attach loop: the same retry policy as the create loop. */
  method AttachLoop(ctx: Context) returns (stop: Option<ModuleExit>, ghost events: seq<Event>)
    ensures Run(events, stop) == LoopRun(Attempts(ctx, AttachPool))
  {
    var rgname := GroupName(ctx.poolname);
    ghost var attempts := Attempts(ctx, AttachPool);
    ghost var n := FirstStop(attempts, 0);
    events := [];
    var delay := 1;
    var i := 0;
    while i < AttachBudget
      invariant 0 <= i <= n && delay == i + 1
      invariant events == Retries(attempts, i)
    {
      var res, issued := AttachOnce(ctx, rgname, i);
      ghost var attempt := attempts[i];
      events := events + issued;
      if !attempt.verdict.Retry? {
        assert i == n;
        assert LoopRun(attempts) == Run(events, if attempt.verdict.Fatal? then Some(attempt.verdict.exit) else None);
      }
      if res.ok {
        return None, events;
      }
      if res.err.Some? && res.err.value.CalledProcessError? {
        if res.err.value.stderr == InTransition {
          events := events + [Sleep(delay)];
          delay := delay + 1;
          i := i + 1;
          continue;
        }
        return Some(Failed(false, NonZeroExistStatus, res.err)), events;
      } else {
        return Some(Failed(false, ErrorText, res.err)), events;
      }
    }
    return None, events;
  }

  /** Attempt i of the attach loop: add the pool to the resource group. */
  method AttachOnce(ctx: Context, rgname: string, i: nat) returns (res: Outcome, ghost events: seq<Event>)
    requires rgname == GroupName(ctx.poolname) && i < AttachBudget
    ensures Attempts(ctx, AttachPool)[i] == Attempt(events, AttachVerdict(res))
  {
    AttemptsAt(ctx, AttachPool, AttachBudget, i);
    var argv := AttachArgv(rgname, ctx.poolname);
    events := [Cmd(argv)];
    res := AddPoolToResourceGroup(rgname, ctx.poolname, ctx.env.attach(i));
  }

  /** The health loop: at most 5 checks; the first success ends the module
      with changed=True; every error is retried, but only
      PoolNotFoundException sleeps; after 5 failures the module fails with
      the last error and changed=True. */
  method HealthCheckLoop(ctx: Context) returns (exit: ModuleExit, ghost events: seq<Event>)
    ensures Final(events, exit) == HealthRun(Checks(ctx, HealthBudget), GroupName(ctx.poolname))
  {
    var rgname := GroupName(ctx.poolname);
    ghost var checks := Checks(ctx, HealthBudget);
    ghost var n := FirstHealthy(checks, 0);
    events := [];
    var delay := 1;
    var err: Option<Error> := None;
    var k := 0;
    while k < HealthBudget
      invariant 0 <= k <= n && delay == NotFoundCount(checks, k) + 1
      invariant events == FailedChecks(checks, k)
      invariant k > 0 ==> err == checks[k - 1].0.err
    {
      var checked, repaired, issued := CheckOnce(ctx, k);
      err := checked.err;
      if checked.ok {
        HealthRunHealthy(checks, k, rgname);
        return Exited(true, Some(rgname)), events + issued;
      }
      FailedChecksStep(checks, k);
      events := events + issued;
      if err.Some? && err.value.PoolNotFoundException? {
        events := events + [Sleep(delay)];
        delay := delay + 1;
      }
      k := k + 1;
    }
    return Failed(true, ErrorText, err), events;
  }

  /** Health check k of the health loop. */
  method CheckOnce(ctx: Context, k: nat) returns (checked: Outcome, repaired: bool, ghost events: seq<Event>)
    requires k < HealthBudget
    ensures (checked, repaired) == Checks(ctx, HealthBudget)[k]
    ensures events == HealthEvents(repaired)
  {
    checked, repaired := CheckAndRepairIfPossible(ctx.poolname, ctx.env.dump(k), ctx.env.decodeDump, ctx.env.repair(k));
    ChecksAt(ctx, HealthBudget, k);
    events := [Cmd(DumpArgv)];
    if repaired {
      events := events + [Cmd(RepairArgv)];
    }
  }

  /** `run_module`: the short-circuit on the persisted snapshot, then the five loops in order. */
  method RunModule(ctx: Context) returns (exit: ModuleExit, ghost trace: seq<Event>)
    ensures exit == Reconcile(ctx).exit
    ensures trace == Reconcile(ctx).trace
  {
    trace := [ReadFile(StateFile)];
    var bound := CheckPoolAlreadyInResourceGroup(ctx.poolname, ctx.env.snapshot);
    if bound {
      return Exited(false, None), trace;
    }
    ghost var local := VisibilityLoop(ctx, VisibleLocal);
    ghost var peer := VisibilityLoop(ctx, VisiblePeer);
    trace := trace + local + peer;
    var stop, created := CreateLoop(ctx);
    trace := trace + created;
    if stop.Some? {
      return stop.value, trace;
    }
    ghost var attached;
    stop, attached := AttachLoop(ctx);
    trace := trace + attached;
    if stop.Some? {
      return stop.value, trace;
    }
    ghost var checked;
    exit, checked := HealthCheckLoop(ctx);
    trace := trace + checked;
  }
}
