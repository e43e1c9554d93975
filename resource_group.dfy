/**
 * The single-shot helpers of the pool -> resource-group reconciler
 * (library/create_resource_group.py): command lines, the exact-output
 * success predicates, the hostname fallback, the health decision over a
 * cluster dump and the "already bound" check over the persisted snapshot.
 *
 * Every external command is replaced by its captured result (a CmdResult),
 * and every JSON document by its decoded, typed form. Byte strings are
 * modelled as strings of ASCII characters.
 */
module ResourceGroup {
  import opened Common

  const Hiavadm: string := "/usr/racktop/sbin/hiavadm"
  const ListPoolsArgv: seq<string> := ["/usr/racktop/sbin/hwadm", "-j", "ls", "p"]
  const RescanArgv: seq<string> := ["/usr/racktop/sbin/hwadm", "rescan", "--ep"]
  const DumpArgv: seq<string> := [Hiavadm, "i", "dump"]
  const RepairArgv: seq<string> := [Hiavadm, "repair"]
  const DefaultKeyDir: string := "/root/.ssh"
  const HostnameFile: string := "/etc/hostname"
  const StateFile: string := "/etc/racktop/hiavd/serialized.dat"
  /** The only rescan output that counts as success. */
  const RescanAck: string := "Rescan started.\ncomplete.\n"
  /** The stderr text of the one retried control-plane failure. */
  const InTransition: string := "Cluster is currently in transition.\n"
  /** At most this many characters of the hostname file are read. */
  const HostnameReadLimit: nat := 256

  /** Where a command runs: on this node, or on the HA peer over ssh. */
  datatype Target = Local | Remote(addr: string, keydir: string)

  /** The captured result of one external command run with `check=True`. */
  datatype CmdResult =
    | Completed(stdout: string, stderr: string)
    | NonZero(returncode: int, stdout: string, stderr: string)

  /** The exceptions the helpers return as values. */
  datatype Error =
    | CalledProcessError(cmd: seq<string>, returncode: int, stdout: string, stderr: string)
    | IOError(errno: int, filename: string)
    | PoolNotFoundException(pool: string)
    | PoolNotRepairableException(problems: seq<string>)

  /** The `(ok, err)` pair every helper returns. */
  datatype Outcome = Outcome(ok: bool, err: Option<Error>)

  /** Reading a text file: its contents, or the IOError raised by `open`/`read`. */
  datatype FileRead = ReadOk(content: string) | ReadFailed(errno: int, filename: string)

  /** One record of the `hwadm -j ls p` listing. */
  datatype PoolRecord = PoolRecord(name: string)

  /** One pool entry of the cluster dump. */
  datatype DumpPool = DumpPool(name: string, problems: seq<string>, canRepair: bool)

  /** One resource group of the cluster dump; `Pools` may be absent or null (None). */
  datatype DumpGroup = DumpGroup(pools: Option<seq<DumpPool>>)

  /** One `Cluster.Pools` record of the persisted snapshot. */
  datatype SnapshotPool = SnapshotPool(cachedName: string, groupId: string)

  /** The persisted snapshot: the `Cluster.Pools` records in mapping order and
      the keys of `Cluster.ResourceGroups`. */
  datatype Snapshot = Snapshot(pools: seq<SnapshotPool>, groupIds: set<string>)

  /** The ssh argument prefix that runs a command on `addr`. */
  function SshPrefix(addr: string, keydir: string): (r: seq<string>)
    ensures |r| == 6 && r[0] == "/bin/ssh"
    ensures r[4] == keydir + "/id_ed25519" && r[5] == addr
  {
    ["/bin/ssh", "-o", "StrictHostKeyChecking=no", "-i", keydir + "/" + "id_ed25519", addr]
  }

  /** The argument vector that runs `argv` on target `t`. */
  function CommandOn(t: Target, argv: seq<string>): (r: seq<string>)
    ensures t.Local? ==> r == argv
    ensures t.Remote? ==> |r| == 6 + |argv| && r[6..] == argv
    ensures t.Remote? ==> r[4] == t.keydir + "/id_ed25519" && r[5] == t.addr
  {
    if t.Local? then argv else SshPrefix(t.addr, t.keydir) + argv
  }

  function CreateArgv(hostname: string, rgname: string): seq<string> {
    [Hiavadm, "u", "r", "-n", hostname, rgname]
  }

  function AttachArgv(rgname: string, poolname: string): seq<string> {
    [Hiavadm, "u", "p", "--add", rgname, poolname]
  }

  /** The `Name` fields of a listing, in order. */
  function Names(pools: seq<PoolRecord>): (r: seq<string>)
    ensures |r| == |pools|
    ensures forall i :: 0 <= i < |pools| ==> r[i] == pools[i].name
  {
    if pools == [] then [] else [pools[0].name] + Names(pools[1..])
  }

  /** `pool_exists_in_the_result` on the decoded listing; a JSON null is None. */
  function PoolExistsInResult(poolname: string, listing: Option<seq<PoolRecord>>): (r: bool)
    ensures r <==> listing.Some? && exists i :: 0 <= i < |listing.value| && listing.value[i].name == poolname
  {
    var names := if listing.Some? then Names(listing.value) else [];
    if names != [] then poolname in names else false
  }

  /** `ensure_pool_is_visible`: a failed listing is "not visible" with the error attached. */
  function EnsurePoolIsVisible(poolname: string, t: Target, res: CmdResult,
                               decode: string -> Option<seq<PoolRecord>>): (r: Outcome)
    ensures r.ok <==> res.Completed? && PoolExistsInResult(poolname, decode(res.stdout))
    ensures r.err.Some? <==> res.NonZero?
    ensures res.NonZero? ==> r.err == Some(CalledProcessError(CommandOn(t, ListPoolsArgv), res.returncode, res.stdout, res.stderr))
  {
    match res
    case NonZero(code, out, err) =>
      Outcome(false, Some(CalledProcessError(CommandOn(t, ListPoolsArgv), code, out, err)))
    case Completed(out, _) =>
      Outcome(PoolExistsInResult(poolname, decode(out)), None)
  }

  /** `issue_refresh`: success needs stdout followed by stderr to be exactly the acknowledgement. */
  function IssueRefresh(t: Target, res: CmdResult): (r: Outcome)
    ensures r.ok ==> res.Completed? && res.stdout + res.stderr == RescanAck
    ensures res.Completed? && res.stdout + res.stderr == RescanAck ==> r == Outcome(true, None)
    ensures res.NonZero? ==> r == Outcome(false, Some(CalledProcessError(CommandOn(t, RescanArgv), res.returncode, res.stdout, res.stderr)))
  {
    match res
    case NonZero(code, out, err) =>
      Outcome(false, Some(CalledProcessError(CommandOn(t, RescanArgv), code, out, err)))
    case Completed(out, err) =>
      Outcome(out + err == RescanAck, None)
  }

  /** The hostname fallback of `create_resource_group`: an explicit hostname is
      used as given; otherwise the first 256 characters of the hostname file,
      minus their last character when there is one. */
  function ResolveHostname(hostname: string, file: FileRead): (r: Result<string, Error>)
    ensures hostname != "" ==> r == Ok(hostname)
    ensures hostname == "" && file.ReadFailed? ==> r == Err(IOError(file.errno, file.filename))
    ensures hostname == "" && file.ReadOk? ==>
      && r.Ok?
      && |r.value| == (if file.content == "" then 0 else Min(HostnameReadLimit, |file.content|) - 1)
      && r.value == file.content[..|r.value|]
  {
    if hostname != "" then Ok(hostname)
    else match file
      case ReadFailed(errno, name) => Err(IOError(errno, name))
      case ReadOk(content) =>
        var head := content[..Min(HostnameReadLimit, |content|)];
        Ok(if head != "" then head[..|head| - 1] else head)
  }

  /** `create_resource_group`: a read error returns before any command runs;
      success looks at `stdout + stdout` only, never at stderr. */
  function CreateResourceGroup(rgname: string, hostname: string, file: FileRead, res: CmdResult): (r: Outcome)
    ensures r.ok <==> ResolveHostname(hostname, file).Ok? && res.Completed? && res.stdout == ""
    ensures ResolveHostname(hostname, file).Err? ==> r == Outcome(false, Some(ResolveHostname(hostname, file).error))
    ensures ResolveHostname(hostname, file).Ok? && res.NonZero? ==>
      r == Outcome(false, Some(CalledProcessError(CreateArgv(ResolveHostname(hostname, file).value, rgname),
                                                  res.returncode, res.stdout, res.stderr)))
    ensures res.Completed? ==> r.err.Some? == ResolveHostname(hostname, file).Err?
  {
    match ResolveHostname(hostname, file)
    case Err(e) => Outcome(false, Some(e))
    case Ok(host) =>
      match res
      case NonZero(code, out, err) =>
        Outcome(false, Some(CalledProcessError(CreateArgv(host, rgname), code, out, err)))
      case Completed(out, _) =>
        Outcome(out + out == "", None)
  }

  /** `add_pool_to_resource_group`: success needs empty stdout and stderr. */
  function AddPoolToResourceGroup(rgname: string, poolname: string, res: CmdResult): (r: Outcome)
    ensures r.ok <==> res.Completed? && res.stdout == "" && res.stderr == ""
    ensures r.err.Some? <==> res.NonZero?
    ensures res.NonZero? ==> r.err == Some(CalledProcessError(AttachArgv(rgname, poolname), res.returncode, res.stdout, res.stderr))
  {
    match res
    case NonZero(code, out, err) =>
      Outcome(false, Some(CalledProcessError(AttachArgv(rgname, poolname), code, out, err)))
    case Completed(out, err) =>
      Outcome(out + err == "", None)
  }

  /** The resource-group name: "RG" followed by the pool name without its
      first character, whatever that character is. */
  function GroupName(poolname: string): (r: string)
    ensures |r| >= 2 && r[..2] == "RG"
    ensures poolname == "" ==> r == "RG"
    ensures poolname != "" ==> [poolname[0]] + r[2..] == poolname
  {
    "RG" + (if poolname == "" then "" else poolname[1..])
  }

  /** The index of the first pool of one group named `poolname`, or the
      length of the group when there is none. */
  function FirstIndex(pools: seq<DumpPool>, poolname: string): (k: nat)
    ensures k <= |pools|
    ensures forall j :: 0 <= j < k ==> pools[j].name != poolname
    ensures k < |pools| ==> pools[k].name == poolname
  {
    if pools == [] || pools[0].name == poolname then 0
    else 1 + FirstIndex(pools[1..], poolname)
  }

  /** The first pool of one group named `poolname` (the inner `break`). */
  function FirstInGroup(pools: seq<DumpPool>, poolname: string): Option<DumpPool> {
    var k := FirstIndex(pools, poolname);
    if k < |pools| then Some(pools[k]) else None
  }

  /** The pools of a group as the loop sees them: absent, null or empty all skip. */
  function GroupPools(g: DumpGroup): seq<DumpPool> {
    if g.pools.Some? then g.pools.value else []
  }

  /** The pool record `check_and_repair_if_possible` ends up with: the first
      match within the LAST group that holds the name, since the `break` leaves
      only the inner loop and a later group overwrites an earlier match. */
  function LastMatch(groups: seq<DumpGroup>, poolname: string): (r: Option<DumpPool>)
    ensures r.Some? ==> r.value.name == poolname
  {
    if groups == [] then None
    else
      var m := FirstInGroup(GroupPools(groups[|groups| - 1]), poolname);
      if m.Some? then m else LastMatch(groups[..|groups| - 1], poolname)
  }

  /** `check_and_repair_if_possible` as a value: the outcome and whether the
      repair command was issued. */
  function HealthCheck(poolname: string, dump: CmdResult, decode: string -> seq<DumpGroup>,
                       repair: CmdResult): (r: (Outcome, bool))
    ensures r.0.ok <==> r.0.err.None?
    ensures r.1 ==> dump.Completed? && LastMatch(decode(dump.stdout), poolname).Some?
  {
    match dump
    case NonZero(code, out, err) => (Outcome(false, Some(CalledProcessError(DumpArgv, code, out, err))), false)
    case Completed(out, _) =>
      match LastMatch(decode(out), poolname)
      case None => (Outcome(false, Some(PoolNotFoundException(poolname))), false)
      case Some(info) =>
        if info.problems == [] then (Outcome(true, None), false)
        else if !info.canRepair then (Outcome(false, Some(PoolNotRepairableException(info.problems))), false)
        else match repair
          case NonZero(code, out, err) => (Outcome(false, Some(CalledProcessError(RepairArgv, code, out, err))), true)
          case Completed(_, _) => (Outcome(true, None), true)
  }

  /** The search comes back empty exactly when no group holds the name. */
  lemma {:induction false} LastMatchNone(groups: seq<DumpGroup>, poolname: string)
    ensures LastMatch(groups, poolname).None? <==>
      forall g :: 0 <= g < |groups| ==> FirstInGroup(GroupPools(groups[g]), poolname).None?
  {
    if groups != [] {
      var last := |groups| - 1;
      LastMatchNone(groups[..last], poolname);
      assert forall g :: 0 <= g < last ==> groups[..last][g] == groups[g];
    }
  }

  /** The index of the last group that holds the name, or -1 when none does. */
  function LastHolder(groups: seq<DumpGroup>, poolname: string): (g: int)
    ensures -1 <= g < |groups|
    ensures g >= 0 ==> FirstInGroup(GroupPools(groups[g]), poolname).Some?
    ensures forall h :: g < h < |groups| ==> FirstInGroup(GroupPools(groups[h]), poolname).None?
  {
    if groups == [] then -1
    else if FirstInGroup(GroupPools(groups[|groups| - 1]), poolname).Some? then |groups| - 1
    else
      var g := LastHolder(groups[..|groups| - 1], poolname);
      assert forall h :: 0 <= h < |groups| - 1 ==> groups[..|groups| - 1][h] == groups[h];
      g
  }

  /** The search returns the first match of the last group that holds the
      name, and that record carries the name. */
  lemma {:induction false} LastMatchIsLast(groups: seq<DumpGroup>, poolname: string)
    ensures var g := LastHolder(groups, poolname);
      LastMatch(groups, poolname) == if g < 0 then None else FirstInGroup(GroupPools(groups[g]), poolname)
    ensures LastMatch(groups, poolname).Some? ==> LastMatch(groups, poolname).value.name == poolname
  {
    if groups != [] {
      var last := |groups| - 1;
      if FirstInGroup(GroupPools(groups[last]), poolname).None? {
        var front := groups[..last];
        LastMatchIsLast(front, poolname);
        var g := LastHolder(front, poolname);
        if g >= 0 {
          assert front[g] == groups[g];
        }
      }
    }
  }

  /** The health decision: success needs a completed dump that holds the pool
      with no problems, or a repairable pool whose repair completes; the repair
      command is issued exactly for a repairable pool with problems; a failure
      always carries its error and a success never does: the dump's or the
      repair's CalledProcessError, PoolNotFoundException, or
      PoolNotRepairableException carrying the pool's problem list. */
  lemma HealthCheckCases(poolname: string, dump: CmdResult, decode: string -> seq<DumpGroup>, repair: CmdResult)
    ensures var (out, repaired) := HealthCheck(poolname, dump, decode, repair);
      var found := if dump.Completed? then LastMatch(decode(dump.stdout), poolname) else None;
      && (out.ok <==> found.Some? && (found.value.problems == [] || (found.value.canRepair && repair.Completed?)))
      && (repaired <==> found.Some? && found.value.problems != [] && found.value.canRepair)
      && (out.ok <==> out.err.None?)
      && (out.err == Some(PoolNotFoundException(poolname)) <==> dump.Completed? && found.None?)
      && (dump.NonZero? ==> out.err == Some(CalledProcessError(DumpArgv, dump.returncode, dump.stdout, dump.stderr)))
      && (found.Some? && found.value.problems != [] && !found.value.canRepair ==>
            out.err == Some(PoolNotRepairableException(found.value.problems)))
      && (repaired && repair.NonZero? ==>
            out.err == Some(CalledProcessError(RepairArgv, repair.returncode, repair.stdout, repair.stderr)))
  {
  }

  /** `check_and_repair_if_possible`: scan every group, keep the last match,
      then decide. */
  method CheckAndRepairIfPossible(poolname: string, dump: CmdResult, decode: string -> seq<DumpGroup>,
                                  repair: CmdResult) returns (out: Outcome, repaired: bool)
    ensures (out, repaired) == HealthCheck(poolname, dump, decode, repair)
  {
    if dump.NonZero? {
      return Outcome(false, Some(CalledProcessError(DumpArgv, dump.returncode, dump.stdout, dump.stderr))), false;
    }
    var groups := decode(dump.stdout);
    var info: Option<DumpPool> := None;
    var i := 0;
    while i < |groups|
      invariant 0 <= i <= |groups|
      invariant info == LastMatch(groups[..i], poolname)
    {
      var pools := groups[i].pools;
      assert groups[..i + 1][..i] == groups[..i];
      if pools.Some? && pools.value != [] {
        var j := 0;
        while j < |pools.value|
          invariant 0 <= j <= |pools.value|
          invariant info == LastMatch(groups[..i], poolname)
          invariant forall k :: 0 <= k < j ==> pools.value[k].name != poolname
        {
          if pools.value[j].name == poolname {
            info := Some(pools.value[j]);
            break;
          }
          j := j + 1;
        }
      }
      i := i + 1;
    }
    assert groups[..|groups|] == groups;
    if info.None? {
      return Outcome(false, Some(PoolNotFoundException(poolname))), false;
    }
    if info.value.problems == [] {
      return Outcome(true, None), false;
    }
    if !info.value.canRepair {
      return Outcome(false, Some(PoolNotRepairableException(info.value.problems))), false;
    }
    if repair.NonZero? {
      return Outcome(false, Some(CalledProcessError(RepairArgv, repair.returncode, repair.stdout, repair.stderr))), true;
    }
    return Outcome(true, None), true;
  }

  /** The pool is already bound: some snapshot record caches this name and
      points at a resource group the snapshot knows. */
  ghost predicate AlreadyBound(poolname: string, snap: Snapshot) {
    exists i :: 0 <= i < |snap.pools| && snap.pools[i].cachedName == poolname
                && snap.pools[i].groupId in snap.groupIds
  }

  /** `check_pool_already_in_resource_group` over the decoded snapshot. */
  method CheckPoolAlreadyInResourceGroup(poolname: string, snap: Snapshot) returns (bound: bool)
    ensures bound <==> AlreadyBound(poolname, snap)
  {
    var i := 0;
    while i < |snap.pools|
      invariant 0 <= i <= |snap.pools|
      invariant forall k :: 0 <= k < i ==> !(snap.pools[k].cachedName == poolname && snap.pools[k].groupId in snap.groupIds)
    {
      var details := snap.pools[i];
      if details.cachedName != poolname {
        i := i + 1;
        continue;
      }
      if details.groupId in snap.groupIds {
        return true;
      }
      i := i + 1;
    }
    return false;
  }
}
