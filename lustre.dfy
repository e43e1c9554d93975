/**
 * The `mkfs.lustre` command builder of library/make_lustre_zfs.py: the
 * checks of the LustreFilesystem constructor, the target type, the
 * formatting of each argument, the filtered command list, and the main loop
 * that skips datasets which already exist and decides `changed`.
 *
 * A dataset mapping is a sequence of (key, settings) pairs in insertion
 * order, as a Python dict iterates; each settings value holds the keys the
 * constructor reads, each one possibly missing.
 */
module Lustre {
  import opened Common

  const DefaultFsname := "bsrfs"
  /** The sentinel the constructor stores when `index` is missing. */
  const NoIndex := -1

  datatype Settings = Settings(
    index: Option<int>,
    mgsnode: Option<seq<string>>,
    mkfsopts: Option<seq<(string, string)>>,
    servicenode: Option<seq<string>>)

  type Mapping = seq<(string, Settings)>

  /** The exceptions the builder and the main loop raise. */
  datatype LustreError =
    | InvalidNumberOfKeys
    | StopIteration                   // `next` on the iterator of an empty mapping
    | DatasetNameTooShort             // the constructor's ValueError
    | MissingKey(key: string)         // KeyError on a required setting
    | UnknownTargetType(name: string) // the ValueError of `target_type`
    | MissingPool(poolname: string)   // MissingPoolException

  datatype LustreFilesystem = LustreFilesystem(
    poolname: string,
    fsname: string,
    datasetName: string,
    index: int,
    mgsnode: Option<seq<string>>,
    mkfsopts: seq<(string, string)>,
    servicenode: seq<string>)

  /** The constructor: exactly one key, a dataset name of at least five
      characters, and the required `mkfsopts` and `servicenode` settings, read
      in that order; a missing index becomes the sentinel -1. */
  function New(poolname: string, mapping: Mapping, fsname: string): (r: Result<LustreFilesystem, LustreError>)
    ensures |mapping| > 1 ==> r == Err(InvalidNumberOfKeys)
    ensures mapping == [] ==> r == Err(StopIteration)
    ensures |mapping| == 1 && |mapping[0].0| < 5 ==> r == Err(DatasetNameTooShort)
    ensures r.Ok? <==>
      |mapping| == 1 && |mapping[0].0| >= 5
      && mapping[0].1.mkfsopts.Some? && mapping[0].1.servicenode.Some?
    ensures r.Ok? ==>
      r.value.poolname == poolname && r.value.fsname == fsname
      && r.value.datasetName == mapping[0].0
      && r.value.index == (if mapping[0].1.index.Some? then mapping[0].1.index.value else NoIndex)
      && r.value.mgsnode == mapping[0].1.mgsnode
      && r.value.mkfsopts == mapping[0].1.mkfsopts.value
      && r.value.servicenode == mapping[0].1.servicenode.value
  {
    if |mapping| > 1 then Err(InvalidNumberOfKeys)
    else if mapping == [] then Err(StopIteration)
    else
      var (key, settings) := mapping[0];
      if |key| < 5 then Err(DatasetNameTooShort)
      else if settings.mkfsopts.None? then Err(MissingKey("mkfsopts"))
      else if settings.servicenode.None? then Err(MissingKey("servicenode"))
      else
        Ok(LustreFilesystem(
          poolname, fsname, key,
          if settings.index.Some? then settings.index.value else NoIndex,
          settings.mgsnode, settings.mkfsopts.value, settings.servicenode.value))
  }

  /** Python's `s[:3]`. */
  function Prefix3(s: string): string {
    if |s| < 3 then s else s[..3]
  }

  /** The target type: the first three characters of the dataset name, which
      must be one of ost, mgt and mdt. */
  function TargetType(fs: LustreFilesystem): (r: Result<string, LustreError>)
    ensures r.Ok? <==>
      StartsWith(fs.datasetName, "ost") || StartsWith(fs.datasetName, "mgt") || StartsWith(fs.datasetName, "mdt")
    ensures r.Ok? ==> |r.value| == 3 && StartsWith(fs.datasetName, r.value)
    ensures r.Err? ==> r.error == UnknownTargetType(fs.datasetName)
  {
    var prefix := Prefix3(fs.datasetName);
    if prefix in {"ost", "mgt", "mdt"} then Ok(prefix) else Err(UnknownTargetType(fs.datasetName))
  }

  /** `--` followed by the target type. */
  function FmtTargetType(fs: LustreFilesystem): (r: Result<string, LustreError>)
    ensures r.Ok? <==> TargetType(fs).Ok?
    ensures r.Ok? ==> |r.value| == 5 && r.value[..2] == "--" && r.value[2..] == TargetType(fs).value
  {
    match TargetType(fs)
    case Ok(t) => Ok("--" + t)
    case Err(e) => Err(e)
  }

  /** The `k=v` pairs of the options, in order. */
  function OptionPairs(opts: seq<(string, string)>): (r: seq<string>)
    ensures |r| == |opts|
    ensures forall i :: 0 <= i < |opts| ==> r[i] == opts[i].0 + "=" + opts[i].1
  {
    if opts == [] then [] else [opts[0].0 + "=" + opts[0].1] + OptionPairs(opts[1..])
  }

  /** The mkfs options: the `k=v` pairs joined by " -o ", with no quotes. */
  function FmtMkfsOptions(opts: seq<(string, string)>): (r: string)
    ensures opts == [] ==> r == ""
    ensures |opts| == 1 ==> r == opts[0].0 + "=" + opts[0].1
  {
    Join(" -o ", OptionPairs(opts))
  }

  /** One `<option><node>` argument per node, in order. */
  function NodeArgs(option: string, nodes: seq<string>): (r: seq<string>)
    ensures |r| == |nodes|
    ensures forall i :: 0 <= i < |nodes| ==> r[i] == option + nodes[i]
  {
    if nodes == [] then [] else [option + nodes[0]] + NodeArgs(option, nodes[1..])
  }

  /** One `--servicenode=` argument per service node, in order. */
  function FmtServicenode(nodes: seq<string>): (r: seq<string>)
    ensures |r| == |nodes|
    ensures forall i :: 0 <= i < |nodes| ==> r[i] == "--servicenode=" + nodes[i]
  {
    NodeArgs("--servicenode=", nodes)
  }

  /** One `--mgsnode=` argument per MGS node for ost and mdt targets; none for
      a missing or empty list, and none for mgt, where the generator stops at
      the first node. The target type is only looked at when there is a node. */
  function FmtMgsnode(fs: LustreFilesystem): (r: Result<seq<string>, LustreError>)
    ensures fs.mgsnode.None? || fs.mgsnode.value == [] ==> r == Ok([])
    ensures TargetType(fs) == Ok("mgt") ==> r == Ok([])
    ensures TargetType(fs) == Ok("ost") || TargetType(fs) == Ok("mdt") ==>
      r.Ok? && |r.value| == (if fs.mgsnode.Some? then |fs.mgsnode.value| else 0)
      && forall i :: 0 <= i < |r.value| ==> r.value[i] == "--mgsnode=" + fs.mgsnode.value[i]
  {
    if fs.mgsnode.None? || fs.mgsnode.value == [] then Ok([])
    else match TargetType(fs)
      case Err(e) => Err(e)
      case Ok(t) => Ok(if t == "ost" || t == "mdt" then NodeArgs("--mgsnode=", fs.mgsnode.value) else [])
  }

  /** The `--index=` argument, given the target type. Python binds `and`
      tighter than `or`, so every ost gets one, even with the -1 sentinel,
      while an mdt gets one only with a real index. */
  function IndexArg(t: string, index: int): (r: Option<string>)
    ensures t == "ost" ==> r.Some?
    ensures t == "mgt" ==> r.None?
    ensures t == "mdt" ==> (r.Some? <==> index != NoIndex)
  {
    if t == "ost" || (t == "mdt" && index != NoIndex) then Some("--index=" + IntToString(index)) else None
  }

  /** Python's `os.path.join(a, b)` for two components: an absolute second
      component replaces the first; otherwise the second follows the first,
      separated by one `/` unless the first is empty or already ends in one. */
  function PathJoin(a: string, b: string): (r: string)
    ensures |b| > 0 && b[0] == '/' ==> r == b
    ensures !(|b| > 0 && b[0] == '/') && (a == "" || a[|a| - 1] == '/') ==> r == a + b
    ensures !(|b| > 0 && b[0] == '/') && |a| > 0 && a[|a| - 1] != '/' ==> r == a + "/" + b
  {
    if |b| > 0 && b[0] == '/' then b
    else if a == "" || a[|a| - 1] == '/' then a + b
    else a + "/" + b
  }

  /** The arguments that are not None, in order. */
  function Present(xs: seq<Option<string>>): (r: seq<string>)
    ensures |r| <= |xs|
  {
    if xs == [] then []
    else OptionList(xs[0]) + Present(xs[1..])
  }

  function OptionList(x: Option<string>): seq<string> {
    if x.Some? then [x.value] else []
  }

  /** Arguments that are never None. */
  function Lift(xs: seq<string>): (r: seq<Option<string>>)
    ensures |r| == |xs|
    ensures forall i :: 0 <= i < |xs| ==> r[i] == Some(xs[i])
  {
    if xs == [] then [] else [Some(xs[0])] + Lift(xs[1..])
  }

  function Flag(on: bool, arg: string): Option<string> {
    if on then Some(arg) else None
  }

  /** The candidate arguments before the node lists, in their fixed order. */
  function Head(fs: LustreFilesystem, t: string, echo: bool, reformat: bool, dryrun: bool): seq<Option<string>> {
    [Flag(echo, "echo"), Some("mkfs.lustre"), Flag(reformat, "--reformat"), Flag(dryrun, "--dryrun"),
     Some("--fsname=" + fs.fsname), Some("--" + t), IndexArg(t, fs.index)]
  }

  /** The arguments after the node lists. */
  function Tail(fs: LustreFilesystem): seq<string> {
    ["--mkfsoptions=" + FmtMkfsOptions(fs.mkfsopts), "--backfstype=zfs", PathJoin(fs.poolname, fs.datasetName)]
  }

  /** The command list: the candidate arguments in their fixed order, with
      the absent ones filtered out. */
  function FormatCommand(fs: LustreFilesystem, echo: bool, reformat: bool, dryrun: bool): (r: Result<seq<string>, LustreError>)
    ensures r.Ok? <==> TargetType(fs).Ok?
    ensures r.Err? ==> r.error == UnknownTargetType(fs.datasetName)
  {
    match TargetType(fs)
    case Err(e) => Err(e)
    case Ok(t) =>
      Ok(Present(Head(fs, t, echo, reformat, dryrun) + Lift(FmtMgsnode(fs).value)
                 + Lift(FmtServicenode(fs.servicenode)) + Lift(Tail(fs))))
  }

  lemma PresentCons(x: Option<string>, xs: seq<Option<string>>)
    ensures Present([x] + xs) == OptionList(x) + Present(xs)
  {
    assert ([x] + xs)[0] == x;
    assert ([x] + xs)[1..] == xs;
  }

  /** The present elements of the first four head candidates: the optional
      echo, mkfs.lustre, and the optional --reformat and --dryrun. */
  lemma PresentFlagCandidates(a: Option<string>, b: Option<string>, c: Option<string>, d: Option<string>)
    ensures Present([a, b, c, d]) == OptionList(a) + OptionList(b) + OptionList(c) + OptionList(d)
  {
    PresentCons(a, []);
    assert [a] + [] == [a];
    PresentSnoc([a], b);
    assert [a] + [b] == [a, b];
    PresentSnoc([a, b], c);
    assert [a, b] + [c] == [a, b, c];
    PresentSnoc([a, b, c], d);
    assert [a, b, c] + [d] == [a, b, c, d];
  }

  /** The present elements of the seven head candidates (see Head), in order. */
  lemma PresentHeadCandidates(a: Option<string>, b: Option<string>, c: Option<string>, d: Option<string>,
                              e: Option<string>, f: Option<string>, g: Option<string>)
    ensures Present([a, b, c, d, e, f, g]) == OptionList(a) + OptionList(b) + OptionList(c) + OptionList(d)
                                               + OptionList(e) + OptionList(f) + OptionList(g)
  {
    PresentFlagCandidates(a, b, c, d);
    var abcde, abcdef := [a, b, c, d, e], [a, b, c, d, e, f];
    PresentSnoc([a, b, c, d], e);
    assert [a, b, c, d] + [e] == abcde;
    PresentSnoc(abcde, f);
    assert abcde + [f] == abcdef;
    PresentSnoc(abcdef, g);
    assert abcdef + [g] == [a, b, c, d, e, f, g];
  }

  lemma PresentSnoc(xs: seq<Option<string>>, x: Option<string>)
    ensures Present(xs + [x]) == Present(xs) + OptionList(x)
  {
    PresentAppend(xs, [x]);
    PresentCons(x, []);
    assert [x] + [] == [x];
  }

  /** The present elements of a concatenation are those of each part. */
  lemma {:induction false} PresentAppend(a: seq<Option<string>>, b: seq<Option<string>>)
    ensures Present(a + b) == Present(a) + Present(b)
    decreases |a|
  {
    if a == [] {
      assert a + b == b;
    } else {
      assert (a + b)[0] == a[0];
      assert (a + b)[1..] == a[1..] + b;
      PresentAppend(a[1..], b);
    }
  }

  /** Arguments that are never None all survive the filter. */
  lemma {:induction false} PresentLift(xs: seq<string>)
    ensures Present(Lift(xs)) == xs
    decreases |xs|
  {
    if xs != [] {
      assert Lift(xs)[1..] == Lift(xs[1..]);
      PresentLift(xs[1..]);
    }
  }

  /** The layout of the command: optional echo, mkfs.lustre, optional
      --reformat and --dryrun, the file system name, the type flag, the
      index when there is one, the MGS nodes, the service nodes, the mkfs
      options, the backing file system type and the dataset path. */
  lemma FormatCommandLayout(fs: LustreFilesystem, echo: bool, reformat: bool, dryrun: bool)
    requires TargetType(fs).Ok?
    ensures var t := TargetType(fs).value;
      FormatCommand(fs, echo, reformat, dryrun) == Ok(
        OptionList(Flag(echo, "echo")) + ["mkfs.lustre"]
        + OptionList(Flag(reformat, "--reformat")) + OptionList(Flag(dryrun, "--dryrun"))
        + ["--fsname=" + fs.fsname] + ["--" + t]
        + OptionList(IndexArg(t, fs.index))
        + FmtMgsnode(fs).value + FmtServicenode(fs.servicenode) + Tail(fs))
  {
    var t := TargetType(fs).value;
    var head := Head(fs, t, echo, reformat, dryrun);
    var mgs := FmtMgsnode(fs).value;
    var svc := FmtServicenode(fs.servicenode);
    PresentAppend(head + Lift(mgs) + Lift(svc), Lift(Tail(fs)));
    PresentAppend(head + Lift(mgs), Lift(svc));
    PresentAppend(head, Lift(mgs));
    PresentHeadCandidates(head[0], head[1], head[2], head[3], head[4], head[5], head[6]);
    PresentLift(mgs);
    PresentLift(svc);
    PresentLift(Tail(fs));
  }

  /** The index rule in terms of the dataset name: every ost target gets an
      index argument, an mdt target only with an index other than -1, and an
      mgt target never. */
  lemma IndexRule(fs: LustreFilesystem)
    requires TargetType(fs).Ok?
    ensures IndexArg(TargetType(fs).value, fs.index).Some? <==>
      StartsWith(fs.datasetName, "ost") || (StartsWith(fs.datasetName, "mdt") && fs.index != NoIndex)
    ensures IndexArg(TargetType(fs).value, fs.index).Some? ==>
      IndexArg(TargetType(fs).value, fs.index).value == "--index=" + IntToString(fs.index)
  {
  }

  /** Adding one more option appends " -o k=v" to a non-empty option string. */
  lemma MkfsOptionsSnoc(opts: seq<(string, string)>, k: string, v: string)
    requires opts != []
    ensures FmtMkfsOptions(opts + [(k, v)]) == FmtMkfsOptions(opts) + " -o " + k + "=" + v
  {
    var pairs := OptionPairs(opts);
    assert OptionPairs(opts + [(k, v)]) == pairs + [k + "=" + v];
    JoinSnoc(" -o ", pairs, k + "=" + v);
  }

  lemma {:induction false} JoinSnoc(sep: string, parts: seq<string>, last: string)
    requires parts != []
    ensures Join(sep, parts + [last]) == Join(sep, parts) + sep + last
    decreases |parts|
  {
    if |parts| == 1 {
      assert parts + [last] == [parts[0], last];
    } else {
      assert (parts + [last])[1..] == parts[1..] + [last];
      JoinSnoc(sep, parts[1..], last);
    }
  }

  /** The builder adds no quotes: when no key or value holds a double quote,
      neither does the option string. */
  lemma {:induction false} MkfsOptionsUnquoted(opts: seq<(string, string)>)
    requires forall i :: 0 <= i < |opts| ==> '"' !in opts[i].0 && '"' !in opts[i].1
    ensures '"' !in FmtMkfsOptions(opts)
    decreases |opts|
  {
    if |opts| > 1 {
      MkfsOptionsUnquoted(opts[1..]);
      assert OptionPairs(opts)[1..] == OptionPairs(opts[1..]);
    }
  }

  // ---------------------------------------------------------------------
  // The main loop.

  /** What running one command gave: its output, or a CalledProcessError. */
  datatype ExecResult =
    | Output(text: string)
    | ProcessError(output: string, cmd: seq<string>, returncode: int)

  datatype MainExit =
    | Raised(error: LustreError)
    /** `fail_json` after a command error: `args` is `err.args[1]`, which
        for a CalledProcessError is the failed command's argv. */
    | Failed(changed: bool, msg: string, command: string, retcode: int, args: seq<string>)
    | Exited(changed: bool, results: seq<string>)

  datatype Flags = Flags(dryrun: bool, echo: bool, reformat: bool)

  /** The main loop from dataset i on, having collected `results` so far.
      `exec(i, cmd)` is the result of running the command built for dataset i. */
  function Process(poolname: string, details: seq<Mapping>, existing: seq<string>, flags: Flags,
                   exec: (nat, seq<string>) -> ExecResult, i: nat, results: seq<string>): (r: MainExit)
    requires i <= |details|
    ensures r.Exited? ==> results <= r.results && |r.results| <= |results| + |details| - i
    ensures r.Failed? ==> !r.changed && r.command == Join(" ", r.args)
    decreases |details| - i
  {
    if i == |details| then Exited(!(flags.dryrun || flags.echo || |results| == 0), results)
    else match New(poolname, details[i], DefaultFsname)
      case Err(e) => Raised(e)
      case Ok(o) =>
        if PathJoin(poolname, o.datasetName) in existing then
          Process(poolname, details, existing, flags, exec, i + 1, results)
        else match FormatCommand(o, flags.echo, flags.reformat, flags.dryrun)
          case Err(e) => Raised(e)
          case Ok(cmd) =>
            match exec(i, cmd)
            case ProcessError(out, c, code) => Failed(false, out, Join(" ", c), code, c)
            case Output(text) => Process(poolname, details, existing, flags, exec, i + 1, results + [text])
  }

  /** The whole module: the pool must be among the existing file systems. */
  function MainRun(poolname: string, details: seq<Mapping>, existing: seq<string>, flags: Flags,
                   exec: (nat, seq<string>) -> ExecResult): (r: MainExit)
    ensures poolname !in existing ==> r == Raised(MissingPool(poolname))
    ensures r.Exited? ==> |r.results| <= |details|
    ensures r.Failed? ==> !r.changed && r.command == Join(" ", r.args)
  {
    if poolname !in existing then Raised(MissingPool(poolname))
    else Process(poolname, details, existing, flags, exec, 0, [])
  }

  /** The main loop: skip datasets that already exist, build and run the
      command of every other one, stop at the first failure. */
  method RunMain(poolname: string, details: seq<Mapping>, existing: seq<string>, flags: Flags,
              exec: (nat, seq<string>) -> ExecResult) returns (exit: MainExit)
    ensures exit == MainRun(poolname, details, existing, flags, exec)
  {
    if poolname !in existing {
      return Raised(MissingPool(poolname));
    }
    var results: seq<string> := [];
    var i := 0;
    while i < |details|
      invariant i <= |details|
      invariant Process(poolname, details, existing, flags, exec, i, results)
             == Process(poolname, details, existing, flags, exec, 0, [])
    {
      var o := New(poolname, details[i], DefaultFsname);
      if o.Err? {
        return Raised(o.error);
      }
      if PathJoin(poolname, o.value.datasetName) in existing {
        i := i + 1;
        continue;
      }
      var cmd := FormatCommand(o.value, flags.echo, flags.reformat, flags.dryrun);
      if cmd.Err? {
        return Raised(cmd.error);
      }
      var res := exec(i, cmd.value);
      if res.ProcessError? {
        return Failed(false, res.output, Join(" ", res.cmd), res.returncode, res.cmd);
      }
      results := results + [res.text];
      i := i + 1;
    }
    var nothingDone := flags.dryrun || flags.echo || |results| == 0;
    exit := Exited(!nothingDone, results);
  }

  /** The datasets from i on that the loop builds a command for: the ones
      whose path under the pool does not exist yet. */
  function ToCreate(poolname: string, details: seq<Mapping>, existing: seq<string>, i: nat): (c: nat)
    requires i <= |details|
    ensures c <= |details| - i
    decreases |details| - i
  {
    if i == |details| then 0
    else
      var o := New(poolname, details[i], DefaultFsname);
      (if o.Ok? && PathJoin(poolname, o.value.datasetName) !in existing then 1 else 0)
      + ToCreate(poolname, details, existing, i + 1)
  }

  /** When the loop completes, it has one result per dataset it did not skip,
      and it reports a change exactly when neither dryrun nor echo is set and
      some command ran. */
  lemma {:induction false} ProcessExit(poolname: string, details: seq<Mapping>, existing: seq<string>, flags: Flags,
                                       exec: (nat, seq<string>) -> ExecResult, i: nat, results: seq<string>)
    requires i <= |details|
    ensures var r := Process(poolname, details, existing, flags, exec, i, results);
      r.Exited? ==>
        |r.results| == |results| + ToCreate(poolname, details, existing, i)
        && r.results[..|results|] == results
        && (r.changed <==> !flags.dryrun && !flags.echo && |r.results| > 0)
    decreases |details| - i
  {
    if i < |details| {
      var o := New(poolname, details[i], DefaultFsname);
      if o.Ok? {
        if PathJoin(poolname, o.value.datasetName) in existing {
          ProcessExit(poolname, details, existing, flags, exec, i + 1, results);
        } else {
          var cmd := FormatCommand(o.value, flags.echo, flags.reformat, flags.dryrun);
          if cmd.Ok? && exec(i, cmd.value).Output? {
            var more := results + [exec(i, cmd.value).text];
            ProcessExit(poolname, details, existing, flags, exec, i + 1, more);
            var r := Process(poolname, details, existing, flags, exec, i + 1, more);
            if r.Exited? {
              assert r.results[..|results|] == r.results[..|more|][..|results|];
            }
          }
        }
      }
    }
  }

  /** The module's outcome: a missing pool raises before anything runs; a
      completed run returns one result per new dataset and is changed exactly
      when neither dryrun nor echo is set and a command ran; a failure reports,
      with changed=False, the error of a command run for one of the datasets. */
  lemma MainOutcome(poolname: string, details: seq<Mapping>, existing: seq<string>, flags: Flags,
                    exec: (nat, seq<string>) -> ExecResult)
    ensures poolname !in existing ==> MainRun(poolname, details, existing, flags, exec) == Raised(MissingPool(poolname))
    ensures var r := MainRun(poolname, details, existing, flags, exec);
      r.Exited? ==>
        |r.results| == ToCreate(poolname, details, existing, 0)
        && (r.changed <==> !flags.dryrun && !flags.echo && |r.results| > 0)
    ensures var r := MainRun(poolname, details, existing, flags, exec);
      r.Failed? ==> exists j: nat, c :: j < |details| && ReportsError(r, exec(j, c))
  {
    if poolname in existing {
      ProcessExit(poolname, details, existing, flags, exec, 0, []);
      ProcessFailedUnchanged(poolname, details, existing, flags, exec, 0, []);
    }
  }

  /** `r` is the `fail_json` reporting the CalledProcessError `e`. */
  predicate ReportsError(r: MainExit, e: ExecResult)
  {
    e.ProcessError? && r == Failed(false, e.output, Join(" ", e.cmd), e.returncode, e.cmd)
  }

  /** A failure from dataset i on reports, unchanged, the error of a command
      run for one of those datasets: its output, joined command, return code
      and argv. */
  lemma {:induction false} ProcessFailedUnchanged(poolname: string, details: seq<Mapping>, existing: seq<string>, flags: Flags,
                                                  exec: (nat, seq<string>) -> ExecResult, i: nat, results: seq<string>)
    requires i <= |details|
    ensures var r := Process(poolname, details, existing, flags, exec, i, results);
      r.Failed? ==> exists j: nat, c :: i <= j < |details| && ReportsError(r, exec(j, c))
    decreases |details| - i
  {
    if i < |details| {
      var o := New(poolname, details[i], DefaultFsname);
      if o.Ok? {
        var cmd := FormatCommand(o.value, flags.echo, flags.reformat, flags.dryrun);
        ProcessFailedUnchanged(poolname, details, existing, flags, exec, i + 1, results);
        if cmd.Ok? && exec(i, cmd.value).Output? {
          ProcessFailedUnchanged(poolname, details, existing, flags, exec, i + 1, results + [exec(i, cmd.value).text]);
        } else if cmd.Ok? && !(PathJoin(poolname, o.value.datasetName) in existing) {
          assert ReportsError(Process(poolname, details, existing, flags, exec, i, results), exec(i, cmd.value));
        }
      }
    }
  }

  // ---------------------------------------------------------------------
  // The expected commands of library/test_make_lustre_zfs.py, as the code
  // builds them (without the quotes the test puts around the options).

  const TestMgs := ["192.168.2.21@o2ib", "192.168.2.23@o2ib"]
  const TestSvc := ["192.168.2.25@o2ib", "192.168.2.27@o2ib"]
  const TestMgsArgs := ["--mgsnode=" + TestMgs[0], "--mgsnode=" + TestMgs[1]]
  const TestSvcArgs := ["--servicenode=" + TestSvc[0], "--servicenode=" + TestSvc[1]]

  function TestOpts(recordsize: string): seq<(string, string)> {
    [("recordsize", recordsize), ("compression", "lz4"), ("mountpoint", "none")]
  }

  /** The mapping of one test dataset, with every setting given. */
  function TestMapping(name: string, index: int, recordsize: string): Mapping {
    [(name, Settings(Some(index), Some(TestMgs), Some(TestOpts(recordsize)), Some(TestSvc)))]
  }

  function TestTarget(name: string, index: int, recordsize: string): LustreFilesystem {
    LustreFilesystem("p01", DefaultFsname, name, index, Some(TestMgs), TestOpts(recordsize), TestSvc)
  }

  /** The option string of a test dataset. */
  function TestOptionText(recordsize: string): string {
    "recordsize=" + recordsize + " -o " + "compression=lz4 -o mountpoint=none"
  }

  lemma TestOptionString(recordsize: string)
    ensures FmtMkfsOptions(TestOpts(recordsize)) == TestOptionText(recordsize)
  {
    var opts := TestOpts(recordsize);
    var pairs := OptionPairs(opts);
    assert opts[0] == ("recordsize", recordsize) && opts[1] == ("compression", "lz4") && opts[2] == ("mountpoint", "none");
    assert pairs[0] == "recordsize=" + recordsize && pairs[1] == "compression=lz4" && pairs[2] == "mountpoint=none";
    assert pairs == ["recordsize=" + recordsize, "compression=lz4", "mountpoint=none"];
    assert pairs[1..] == ["compression=lz4", "mountpoint=none"];
    assert pairs[1..][1..] == ["mountpoint=none"];
    assert "compression=lz4" + " -o " + "mountpoint=none" == "compression=lz4 -o mountpoint=none";
    assert Join(" -o ", pairs[1..]) == "compression=lz4 -o mountpoint=none";
    assert Join(" -o ", pairs) == pairs[0] + " -o " + Join(" -o ", pairs[1..]);
  }

  lemma TestNodes()
    ensures NodeArgs("--mgsnode=", TestMgs) == TestMgsArgs
    ensures FmtServicenode(TestSvc) == TestSvcArgs
  {
    var m := NodeArgs("--mgsnode=", TestMgs);
    assert |m| == 2 && m[0] == TestMgsArgs[0] && m[1] == TestMgsArgs[1];
    var v := FmtServicenode(TestSvc);
    assert |v| == 2 && v[0] == TestSvcArgs[0] && v[1] == TestSvcArgs[1];
  }

  /** The constructor keeps every setting of a test mapping. */
  lemma TestNew(name: string, index: int, recordsize: string)
    requires |name| >= 5
    ensures New("p01", TestMapping(name, index, recordsize), DefaultFsname) == Ok(TestTarget(name, index, recordsize))
  {
  }

  /** The command of a test dataset without echo, reformat or dryrun,
      assembled from its parts. */
  lemma TestCommand(name: string, index: int, recordsize: string, t: string, indexArg: seq<string>, mgs: seq<string>)
    requires TargetType(TestTarget(name, index, recordsize)) == Ok(t)
    requires OptionList(IndexArg(t, index)) == indexArg
    requires FmtMgsnode(TestTarget(name, index, recordsize)) == Ok(mgs)
    ensures FormatCommand(TestTarget(name, index, recordsize), false, false, false) == Ok(
      ["mkfs.lustre", "--fsname=bsrfs", "--" + t] + indexArg + mgs + TestSvcArgs
      + ["--mkfsoptions=" + TestOptionText(recordsize), "--backfstype=zfs", PathJoin("p01", name)])
  {
    var fs := TestTarget(name, index, recordsize);
    FormatCommandLayout(fs, false, false, false);
    TestNodes();
    TestOptionString(recordsize);
    assert OptionList(Flag(false, "echo")) == [];
    assert OptionList(Flag(false, "--reformat")) == [];
    assert OptionList(Flag(false, "--dryrun")) == [];
    assert "--fsname=" + fs.fsname == "--fsname=bsrfs";
    assert Tail(fs) == ["--mkfsoptions=" + TestOptionText(recordsize), "--backfstype=zfs", PathJoin("p01", name)];
    var front: seq<string> := [];
    assert front + ["mkfs.lustre"] + [] + [] + ["--fsname=bsrfs"] + ["--" + t]
        == ["mkfs.lustre", "--fsname=bsrfs", "--" + t];
  }

  lemma TestIndexArgs()
    ensures IndexArg("ost", 0) == Some("--index=0")
    ensures IndexArg("mdt", 1) == Some("--index=1")
    ensures IndexArg("ost", -1) == Some("--index=-1")
    ensures IndexArg("mgt", 0) == None
  {
    assert IntToString(0) == "0";
    assert IntToString(1) == "1";
    assert IntToString(-1) == "-1";
    assert IndexArg("ost", 0).Some? && IndexArg("ost", 0).value == "--index=" + IntToString(0);
    assert IndexArg("mdt", 1).Some? && IndexArg("mdt", 1).value == "--index=" + IntToString(1);
    assert IndexArg("ost", -1).Some? && IndexArg("ost", -1).value == "--index=" + IntToString(-1);
    assert "--index=" + IntToString(0) == "--index=0";
    assert "--index=" + IntToString(1) == "--index=1";
    assert "--index=" + IntToString(-1) == "--index=-1";
  }

  lemma TestPaths()
    ensures PathJoin("p01", "ost01") == "p01/ost01"
    ensures PathJoin("p01", "mgt01") == "p01/mgt01"
    ensures PathJoin("p01", "mdt02") == "p01/mdt02"
    ensures PathJoin("ptest", "ost01") == "ptest/ost01"
  {
  }

  lemma TestTypes()
    ensures TargetType(TestTarget("ost01", 0, "1M")) == Ok("ost") && "--" + "ost" == "--ost"
    ensures TargetType(TestTarget("mgt01", 0, "128K")) == Ok("mgt") && "--" + "mgt" == "--mgt"
    ensures TargetType(TestTarget("mdt02", 1, "1M")) == Ok("mdt") && "--" + "mdt" == "--mdt"
  {
    assert Prefix3("ost01") == "ost";
    assert Prefix3("mgt01") == "mgt";
    assert Prefix3("mdt02") == "mdt";
  }

  /** The MGS node arguments of an ost or mdt test dataset. */
  lemma TestMgsnode(name: string, index: int, recordsize: string)
    requires TargetType(TestTarget(name, index, recordsize)) in {Ok("ost"), Ok("mdt")}
    ensures FmtMgsnode(TestTarget(name, index, recordsize)) == Ok(TestMgsArgs)
  {
    TestNodes();
  }

  /** The eleven arguments of an ost or mdt test command, from the parts the layout lists. */
  lemma TargetCommandParts(x0: string, x1: string, x2: string, x3: string, x4: string, x5: string,
                   x6: string, x7: string, x8: string, x9: string, x10: string)
    ensures [x0, x1, x2] + [x3] + [x4, x5] + [x6, x7] + [x8, x9, x10] == [x0, x1, x2, x3, x4, x5, x6, x7, x8, x9, x10]
  {
  }

  /** The eight arguments of the mgt test command: no index, no MGS nodes. */
  lemma MgtCommandParts(x0: string, x1: string, x2: string, x3: string, x4: string, x5: string, x6: string, x7: string)
    ensures [x0, x1, x2] + [] + [] + [x3, x4] + [x5, x6, x7] == [x0, x1, x2, x3, x4, x5, x6, x7]
  {
  }

  /** The first expected command of the format test: an ost with index 0. */
  lemma TestOst01()
    ensures New("p01", TestMapping("ost01", 0, "1M"), DefaultFsname) == Ok(TestTarget("ost01", 0, "1M"))
    ensures FormatCommand(TestTarget("ost01", 0, "1M"), false, false, false) == Ok([
        "mkfs.lustre", "--fsname=bsrfs", "--ost", "--index=0",
        "--mgsnode=" + TestMgs[0], "--mgsnode=" + TestMgs[1],
        "--servicenode=" + TestSvc[0], "--servicenode=" + TestSvc[1],
        "--mkfsoptions=" + TestOptionText("1M"), "--backfstype=zfs", "p01/ost01"])
  {
    TestNew("ost01", 0, "1M");
    TestTypes();
    TestIndexArgs();
    TestPaths();
    TestMgsnode("ost01", 0, "1M");
    TestCommand("ost01", 0, "1M", "ost", ["--index=0"], TestMgsArgs);
    TargetCommandParts("mkfs.lustre", "--fsname=bsrfs", "--ost", "--index=0", TestMgsArgs[0], TestMgsArgs[1],
               TestSvcArgs[0], TestSvcArgs[1], "--mkfsoptions=" + TestOptionText("1M"), "--backfstype=zfs", "p01/ost01");
  }

  /** The mgt command of the format test: no index and no MGS nodes. */
  lemma TestMgt01()
    ensures New("p01", TestMapping("mgt01", 0, "128K"), DefaultFsname) == Ok(TestTarget("mgt01", 0, "128K"))
    ensures FormatCommand(TestTarget("mgt01", 0, "128K"), false, false, false) == Ok([
        "mkfs.lustre", "--fsname=bsrfs", "--mgt",
        "--servicenode=" + TestSvc[0], "--servicenode=" + TestSvc[1],
        "--mkfsoptions=" + TestOptionText("128K"), "--backfstype=zfs", "p01/mgt01"])
  {
    TestNew("mgt01", 0, "128K");
    TestTypes();
    TestIndexArgs();
    TestPaths();
    TestCommand("mgt01", 0, "128K", "mgt", [], []);
    MgtCommandParts("mkfs.lustre", "--fsname=bsrfs", "--mgt", TestSvcArgs[0], TestSvcArgs[1],
              "--mkfsoptions=" + TestOptionText("128K"), "--backfstype=zfs", "p01/mgt01");
  }

  /** The mdt command of the format test: an mdt with index 1. */
  lemma TestMdt02()
    ensures New("p01", TestMapping("mdt02", 1, "1M"), DefaultFsname) == Ok(TestTarget("mdt02", 1, "1M"))
    ensures FormatCommand(TestTarget("mdt02", 1, "1M"), false, false, false) == Ok([
        "mkfs.lustre", "--fsname=bsrfs", "--mdt", "--index=1",
        "--mgsnode=" + TestMgs[0], "--mgsnode=" + TestMgs[1],
        "--servicenode=" + TestSvc[0], "--servicenode=" + TestSvc[1],
        "--mkfsoptions=" + TestOptionText("1M"), "--backfstype=zfs", "p01/mdt02"])
  {
    TestNew("mdt02", 1, "1M");
    TestTypes();
    TestIndexArgs();
    TestPaths();
    TestMgsnode("mdt02", 1, "1M");
    TestCommand("mdt02", 1, "1M", "mdt", ["--index=1"], TestMgsArgs);
    TargetCommandParts("mkfs.lustre", "--fsname=bsrfs", "--mdt", "--index=1", TestMgsArgs[0], TestMgsArgs[1],
               TestSvcArgs[0], TestSvcArgs[1], "--mkfsoptions=" + TestOptionText("1M"), "--backfstype=zfs", "p01/mdt02");
  }

  /** The ten arguments of the flagged ost command: echo, reformat and dryrun, no nodes. */
  lemma FlaggedOstCommandParts(x0: string, x1: string, x2: string, x3: string, x4: string, x5: string,
                   x6: string, x7: string, x8: string, x9: string)
    ensures [x0] + [x1] + [x2] + [x3] + [x4] + [x5] + [x6] + [] + [] + [x7, x8, x9]
         == [x0, x1, x2, x3, x4, x5, x6, x7, x8, x9]
  {
  }

  /** The parts of the command of a bare ost without an index. */
  lemma TestBareOst(fs: LustreFilesystem)
    requires fs == LustreFilesystem("ptest", DefaultFsname, "ost01", NoIndex, Some([]), [], [])
    ensures TargetType(fs) == Ok("ost")
    ensures FmtMgsnode(fs) == Ok([]) && FmtServicenode(fs.servicenode) == []
    ensures Tail(fs) == ["--mkfsoptions=", "--backfstype=zfs", "ptest/ost01"]
  {
    assert Prefix3("ost01") == "ost";
    TestPaths();
    assert FmtMkfsOptions([]) == "";
    assert "--mkfsoptions=" + "" == "--mkfsoptions=";
  }

  /** A missing index becomes -1, and an ost still gets `--index=-1`; with
      echo, reformat and dryrun set, their arguments come first. */
  lemma TestMissingIndex()
    ensures New("ptest", [("ost01", Settings(None, Some([]), Some([]), Some([])))], DefaultFsname)
         == Ok(LustreFilesystem("ptest", DefaultFsname, "ost01", -1, Some([]), [], []))
    ensures FormatCommand(LustreFilesystem("ptest", DefaultFsname, "ost01", -1, Some([]), [], []), true, true, true) == Ok(
        ["echo", "mkfs.lustre", "--reformat", "--dryrun", "--fsname=bsrfs", "--ost", "--index=-1",
         "--mkfsoptions=", "--backfstype=zfs", "ptest/ost01"])
  {
    var fs := LustreFilesystem("ptest", DefaultFsname, "ost01", NoIndex, Some([]), [], []);
    TestBareOst(fs);
    FormatCommandLayout(fs, true, true, true);
    TestIndexArgs();
    assert "--fsname=" + fs.fsname == "--fsname=bsrfs";
    assert "--" + "ost" == "--ost";
    FlaggedOstCommandParts("echo", "mkfs.lustre", "--reformat", "--dryrun", "--fsname=bsrfs", "--ost", "--index=-1",
               "--mkfsoptions=", "--backfstype=zfs", "ptest/ost01");
  }
}
