# lustre-ansible decision logic in Dafny

This project models the decision logic inside the Ansible modules of a
Lustre/ZFS high-availability appliance (racktopsystems/lustre-ansible) and
proves properties of it. Every external command, file read, JSON decode and
sleep becomes an input: scripted command results, decoded records, or a
ghost trace of the events a run issues.

The project has these modules:

- `ResourceGroup` (`resource_group.dfy`) holds the helpers of
  `library/create_resource_group.py`:
  - the ssh prefix;
  - pool visibility in a listing;
  - the exact-output success tests of rescan, create and attach;
  - the hostname fallback;
  - the health decision over a cluster dump;
  - the "already bound" check over the persisted snapshot;
  - the resource-group name.
- `Reconciler` (`reconciler.dfy`) holds the `run_module` driver of that file:
  - the short-circuit on an already bound pool;
  - two visibility loops of 60 probes;
  - the create and attach loops of 30 attempts;
  - the health loop of 5 checks.

  Each loop is a method with its own linear backoff counter. Its step
  method issues the commands of one attempt and records them as events. Each
  loop's results and recorded events are proved equal to a specification
  function (`LoopRun`, `HealthRun`, `Reconcile`).
- `ReconcilerProps` (`reconciler_props.dfy`) holds what those functions
  promise: backoff ramps, command counts, the retry conditions, the exits and
  `changed`, and whole scenarios.
- `Lustre` (`lustre.dfy`) models `library/make_lustre_zfs.py`:
  - the `LustreFilesystem` constructor checks;
  - the target type;
  - the argument formatters;
  - the filtered `mkfs.lustre` command list;
  - the main loop that skips existing datasets and decides `changed`.

  It also holds the expected commands of `library/test_make_lustre_zfs.py`,
  as the code builds them.
- `UpdateInterface` (`update_interface.dfy`) models the ifcfg NAME/DEVICE
  rewriter and the write-only-if-changed rule of `library/update_interface.py`.
- `XorUuid` (`xor_uuid.dfy`) models the byte XOR and the FNV-1a hash of
  `library/xor_uuid.py`.
- `FormatFilters` (`format_filters.dfy`) models the two Jinja filters of
  `filter_plugins/format_filters.py`.
- `IpmiFacts`, `HiavdFacts` and `ImportZfsPool` model the fact parsers and
  decision tables of `library/ipmi_facts.py`, `library/hiavd_facts.py` and
  `library/import_zfs_pool.py`.
- `Common` (`common.dfy`) holds `Option`, `Result` and Python string helpers.

The model follows the code where the code differs from what its tests,
comments or stated intent suggest:

- `create_resource_group` checks `stdout + stdout`, so stderr is never
  examined (library/create_resource_group.py:117).
- Exhausting the budget of a visibility, create or attach loop falls
  through to the next stage. It never fails the module. In particular, an
  attach that is in transition 30 times does not end the run: the run goes
  on to the health checks (library/create_resource_group.py:257-345).
- The health loop retries every error. It sleeps only after
  `PoolNotFoundException` (library/create_resource_group.py:351-366).
- The `break` at library/create_resource_group.py:171 leaves only the inner
  loop. So the first match in the last resource group that holds the pool
  wins.
- `--mkfsoptions=` carries the joined options without quotes
  (library/make_lustre_zfs.py:98). The test at
  library/test_make_lustre_zfs.py:71 expects quotes, and the model follows
  the code.
- `--index=` is emitted for every ost, even with the -1 sentinel, because
  `or` binds looser than `and` (library/make_lustre_zfs.py:90-94).

## Model

| member | source | states |
|---|---|---|
| ResourceGroup.SshPrefix | library/create_resource_group.py:33-41 | six arguments starting with `/bin/ssh`; the key is `keydir + "/id_ed25519"` and the address comes last |
| ResourceGroup.CommandOn | library/create_resource_group.py:49-50 | a local command runs as given; a remote one is the ssh prefix for that address and key directory followed by the command |
| ResourceGroup.Names | library/create_resource_group.py:86 | the `Name` of every listed record, in order |
| ResourceGroup.PoolExistsInResult | library/create_resource_group.py:82-87 | true exactly when the listing is not null and some record's `Name` equals the pool name |
| ResourceGroup.EnsurePoolIsVisible | library/create_resource_group.py:44-61 | visible exactly when the listing command completed and its decoded output names the pool; a failed command gives not-visible with that CalledProcessError |
| ResourceGroup.IssueRefresh | library/create_resource_group.py:64-79 | success exactly when the command completed and stdout followed by stderr is `Rescan started.\ncomplete.\n`; a failed command returns its error |
| ResourceGroup.ResolveHostname | library/create_resource_group.py:97-104 | an explicit hostname is used as given; otherwise a read error is returned, or the first 256 characters of the file less the last character |
| ResourceGroup.CreateResourceGroup | library/create_resource_group.py:90-117 | a read error returns before any command; success exactly when the command completed with empty stdout, whatever stderr holds; a failed command returns its CalledProcessError |
| ResourceGroup.AddPoolToResourceGroup | library/create_resource_group.py:120-131 | success exactly when the command completed with empty stdout and stderr; an error is attached exactly when the command failed |
| ResourceGroup.GroupName | library/create_resource_group.py:278 | `RG` followed by the pool name without its first character; an empty pool name gives `RG` |
| ResourceGroup.FirstIndex | library/create_resource_group.py:168-171 | the index of the first pool of a group with the name, or the group size when there is none |
| ResourceGroup.LastHolder | library/create_resource_group.py:164-171 | the index of the last group holding the name, with no holder after it |
| ResourceGroup.LastMatchNone | library/create_resource_group.py:164-175 | the search finds nothing exactly when no group holds the name |
| ResourceGroup.LastMatchIsLast | library/create_resource_group.py:164-171 | the search returns the first match in the last group that holds the name, and that record carries the name |
| ResourceGroup.LastMatch | library/create_resource_group.py:164-171 | a record the search returns carries the pool name |
| ResourceGroup.HealthCheckCases | library/create_resource_group.py:155-195 | healthy exactly when the found pool has no problems, or is repairable and its repair completes; a repair is issued exactly for a repairable pool with problems; PoolNotFoundException exactly when a completed dump lacks the pool; a failed dump's error is returned unchanged; an unrepairable pool with problems gives PoolNotRepairableException carrying its problem list; a failed repair gives the repair command's CalledProcessError |
| ResourceGroup.CheckAndRepairIfPossible | library/create_resource_group.py:155-195 | the nested scan with its inner `break` gives the outcome and repair flag of the health decision |
| ResourceGroup.HealthCheck | library/create_resource_group.py:155-195 | success exactly when no error is returned; a repair is only issued after a completed dump that holds the pool |
| ResourceGroup.CheckPoolAlreadyInResourceGroup | library/create_resource_group.py:198-215 | true exactly when some snapshot pool caches the name and its resource group id is a key of `ResourceGroups` |
| Reconciler.CreateVerdict | library/create_resource_group.py:287-318 | the create loop stops on success; it retries exactly on a CalledProcessError whose stderr is the in-transition text; any other failure ends the module with changed=False and that error |
| Reconciler.AttachVerdict | library/create_resource_group.py:324-345 | the same policy for the attach loop |
| Reconciler.FirstStop | library/create_resource_group.py:258-265 | the first attempt at or after i that does not ask for a retry; every attempt before it retried |
| Reconciler.LoopRun | library/create_resource_group.py:257-345 | a loop that ends the module does so with the exit of its first attempt that did not retry, which was fatal; the trace starts with every retried attempt and its sleep |
| Reconciler.NotFoundCount | library/create_resource_group.py:364-366 | the number of PoolNotFoundException results among the first k checks, at most k |
| Reconciler.FirstHealthy | library/create_resource_group.py:351-360 | the first successful health check at or after k; every check before it failed |
| Reconciler.HealthRunHealthy | library/create_resource_group.py:351-360 | the health loop ends at the first healthy check and exits changed=True with the group name |
| Reconciler.HealthRun | library/create_resource_group.py:347-368 | the health loop always reports changed=True; it exits exactly when some check succeeds, and otherwise fails with the error of the last check |
| Reconciler.Reconcile | library/create_resource_group.py:247-368 | every run starts by reading the persisted snapshot; an already bound pool ends the run right there with changed=False |
| Reconciler.FailedChecksStep | library/create_resource_group.py:351-366 | a failed check adds its dump, its repair if any, and a sleep only after PoolNotFoundException |
| Reconciler.VisibilityLoop | library/create_resource_group.py:257-275 | the loop issues the events of its specification run and never ends the module, even when all 60 probes fail |
| Reconciler.ProbeOnce | library/create_resource_group.py:259-263 | probe i issues the listing command on its target, and the rescan only when the pool is not visible; these commands and its verdict (stop when visible, retry otherwise) are attempt i of the loop's specification |
| Reconciler.CreateLoop | library/create_resource_group.py:280-318 | the loop's events and its stop are those of its specification run |
| Reconciler.CreateOnce | library/create_resource_group.py:282-285 | attempt i reads the hostname file only without a node name, runs create with the resolved hostname unless that read failed, and these events with the create verdict of its outcome are attempt i of the specification |
| Reconciler.AttachOnce | library/create_resource_group.py:322 | attempt i runs the attach command for the group and pool, and that event with the attach verdict of its outcome is attempt i of the specification |
| Reconciler.AttachLoop | library/create_resource_group.py:320-345 | the loop's events and its stop are those of its specification run |
| Reconciler.HealthCheckLoop | library/create_resource_group.py:347-368 | the loop's events and exit are those of the health run over its five checks |
| Reconciler.CheckOnce | library/create_resource_group.py:352 | check k gives the k-th health outcome and repair flag, and issues the dump command followed by the repair command exactly when it repaired |
| Reconciler.RunModule | library/create_resource_group.py:247-368 | the module's exit and event trace are those of `Reconcile` |
| ReconcilerProps.SleepsAppend | library/create_resource_group.py:262 | the sleeps of a concatenated trace are the sleeps of each part |
| ReconcilerProps.OccurrencesAppend | library/create_resource_group.py:257-345 | event counts add over concatenated traces |
| ReconcilerProps.AttemptsQuiet | library/create_resource_group.py:257-345 | no attempt of any loop sleeps by itself; all sleeps come from the backoff |
| ReconcilerProps.RetriesBackoff | library/create_resource_group.py:262-263 | n retried attempts are followed by sleeps of 1, 2, ..., n |
| ReconcilerProps.LoopBackoff | library/create_resource_group.py:257-345 | the sleeps of a whole retry loop are 1, 2, ..., up to the number of retried attempts |
| ReconcilerProps.RetriesCount | library/create_resource_group.py:257-345 | an event held `per` times by each of n retried attempts occurs n * per times |
| ReconcilerProps.LoopCount | library/create_resource_group.py:257-345 | an event that each attempt holds once occurs once per attempt made |
| ReconcilerProps.LoopStop | library/create_resource_group.py:280-345 | a loop ends the module exactly when some attempt is fatal and all before it retried, with that attempt's exit; when every attempt retries, the whole budget is spent and the loop falls through |
| ReconcilerProps.LoopExitUnchanged | library/create_resource_group.py:257-345 | only the create and attach loops can end the module, and only by failing with changed=False |
| ReconcilerProps.VisibilityCommands | library/create_resource_group.py:257-275 | a visibility loop probes once per attempt, at most 60 times, and refreshes exactly once after each failed probe |
| ReconcilerProps.AttachCommands | library/create_resource_group.py:320-326 | the attach command runs once per attempt, at most 30 times |
| ReconcilerProps.CreateCommands | library/create_resource_group.py:280-285 | with a node name, each attempt runs create for that node and never reads the hostname file; without one, each attempt reads the file; at most 30 attempts |
| ReconcilerProps.CreateRetryCondition | library/create_resource_group.py:291-297 | a create attempt is retried exactly when the hostname resolved and the command failed with the exact in-transition stderr |
| ReconcilerProps.AttachRetryCondition | library/create_resource_group.py:328-334 | an attach attempt is retried exactly when the command failed with the exact in-transition stderr |
| ReconcilerProps.CreateIgnoresStderr | library/create_resource_group.py:108-117 | a completed create succeeds exactly when stdout is empty, whatever stderr holds; otherwise the module fails with no error attached |
| ReconcilerProps.AttachNeedsSilence | library/create_resource_group.py:120-131 | a completed attach succeeds exactly when stdout and stderr are both empty; otherwise the module fails with no error attached |
| ReconcilerProps.FailedChecksBackoff | library/create_resource_group.py:362-366 | failed health checks sleep 1, 2, ... seconds, once per PoolNotFoundException and never otherwise |
| ReconcilerProps.HealthBackoff | library/create_resource_group.py:351-366 | the health loop's sleeps are 1, 2, ..., one per PoolNotFoundException before the first healthy check |
| ReconcilerProps.DumpOncePerCheck | library/create_resource_group.py:158 | one health check dumps the cluster state once |
| ReconcilerProps.FailedChecksDumps | library/create_resource_group.py:351-352 | k failed checks dump k times |
| ReconcilerProps.HealthOutcome | library/create_resource_group.py:347-368 | at most 5 dumps, one per check; the module always ends with changed=True: it exits with the group name exactly when some check succeeds, and otherwise fails with the last error |
| ReconcilerProps.AlreadyBoundShortCircuit | library/create_resource_group.py:247-255 | an already bound pool reads the snapshot, issues no command and exits with changed=False |
| ReconcilerProps.ReconcileChanged | library/create_resource_group.py:247-368 | changed is true exactly when the pool was not bound and neither the create nor the attach loop ended the module |
| ReconcilerProps.ThreeFailedProbes | library/create_resource_group.py:257-265 | three failed probes then a visible pool give probe, refresh, sleep 1, probe, refresh, sleep 2, probe, refresh, sleep 3, probe |
| ReconcilerProps.AttachAlwaysInTransition | library/create_resource_group.py:320-345 | an attach always in transition runs 30 times with sleeps 1 .. 30 and falls through |
| ReconcilerProps.FailedChecksNotFound | library/create_resource_group.py:351-366 | k not-found checks give a dump and sleeps of 1 .. k |
| ReconcilerProps.PoolNeverFound | library/create_resource_group.py:347-368 | a pool never in the dump gives five dumps with sleeps 1 .. 5, then a failure with changed=True and PoolNotFoundException |
| ReconcilerProps.FailedChecksQuiet | library/create_resource_group.py:351-366 | failed checks without PoolNotFoundException or repair give one dump each and no sleep |
| ReconcilerProps.PoolNotRepairable | library/create_resource_group.py:184-185 | an unrepairable pool gives five dumps with no sleep and no repair, then PoolNotRepairableException with changed=True |
| ReconcilerProps.RepairOnFirstCheck | library/create_resource_group.py:186-195 | a repairable problem in the first check gives one dump and one repair, then an exit with changed=True |
| Lustre.New | library/make_lustre_zfs.py:19-35 | more than one key, an empty mapping and a name shorter than 5 each raise their own error; success exactly with one key, a name of 5 or more and both `mkfsopts` and `servicenode`; a missing index becomes -1 and the other settings are kept |
| Lustre.TargetType | library/make_lustre_zfs.py:46-53 | success exactly when the name starts with ost, mgt or mdt, and the result is that prefix; otherwise the error names the dataset |
| Lustre.FmtTargetType | library/make_lustre_zfs.py:55-57 | `--` followed by the target type, failing exactly when the type does |
| Lustre.OptionPairs | library/make_lustre_zfs.py:61 | one `k=v` per option, in mapping order |
| Lustre.FmtMkfsOptions | library/make_lustre_zfs.py:59-62 | no options give the empty string; one option gives `k=v` alone |
| Lustre.FmtServicenode | library/make_lustre_zfs.py:64-66 | one `--servicenode=` per service node, in order |
| Lustre.FmtMgsnode | library/make_lustre_zfs.py:68-75 | no arguments when mgsnode is missing or empty, none for mgt, and one `--mgsnode=` per node in order for ost and mdt |
| Lustre.IndexArg | library/make_lustre_zfs.py:89-95 | every ost gets an index argument, an mgt never does, and an mdt gets one exactly when its index is not -1 |
| Lustre.PathJoin | library/make_lustre_zfs.py:100 | an absolute second component replaces the first; after an empty first component or one ending in `/` the second is appended as is; otherwise the two are joined with one `/` |
| Lustre.FormatCommand | library/make_lustre_zfs.py:77-103 | the command exists exactly when the target type does, and otherwise carries the target-type error |
| Lustre.FormatCommandLayout | library/make_lustre_zfs.py:77-103 | the exact order: optional echo, mkfs.lustre, optional --reformat and --dryrun, --fsname, type, index when present, mgsnodes, servicenodes, --mkfsoptions, --backfstype=zfs, pool/dataset |
| Lustre.PresentAppend | library/make_lustre_zfs.py:101-103 | the None filter works part by part |
| Lustre.PresentLift | library/make_lustre_zfs.py:101-103 | arguments that are never None all survive the filter |
| Lustre.IndexRule | library/make_lustre_zfs.py:89-95 | an index argument for every ost, for an mdt only when its index is not -1, never for mgt; its text is `--index=` and the index |
| Common.NatToStringValue | library/make_lustre_zfs.py:90 | `str` of a non-negative index reads back to that index and has no leading zero |
| Common.IntToStringValue | library/make_lustre_zfs.py:90 | `str` of a negative index (the -1 of an ost without one) is `-` and the digits of its magnitude; of any other index, its digits |
| Lustre.MkfsOptionsSnoc | library/make_lustre_zfs.py:60-62 | one more option appends ` -o k=v` |
| Lustre.MkfsOptionsUnquoted | library/make_lustre_zfs.py:59-62 | the option string holds no double quote unless a key or value does |
| Lustre.RunMain | library/make_lustre_zfs.py:158-190 | the loop's exit is that of `MainRun` |
| Lustre.Process | library/make_lustre_zfs.py:162-190 | the loop keeps the results collected so far and adds at most one per remaining dataset; a command failure reports changed=False and the space-joined argv it carries as `args` |
| Lustre.MainRun | library/make_lustre_zfs.py:156-190 | a pool that is not among the existing file systems raises before anything runs; at most one result per dataset; a failure reports changed=False and the space-joined argv it carries as `args` |
| Lustre.ToCreate | library/make_lustre_zfs.py:162-167 | the number of datasets not skipped, at most the number left |
| Lustre.ProcessExit | library/make_lustre_zfs.py:162-190 | a completed loop has one result per dataset not skipped, keeps earlier results first, and is changed exactly when neither dryrun nor echo is set and a result exists |
| Lustre.MainOutcome | library/make_lustre_zfs.py:156-190 | a missing pool raises first; a completed run has one result per new dataset and the changed rule; a failure reports, with changed=False, the error of a command run for one of the datasets |
| Lustre.ProcessFailedUnchanged | library/make_lustre_zfs.py:177-184 | a failure reports, with changed=False, the stdout, joined command, return code and argv (`err.args[1]`) of the error of a command run for one of the remaining datasets |
| Lustre.TestOptionString | library/test_make_lustre_zfs.py:14-18 | the test options join to `recordsize=... -o compression=lz4 -o mountpoint=none` |
| Lustre.TestNodes | library/test_make_lustre_zfs.py:19-20 | the test node lists give the expected `--mgsnode=` and `--servicenode=` arguments |
| Lustre.TestNew | library/test_make_lustre_zfs.py:113-114 | the constructor keeps every setting of a test mapping |
| Lustre.TestCommand | library/test_make_lustre_zfs.py:61-115 | the shape of a test command without echo, reformat or dryrun |
| Lustre.TestIndexArgs | library/make_lustre_zfs.py:89-95 | ost 0, mdt 1 and ost -1 get `--index=`; mgt never does |
| Lustre.TestPaths | library/test_make_lustre_zfs.py:73-109 | the dataset paths of the test |
| Lustre.TestTypes | library/test_make_lustre_zfs.py:169-213 | ost01, mgt01 and mdt02 give `--ost`, `--mgt` and `--mdt` |
| Lustre.TestMgsnode | library/test_make_lustre_zfs.py:67-68 | an ost or mdt test dataset gets both MGS nodes |
| Lustre.TestOst01 | library/test_make_lustre_zfs.py:62-74 | the ost01 command, with the options unquoted |
| Lustre.TestMgt01 | library/test_make_lustre_zfs.py:88-97 | the mgt01 command, with no index and no MGS nodes |
| Lustre.TestMdt02 | library/test_make_lustre_zfs.py:98-110 | the mdt02 command with index 1 |
| Lustre.TestBareOst | library/test_make_lustre_zfs.py:153-167 | a bare ost without index: type ost, no nodes, empty options |
| Lustre.TestMissingIndex | library/test_make_lustre_zfs.py:153-167 | a missing index becomes -1, and with echo, reformat and dryrun the ost command carries `--index=-1` |
| UpdateInterface.Rewritten | library/update_interface.py:8-17 | same length; each line is rewritten on its own |
| UpdateInterface.RewriteLine | library/update_interface.py:11-16 | a line starts with NAME after the rewrite exactly when it did before; a non-NAME line starts with DEVICE exactly when it did before; any other line is kept |
| UpdateInterface.ReplaceNameAndDevice | library/update_interface.py:8-17 | same length; a NAME line becomes `NAME=<device>\n`; a DEVICE line that is not a NAME line becomes `DEVICE=<device>\n`; every other line is kept at its index |
| UpdateInterface.RewriteIdempotent | library/update_interface.py:8-17 | rewriting twice equals rewriting once |
| UpdateInterface.RewriteFixedPoint | library/update_interface.py:8-17 | a file is left as it is exactly when its NAME and DEVICE lines already name the device |
| UpdateInterface.WriteNewConfigFile | library/update_interface.py:39-58 | a read failure gives false, the no-digest pair and the error; equal contents give false and no write; otherwise the new content is written, the pair is (new, original), and changed is true exactly when the write succeeds |
| UpdateInterface.RewrittenFileUnchanged | library/update_interface.py:43-49 | an already rewritten file is never written again |
| XorUuid.ByteXor | library/xor_uuid.py:11-12 | length of the shorter input; byte i is `a[i] ^ b[i]` |
| XorUuid.ByteXorCommutes | library/xor_uuid.py:11-12 | byte XOR is commutative |
| XorUuid.ByteXorSelfInverse | library/xor_uuid.py:11-12 | XOR with the same key twice gives the bytes back |
| XorUuid.XorByteBits | library/xor_uuid.py:23 | XOR with a byte keeps the high bits and XORs the low eight |
| XorUuid.Step | library/xor_uuid.py:23-24 | one step lands below the size |
| XorUuid.Fold | library/xor_uuid.py:21-25 | for non-empty data the hash is below the size |
| XorUuid.FoldAppend | library/xor_uuid.py:22-24 | hashing `a + b` is hashing `b` from the hash of `a` |
| XorUuid.Fnva | library/xor_uuid.py:15-25 | empty data returns the initial value; a size of 0 with data raises; otherwise the loop computes the fold |
| XorUuid.Fnv1a32 | library/xor_uuid.py:28-32 | prime 0x01000193 modulo 2^32; empty data gives the initial value, other data a 32-bit result |
| XorUuid.Fnv1a32OfA | library/xor_uuid.py:28-32 | from the offset basis 0x811C9DC5, the hash of `a` is 0xE40C292C |
| FormatFilters.Prefixed | filter_plugins/format_filters.py:8-9 | `k/ds` for each element of the list, in order |
| FormatFilters.Flatten | filter_plugins/format_filters.py:6-9 | one path per list element: the number of paths is the sum of the list lengths |
| FormatFilters.FlattenAppend | filter_plugins/format_filters.py:7-9 | flattening a concatenation flattens each part in turn |
| FormatFilters.FlattenAt | filter_plugins/format_filters.py:7-9 | element j of key i's list comes after all paths of earlier keys and the first j of key i |
| FormatFilters.FlattenMembership | filter_plugins/format_filters.py:7-9 | a path is produced exactly when it is `k/ds` for a key k and an element ds of k's list |
| FormatFilters.EmptyListContributesNothing | filter_plugins/format_filters.py:7-9 | a key with an empty list adds nothing |
| FormatFilters.TrimmedEnd | filter_plugins/format_filters.py:15-19 | the cut point follows a letter or is 0, and only non-letters come after it |
| FormatFilters.TrimmedEndUnique | filter_plugins/format_filters.py:15-19 | any cut point with those properties is that one |
| FormatFilters.FmtPeerIfaceInclList | filter_plugins/format_filters.py:11-21 | the backward scan gives `["^(` + the name up to its last letter + `*)"]` |
| FormatFilters.TrimCases | filter_plugins/format_filters.py:15-19 | the trimmed name is a prefix; a name ending in a letter is kept; a name without letters trims to empty |
| FormatFilters.TrimExamples | filter_plugins/format_filters.py:15-19 | eth10 keeps eth, ib0a1 keeps ib0a, 1234 keeps nothing |
| IpmiFacts.SplitColon | library/ipmi_facts.py:12 | `split(":")` always gives at least one piece |
| IpmiFacts.SplitColonPieces | library/ipmi_facts.py:12 | no piece holds a colon |
| IpmiFacts.SplitColonJoin | library/ipmi_facts.py:12 | joining the pieces with `:` gives the line back |
| IpmiFacts.SplitColonHead | library/ipmi_facts.py:12 | the first piece is the text before the first colon, and the rest is the split of what follows it |
| IpmiFacts.FieldValue | library/ipmi_facts.py:12 | IndexError exactly when the line has no colon |
| IpmiFacts.FieldValueText | library/ipmi_facts.py:12 | the value is the text between the first and the next colon, less its first character |
| IpmiFacts.ExtractIpAddress | library/ipmi_facts.py:9-12 | None exactly when no line starts with `IP Address ` without `Source`; otherwise the value of the first such line |
| IpmiFacts.ExtractStopsAtFirst | library/ipmi_facts.py:10-12 | lines after the first address line are never consulted |
| IpmiFacts.SourceLineSkipped | library/ipmi_facts.py:11 | a line mentioning `Source` anywhere is skipped |
| IpmiFacts.Lowered | library/ipmi_facts.py:17 | lower-casing keeps the length, character by character |
| IpmiFacts.IsVmCases | library/ipmi_facts.py:15-19 | a VM exactly when the first line starts with v or V, then m or M |
| IpmiFacts.IsVm | library/ipmi_facts.py:15-19 | a VM's product name has at least two characters, the first lower-casing to v and the second to m |
| HiavdFacts.Get | library/hiavd_facts.py:25-27 | absent exactly when no member has the key; otherwise a member's value |
| HiavdFacts.RevisionCases | library/hiavd_facts.py:22-28 | a missing or falsy Cluster raises MissingRevisionError; true exactly for a Cluster object whose Revision equals 1; a Cluster without Revision gives false |
| HiavdFacts.RevisionIsInitial | library/hiavd_facts.py:22-28 | a state that is not an object raises AttributeError; an answer needs a truthy Cluster object |
| HiavdFacts.StatefileMissingOrInitial | library/hiavd_facts.py:31-32 | a missing state file gives true without reading the revision |
| HiavdFacts.NoClusterNodesDefined | library/hiavd_facts.py:35-40 | false exactly when some line starts with `[[ClusterNodes]]` |
| HiavdFacts.NewConfigurationCases | library/hiavd_facts.py:58-68 | true when no nodes are defined, whatever the state file holds; otherwise the state file's answer; `revision_id` never changes it |
| HiavdFacts.NewConfiguration | library/hiavd_facts.py:65-68 | true whenever no cluster nodes are defined or the state file is missing |
| HiavdFacts.NewConfigurationExample | library/hiavd_facts.py:65-68 | a configured cluster at revision 2 is not new |
| ImportZfsPool.DropLast | library/import_zfs_pool.py:18 | `buf[:-1]`: all but the last byte, empty for empty |
| ImportZfsPool.PoolImportedAndOnline | library/import_zfs_pool.py:8-18 | a missing state file gives (false, false); an existing one is imported |
| ImportZfsPool.OnlineCases | library/import_zfs_pool.py:18 | online exactly when the file is `ONLINE` followed by any one byte |
| ImportZfsPool.RunModuleTable | library/import_zfs_pool.py:35-91 | import is attempted exactly when the pool is not imported; changed exactly when that import succeeds; the not-online failure (naming the pool) exactly when the pool is imported but not online; the import failure exactly when the import fails, reporting the import command, its return code, stdout and stderr with changed=False and no pool name; every other exit names the pool |
| ImportZfsPool.ImportArgv | library/import_zfs_pool.py:24-25 | `zpool import` of the named pool, the command a failed import reports |
| ImportZfsPool.RunModule | library/import_zfs_pool.py:35-91 | every exit but a failed import names the pool, and a failed import's exit is a separate case with no pool name; the import is attempted exactly when the state file is missing; changed only when the attempted import exited successfully |
| ImportZfsPool.ImportedIgnoresImportResult | library/import_zfs_pool.py:46-62 | an imported pool's outcome does not depend on the import |
| ImportZfsPool.MissingStateFileNotRead | library/import_zfs_pool.py:12-14 | a pool that is not imported gives the same outcome whatever the state file would hold |
| ImportZfsPool.OnlineExamples | library/import_zfs_pool.py:18 | `ONLINE\n` is online and `DEGRADED\n` is not |

## Left out

- External commands (`subprocess.run`, `check_output`, ssh) are scripted results indexed by attempt number. `time.sleep` is a `Sleep` event in a ghost trace.
- Ansible plumbing (`AnsibleModule`, argument parsing, `exit_json`/`fail_json` as process exits) becomes terminal outcome values. Message texts built with `str(err)` are a fixed marker.
- `json.loads`/`json.load` are decoder parameters or decoded records. A malformed listing, dump or snapshot raises in the code (library/create_resource_group.py:84); that crash is not modelled. Neither are listing records without `Name` nor dump pools without `Problems` or `CanRepair`.
- ResourceGroup.CheckPoolAlreadyInResourceGroup: the snapshot is a decoded record, so the crashes of `check_pool_already_in_resource_group` before any other step are not modelled. These are a missing or unreadable `/etc/racktop/hiavd/serialized.dat`, and a snapshot without `Cluster`, `Pools`, `ResourceGroups`, `CachedName` or `ResourceGroupId` (library/create_resource_group.py:204-213, no exception handling).
- The float parameters `use_random_delay`, `delay_min` and `delay_max` of library/create_resource_group.py are read and never used. They are not modelled.
- `get_current_cluster_state` returns the dump command's result and the decoder; its empty-dict error path is the failed command.
- SHA-256 in library/update_interface.py is modelled as the content it digests, so two digests are equal exactly when the contents are. `compute_digest`, `copy_file`, `tokenize_config_file` (the read becomes an input) and that module's `run_module` are not part of this model.
- UpdateInterface.WriteNewConfigFile: after a failed write the destination's content is not stated (`written` is None). The truncating open at library/update_interface.py:52 may already have emptied or partly written it.
- The `uuid.UUID` parsing and formatting in the `main` of library/xor_uuid.py is not modelled.
- XorUuid.Fnva: hash values are `nat`, so a negative initial value (which Python would accept) is not modelled.
- Python's Unicode `isalpha` and `lower` are approximated by their ASCII behaviour (FormatFilters, IpmiFacts).
- `splitlines` and `readlines` are left out: the parsers take the text as its lines. Reading the DMI product name file and the `/dev/ipmi0` check in the `main` of library/ipmi_facts.py are not modelled.
- HiavdFacts.RevisionCases: JSON numbers are integers, so a float revision such as `1.0` (equal to 1 in Python) is not modelled. Read errors of the configuration or state file and the `hiavd -version` call are not modelled.
- `execute_cmd` and `filesystems` in library/make_lustre_zfs.py are subprocess wrappers; their results are the `exec` oracle and the list of existing datasets.
- Lustre.PathJoin: only `os.path.join` of two components is modelled; joins of three or more components do not occur in the core.
- The "pool import could not run" branch of library/import_zfs_pool.py cannot be reached, because a failed import always carries a CalledProcessError. It is not modelled.
- library/decode_unzip.py, library/zfs_pool_facts.py and library/registration_facts.py are not part of this model; they are wrappers around zip files, procfs and a subprocess call.
