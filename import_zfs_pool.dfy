/**
 * The import decision of library/import_zfs_pool.py. A pool is imported
 * when its kstat state file exists, and online when that file reads
 * `ONLINE` followed by one more byte (its newline). The module imports
 * the pool only when it is not imported already. The state file's
 * existence and bytes and the result of `zpool import` are inputs.
 */
module ImportZfsPool {
  import opened Common

  /** Python's `buf[:-1]`: everything but the last byte; empty stays empty. */
  function DropLast(buf: string): (r: string)
    ensures |buf| > 0 ==> r == buf[..|buf| - 1]
    ensures |buf| == 0 ==> r == []
  {
    if buf == [] then [] else buf[..|buf| - 1]
  }

  /** `pool_imported_and_online`: the pair (imported, online). The state
      file's contents are only consulted when it exists. */
  function PoolImportedAndOnline(stateFileExists: bool, contents: string): (r: (bool, bool))
    ensures !stateFileExists ==> r == (false, false)
    ensures stateFileExists ==> r.0
  {
    if !stateFileExists then (false, false) else (true, DropLast(contents) == "ONLINE")
  }

  /** Online exactly when the file is seven bytes, the first six `ONLINE`,
      whatever the seventh. */
  lemma OnlineCases(contents: string)
    ensures PoolImportedAndOnline(true, contents).1 <==> |contents| == 7 && contents[..6] == "ONLINE"
  {
  }

  /** The argv `import_pool` runs: import by name, with no cache file. */
  function ImportArgv(poolname: string): (r: seq<string>)
    ensures |r| == 5 && r[0] == "/usr/sbin/zpool" && r[1] == "import" && r[4] == poolname
  {
    ["/usr/sbin/zpool", "import", "-o", "cachefile=none", poolname]
  }

  /** The result of `zpool import`: success, or the CalledProcessError of
      the failed command (whose `cmd` is always ImportArgv). */
  datatype ImportResult =
    | Imported
    | ImportFailed(returncode: int, stdout: string, stderr: string)

  /** How the module ends: `exit_json`, the `fail_json` of an imported pool
      that is not online, both naming the pool, or the `fail_json` of a
      failed import, which reports the command's error and no pool name. */
  datatype Exit =
    | Exited(message: string, poolname: string, changed: bool)
    | Failed(msg: string, poolname: string, changed: bool)
    | ImportUnsuccessful(msg: string, cmd: seq<string>, returncode: int, stdout: string, stderr: string, changed: bool)

  /** The outcome of `run_module`, and whether `zpool import` was run. */
  datatype Run = Run(exit: Exit, importAttempted: bool)

  /** `run_module`: an imported pool that is not online fails; an imported,
      online one exits unchanged; otherwise the pool is imported, and the
      module is changed exactly when the import succeeds. */
  function RunModule(poolname: string, stateFileExists: bool, contents: string, importResult: ImportResult): (r: Run)
    ensures !r.exit.ImportUnsuccessful? ==> r.exit.poolname == poolname
    ensures r.exit.ImportUnsuccessful? <==> !stateFileExists && importResult.ImportFailed?
    ensures r.importAttempted <==> !stateFileExists
    ensures r.exit.changed ==> r.importAttempted && r.exit.Exited?
  {
    var (imported, online) := PoolImportedAndOnline(stateFileExists, contents);
    if imported && !online then
      Run(Failed("pool already imported but not online", poolname, false), false)
    else if imported then
      Run(Exited("pool already imported and online", poolname, false), false)
    else if importResult.Imported? then
      Run(Exited("pool imported successfully", poolname, true), true)
    else
      Run(ImportUnsuccessful("pool import unsuccessful", ImportArgv(poolname),
                             importResult.returncode, importResult.stdout, importResult.stderr, false), true)
  }

  /** The outcome table: the import is attempted exactly when the state file
      is missing, the module changes something exactly when that import
      succeeds, and it fails exactly when the pool is imported but not
      online or the import fails. Every exit but a failed import names the
      pool; a failed import reports the import command and its result. */
  lemma RunModuleTable(poolname: string, stateFileExists: bool, contents: string, importResult: ImportResult)
    ensures var r := RunModule(poolname, stateFileExists, contents, importResult);
      && (r.importAttempted <==> !stateFileExists)
      && (r.exit.changed <==> !stateFileExists && importResult.Imported?)
      && (r.exit.Failed? <==> stateFileExists && DropLast(contents) != "ONLINE")
      && (r.exit.ImportUnsuccessful? <==> !stateFileExists && importResult.ImportFailed?)
      && (r.exit.ImportUnsuccessful? ==>
            r.exit == ImportUnsuccessful("pool import unsuccessful", ImportArgv(poolname),
                                         importResult.returncode, importResult.stdout, importResult.stderr, false))
      && (!r.exit.ImportUnsuccessful? ==> r.exit.poolname == poolname)
  {
  }

  /** An imported pool's outcome does not depend on what importing would do. */
  lemma ImportedIgnoresImportResult(poolname: string, contents: string, a: ImportResult, b: ImportResult)
    ensures RunModule(poolname, true, contents, a) == RunModule(poolname, true, contents, b)
  {
  }

  /** A pool that is not imported gives the same outcome whatever its
      (missing) state file would have held. */
  lemma MissingStateFileNotRead(poolname: string, c1: string, c2: string, importResult: ImportResult)
    ensures RunModule(poolname, false, c1, importResult) == RunModule(poolname, false, c2, importResult)
  {
  }

  /** A state file reading `ONLINE\n` is online; `DEGRADED\n` is not. */
  lemma OnlineExamples()
    ensures PoolImportedAndOnline(true, "ONLINE\n") == (true, true)
    ensures PoolImportedAndOnline(true, "DEGRADED\n") == (true, false)
  {
    assert "DEGRADED\n"[..8] != "ONLINE";
  }
}
