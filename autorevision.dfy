/**
 * `main` (lines 86-243): read the arguments, determine revision and date,
 * apply the override, and write the header unless it is up to date.
 */
module Autorevision {
  import opened Outcomes
  import opened Strings
  import opened CommandLine
  import opened RevisionQuery
  import opened HeaderOutput

  /** How the process ends: an exit code, or termination by an uncaught exception or undefined behaviour. */
  datatype Exit = Code(code: int) | Terminated

  const ExitSuccess := 0
  const ExitFailure := 1

  datatype RunResult = RunResult(exit: Exit, files: map<string, string>)

  /** The revision written: the override when one was given, else what the queries left. */
  function EffectiveRevision(o: Options, d: Determination): string
  {
    if o.overrideRevision != "" then o.overrideRevision else d.revision
  }

  /**
   * Reference definition of a run, from the classified command line. `env`
   * describes the tools and their replies for the working directory;
   * `writable` says whether the output file can be opened for writing.
   */
  function RunSpec(cl: CommandLine, env: Environment, files: map<string, string>, writable: bool): RunResult
  {
    match cl
    case ShowHelp => RunResult(Code(1), files)
    case NoWorkingDir => RunResult(Code(1), files)
    case MissingRevisionValue => RunResult(Terminated, files)
    case Invocation(o) => AfterQueries(o, Fallback(env, o.skipGitSvn), files, writable)
  }

  /** What follows the queries: the override, the format check, and the write. */
  function AfterQueries(o: Options, d: Determination, files: map<string, string>, writable: bool): RunResult
  {
    if d.status == Crashed then RunResult(Terminated, files)
    else if !AnyFormat(o.formats) then RunResult(Code(ExitFailure), files)
    else
      var w := WriteEffect(files, o.outputFile, writable, EffectiveRevision(o, d), d.date, o.formats);
      RunResult(Code(if w.ok then ExitSuccess else ExitFailure), w.files)
  }

  /** Lines 86-243 of the source. */
  method Run(args: seq<string>, env: Environment, files: map<string, string>, writable: bool) returns (r: RunResult)
    ensures r == RunSpec(Classify(args), env, files, writable)
  {
    var cl := ParseCommandLine(args);
    if cl.ShowHelp? || cl.NoWorkingDir? {
      return RunResult(Code(1), files);
    }
    if cl.MissingRevisionValue? {
      return RunResult(Terminated, files);
    }
    var o := cl.options;
    var d := DetermineRevision(env, o.skipGitSvn);
    if d.status == Crashed {
      return RunResult(Terminated, files);
    }
    var revision := d.revision;
    if o.overrideRevision != "" {
      revision := o.overrideRevision;
    }
    if !o.formats.doInt && !o.formats.doStd && !o.formats.doWx {
      return RunResult(Code(ExitFailure), files);
    }
    var w := WriteOutput(files, o.outputFile, writable, revision, d.date, o.formats);
    if !w.ok {
      return RunResult(Code(ExitFailure), w.files);
    }
    return RunResult(Code(ExitSuccess), w.files);
  }

  /**
   * A run changes at most the output file, and only when it exits with
   * success.
   */
  lemma RunChangesOnlyOutput(cl: CommandLine, env: Environment, files: map<string, string>, writable: bool)
    ensures var r := RunSpec(cl, env, files, writable);
      && (r.files != files ==> r.exit == Code(ExitSuccess) && cl.Invocation?)
      && (cl.Invocation? ==> forall p :: p != cl.options.outputFile ==>
            (p in r.files <==> p in files) && (p in files ==> r.files[p] == files[p]))
  {
    if cl.Invocation? {
      var o := cl.options;
      var d := Fallback(env, o.skipGitSvn);
      if d.status != Crashed && AnyFormat(o.formats) {
        WriteEffectMeaning(files, o.outputFile, writable, EffectiveRevision(o, d), d.date, o.formats);
      }
    }
  }

  /**
   * Exit code 0 means the header is up to date: the output file starts with
   * the tag of the effective revision, the date and the flags.
   */
  lemma SuccessMeansUpToDate(cl: CommandLine, env: Environment, files: map<string, string>, writable: bool)
    requires RunSpec(cl, env, files, writable).exit == Code(ExitSuccess)
    ensures cl.Invocation?
    ensures var o := cl.options;
      var d := Fallback(env, o.skipGitSvn);
      var r := RunSpec(cl, env, files, writable);
      && d.status != Crashed
      && AnyFormat(o.formats)
      && o.outputFile in r.files
      && ('\n' !in EffectiveRevision(o, d) && '\n' !in d.date ==>
            FirstLine(r.files[o.outputFile]) == VersionTag(EffectiveRevision(o, d), d.date, o.formats))
  {
    var o := cl.options;
    var d := Fallback(env, o.skipGitSvn);
    WriteEffectMeaning(files, o.outputFile, writable, EffectiveRevision(o, d), d.date, o.formats);
  }

  /**
   * The build-time promise: running again with the same arguments and the
   * same repository state changes nothing and succeeds, even when the file
   * can no longer be written.
   */
  lemma RunTwiceIsNoop(cl: CommandLine, env: Environment, files: map<string, string>,
                       writable: bool, writable2: bool)
    requires RunSpec(cl, env, files, writable).exit == Code(ExitSuccess)
    requires cl.Invocation?
    requires var o := cl.options; var d := Fallback(env, o.skipGitSvn);
      '\n' !in EffectiveRevision(o, d) && '\n' !in d.date
    ensures var r := RunSpec(cl, env, files, writable);
      RunSpec(cl, env, r.files, writable2) == r
  {
    var o := cl.options;
    var d := Fallback(env, o.skipGitSvn);
    var w := WriteEffect(files, o.outputFile, writable, EffectiveRevision(o, d), d.date, o.formats);
    assert RunSpec(cl, env, files, writable) == RunResult(Code(ExitSuccess), w.files);
    WriteTwiceIsNoop(files, o.outputFile, writable, writable2, EffectiveRevision(o, d), d.date, o.formats);
  }

  /** Without `+int`, `+std` or `+wx` nothing is written, but the queries still run first. */
  lemma NoFormatNoWrite(cl: CommandLine, env: Environment, files: map<string, string>, writable: bool)
    requires cl.Invocation? && !AnyFormat(cl.options.formats)
    ensures var r := RunSpec(cl, env, files, writable);
      var d := Fallback(env, cl.options.skipGitSvn);
      && r.files == files
      && r.exit == (if d.status == Crashed then Terminated else Code(ExitFailure))
  {
  }

  /**
   * A help request that the argument loop reaches (no `--revision` right
   * before it takes it as its value) ends the run with 1 before anything
   * is queried or written.
   */
  lemma HelpReturnsOne(pre: seq<string>, h: string, post: seq<string>, env: Environment,
                       files: map<string, string>, writable: bool)
    requires h == "-h" || h == "--help"
    requires ScanArgs(pre, InitialOptions) != RevisionValueMissing
    ensures RunSpec(Classify(pre + [h] + post), env, files, writable) == RunResult(Code(1), files)
  {
    HelpWins(pre, h, post, InitialOptions);
  }

  /**
   * A file that a run changes holds the header for the effective revision
   * (the override when one was given) and the date the queries left, which
   * the override never replaces.
   */
  lemma WrittenHeader(cl: CommandLine, env: Environment, files: map<string, string>, writable: bool)
    requires RunSpec(cl, env, files, writable).files != files
    ensures cl.Invocation?
    ensures var o := cl.options;
      var d := Fallback(env, o.skipGitSvn);
      var r := RunSpec(cl, env, files, writable);
      && o.outputFile in r.files
      && r.files[o.outputFile] == HeaderText(if o.overrideRevision != "" then o.overrideRevision else d.revision,
                                             d.date, o.formats)
  {
    var o := cl.options;
    var d := Fallback(env, o.skipGitSvn);
    assert d.status != Crashed && AnyFormat(o.formats);
    ChangedMeansWritten(files, o.outputFile, writable, EffectiveRevision(o, d), d.date, o.formats);
  }
}
