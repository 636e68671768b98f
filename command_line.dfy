/**
 * The argument loop of `main` (lines 100-161): each argument either sets a
 * flag, requests help, supplies the override revision, or, when it does not
 * start with '+', '-', '/' or '\\', fills the working directory and then the
 * output file.
 */
module CommandLine {

  /** The four output flags: `+int`, `+std`, `+wx` and `+t`. */
  datatype Formats = Formats(doInt: bool, doStd: bool, doWx: bool, doTranslate: bool)

  datatype Options = Options(
    formats: Formats,
    verbose: bool,
    debug: bool,
    skipGitSvn: bool,
    workingDir: string,
    outputFile: string,
    overrideRevision: string)

  /** Where the argument loop stops. */
  datatype Scan =
    | HelpRequested
      /** `--revision` was the last argument: `argv[++i]` is a null pointer. */
    | RevisionValueMissing
    | Scanned(options: Options)

  /** How `main` proceeds after reading its arguments. */
  datatype CommandLine =
    | ShowHelp
    | MissingRevisionValue
    | NoWorkingDir
    | Invocation(options: Options)

  const DefaultOutputFile := "autorevision.h"

  const InitialOptions := Options(Formats(false, false, false, false), false, false, false, "", "", "")

  /** Starts like an option: the check that warns about misspelt options. */
  predicate OptionLike(a: string)
  {
    |a| > 0 && (a[0] == '+' || a[0] == '-' || a[0] == '/' || a[0] == '\\')
  }

  predicate AnyFormat(f: Formats)
  {
    f.doInt || f.doStd || f.doWx
  }

  /** What one argument is, classified in the order of the source's `if` chain. */
  datatype ArgKind =
    | IntFlag | StdFlag | WxFlag | TranslateFlag | VerboseFlag | DebugFlag
    | HelpFlag | SkipGitSvnFlag | RevisionFlag
      /** Starts like an option but is none: a warning is printed. */
    | Unknown
      /** A candidate for the working directory or the output file. */
    | Word

  function Kind(a: string): ArgKind
  {
    if a == "+int" then IntFlag
    else if a == "+std" then StdFlag
    else if a == "+wx" then WxFlag
    else if a == "+t" then TranslateFlag
    else if a == "-v" || a == "--verbose" then VerboseFlag
    else if a == "--debug" then DebugFlag
    else if a == "-h" || a == "--help" then HelpFlag
    else if a == "--skip-git-svn" then SkipGitSvnFlag
    else if a == "--revision" then RevisionFlag
    else if OptionLike(a) then Unknown
    else Word
  }

  /** The effect of one argument that neither asks for help nor is `--revision`. */
  function Step(o: Options, k: ArgKind, a: string): Options
  {
    match k
    case IntFlag => o.(formats := o.formats.(doInt := true))
    case StdFlag => o.(formats := o.formats.(doStd := true))
    case WxFlag => o.(formats := o.formats.(doWx := true))
    case TranslateFlag => o.(formats := o.formats.(doTranslate := true))
    case VerboseFlag => o.(verbose := true)
    case DebugFlag => o.(debug := true)
    case SkipGitSvnFlag => o.(skipGitSvn := true)
    case Word =>
      if o.workingDir == "" then o.(workingDir := a)
      else if o.outputFile == "" then o.(outputFile := a)
      else o
    case _ => o
  }

  /** The effect of the arguments, one at a time (`--revision` takes two). */
  function ScanArgs(args: seq<string>, o: Options): Scan
    decreases |args|
  {
    if args == [] then Scanned(o)
    else
      var k := Kind(args[0]);
      if k == HelpFlag then HelpRequested
      else if k == RevisionFlag then
        if |args| < 2 then RevisionValueMissing
        else ScanArgs(args[2..], o.(overrideRevision := args[1]))
      else ScanArgs(args[1..], Step(o, k, args[0]))
  }

  /** After the loop: no working directory is an error, the output file has a default, `--debug` implies `-v`. */
  function Finish(s: Scan): CommandLine
  {
    match s
    case HelpRequested => ShowHelp
    case RevisionValueMissing => MissingRevisionValue
    case Scanned(o) =>
      if o.workingDir == "" then NoWorkingDir
      else Invocation(o.(outputFile := if o.outputFile == "" then DefaultOutputFile else o.outputFile,
                         verbose := o.verbose || o.debug))
  }

  function Classify(args: seq<string>): CommandLine
  {
    Finish(ScanArgs(args, InitialOptions))
  }

  /** Lines 100-161 of the source: the loop over `argv[1..]`. */
  method ParseCommandLine(args: seq<string>) returns (cl: CommandLine)
    ensures cl == Classify(args)
  {
    var o := InitialOptions;
    var i := 0;
    while i < |args|
      invariant 0 <= i <= |args|
      invariant ScanArgs(args, InitialOptions) == ScanArgs(args[i..], o)
      decreases |args| - i
    {
      var a := args[i];
      assert args[i..][1..] == args[i + 1..];
      if a == "+int" {
        o := o.(formats := o.formats.(doInt := true));
      } else if a == "+std" {
        o := o.(formats := o.formats.(doStd := true));
      } else if a == "+wx" {
        o := o.(formats := o.formats.(doWx := true));
      } else if a == "+t" {
        o := o.(formats := o.formats.(doTranslate := true));
      } else if a == "-v" || a == "--verbose" {
        o := o.(verbose := true);
      } else if a == "--debug" {
        o := o.(debug := true);
      } else if a == "-h" || a == "--help" {
        return ShowHelp;
      } else if a == "--skip-git-svn" {
        o := o.(skipGitSvn := true);
      } else if a == "--revision" {
        i := i + 1;
        if i == |args| {
          return MissingRevisionValue;
        }
        assert args[i - 1..][2..] == args[i + 1..];
        o := o.(overrideRevision := args[i]);
      } else if OptionLike(a) {
        // warning only
      } else if o.workingDir == "" {
        o := o.(workingDir := a);
      } else if o.outputFile == "" {
        o := o.(outputFile := a);
      }
      i := i + 1;
    }
    if o.workingDir == "" {
      return NoWorkingDir;
    }
    if o.outputFile == "" {
      o := o.(outputFile := DefaultOutputFile);
    }
    if o.debug {
      o := o.(verbose := true);
    }
    cl := Invocation(o);
  }

  /** The arguments that end or reshape the loop: help, and `--revision` with its value. */
  predicate Stops(a: string)
  {
    Kind(a) == HelpFlag || Kind(a) == RevisionFlag
  }

  /** An argument that may become the working directory or the output file. */
  predicate Positional(a: string)
  {
    Kind(a) == Word && a != ""
  }

  lemma Take2Chain(s: seq<string>, p: seq<string>, rest: seq<string>)
    ensures Take2(Take2(s + p) + rest) == Take2(s + (p + rest))
  {
    Take2Twice(s + p, rest);
    assert s + p + rest == s + (p + rest);
  }

  function PositionalPart(k: ArgKind, a: string): seq<string>
  {
    if k == Word && a != "" then [a] else []
  }

  function Positionals(args: seq<string>): (ps: seq<string>)
    ensures forall i :: 0 <= i < |ps| ==> Positional(ps[i])
  {
    if args == [] then [] else PositionalPart(Kind(args[0]), args[0]) + Positionals(args[1..])
  }

  function Kinds(args: seq<string>): (ks: seq<ArgKind>)
    ensures |ks| == |args|
    ensures forall i :: 0 <= i < |args| ==> ks[i] == Kind(args[i])
  {
    if args == [] then [] else [Kind(args[0])] + Kinds(args[1..])
  }

  /** The positional slots already filled: working directory, then output file. */
  function Slots(o: Options): seq<string>
  {
    if o.workingDir == "" then [] else if o.outputFile == "" then [o.workingDir] else [o.workingDir, o.outputFile]
  }

  function Take2(s: seq<string>): (t: seq<string>)
    ensures |t| <= 2 && t <= s
  {
    if |s| <= 2 then s else s[..2]
  }

  lemma Take2Twice(s: seq<string>, rest: seq<string>)
    ensures Take2(Take2(s) + rest) == Take2(s + rest)
  {
    if |s| > 2 {
      assert (s[..2] + rest)[..2] == s[..2] == (s + rest)[..2];
    } else if |s + rest| > 2 {
      assert (s + rest)[..2] == (Take2(s) + rest)[..2];
    }
  }

  /** One argument's effect on the flags. */
  lemma StepFlags(o: Options, k: ArgKind, a: string)
    requires k != HelpFlag && k != RevisionFlag
    ensures Step(o, k, a).formats == Formats(o.formats.doInt || k == IntFlag, o.formats.doStd || k == StdFlag,
                                             o.formats.doWx || k == WxFlag, o.formats.doTranslate || k == TranslateFlag)
    ensures Step(o, k, a).verbose == (o.verbose || k == VerboseFlag)
    ensures Step(o, k, a).debug == (o.debug || k == DebugFlag)
    ensures Step(o, k, a).skipGitSvn == (o.skipGitSvn || k == SkipGitSvnFlag)
    ensures Step(o, k, a).overrideRevision == o.overrideRevision
  {
    match k
    case IntFlag =>
    case StdFlag =>
    case WxFlag =>
    case TranslateFlag =>
    case VerboseFlag =>
    case DebugFlag =>
    case SkipGitSvnFlag =>
    case Unknown =>
    case Word =>
  }

  /** One argument's effect on the positional slots. */
  lemma StepSlots(o: Options, k: ArgKind, a: string)
    requires k != HelpFlag && k != RevisionFlag
    requires o.workingDir == "" ==> o.outputFile == ""
    ensures Step(o, k, a).workingDir == "" ==> Step(o, k, a).outputFile == ""
    ensures Slots(Step(o, k, a)) == Take2(Slots(o) + PositionalPart(k, a))
  {
    if k == Word {
      if a == "" {
        assert PositionalPart(k, a) == [];
        assert Slots(o) + [] == Slots(o);
      } else if |Slots(o)| == 2 {
        assert (Slots(o) + [a])[..2] == Slots(o);
      } else {
        assert Slots(o) + PositionalPart(k, a) == Slots(o) + [a];
      }
    } else {
      assert PositionalPart(k, a) == [];
      assert Slots(o) + [] == Slots(o);
    }
  }

  /** Without help or `--revision`, the loop always completes and never touches the override. */
  lemma {:induction false} ScanCompletes(args: seq<string>, o: Options)
    requires forall i :: 0 <= i < |args| ==> !Stops(args[i])
    ensures ScanArgs(args, o).Scanned?
    ensures ScanArgs(args, o).options.overrideRevision == o.overrideRevision
    decreases |args|
  {
    if args != [] {
      var k := Kind(args[0]);
      assert !Stops(args[0]);
      StepFlags(o, k, args[0]);
      ScanCompletes(args[1..], Step(o, k, args[0]));
    }
  }

  /** Without help or `--revision`, each flag is set exactly when its kind occurs among the arguments. */
  lemma {:induction false} ScanFlags(args: seq<string>, o: Options)
    requires forall i :: 0 <= i < |args| ==> !Stops(args[i])
    ensures ScanArgs(args, o).Scanned?
    ensures ScanArgs(args, o).options.formats == Formats(
      o.formats.doInt || IntFlag in Kinds(args), o.formats.doStd || StdFlag in Kinds(args),
      o.formats.doWx || WxFlag in Kinds(args), o.formats.doTranslate || TranslateFlag in Kinds(args))
    ensures ScanArgs(args, o).options.verbose == (o.verbose || VerboseFlag in Kinds(args))
    ensures ScanArgs(args, o).options.debug == (o.debug || DebugFlag in Kinds(args))
    ensures ScanArgs(args, o).options.skipGitSvn == (o.skipGitSvn || SkipGitSvnFlag in Kinds(args))
    decreases |args|
  {
    ScanCompletes(args, o);
    if args != [] {
      var k := Kind(args[0]);
      assert !Stops(args[0]);
      StepFlags(o, k, args[0]);
      ScanFlags(args[1..], Step(o, k, args[0]));
      assert Kinds(args) == [k] + Kinds(args[1..]);
    }
  }

  /**
   * Without help or `--revision`, the positional arguments fill the working
   * directory and then the output file; later ones are ignored.
   */
  lemma {:induction false} ScanSlots(args: seq<string>, o: Options)
    requires forall i :: 0 <= i < |args| ==> !Stops(args[i])
    requires o.workingDir == "" ==> o.outputFile == ""
    ensures ScanArgs(args, o).Scanned?
    ensures ScanArgs(args, o).options.workingDir == "" ==> ScanArgs(args, o).options.outputFile == ""
    ensures Slots(ScanArgs(args, o).options) == Take2(Slots(o) + Positionals(args))
    decreases |args|
  {
    ScanCompletes(args, o);
    if args != [] {
      var a := args[0];
      var rest := args[1..];
      var k := Kind(a);
      assert !Stops(a);
      assert ScanArgs(args, o) == ScanArgs(rest, Step(o, k, a));
      StepSlots(o, k, a);
      ScanSlots(rest, Step(o, k, a));
      assert Positionals(args) == PositionalPart(k, a) + Positionals(rest);
      Take2Chain(Slots(o), PositionalPart(k, a), Positionals(rest));
    }
  }

  /** Which names give which kind. */
  lemma KindNames(a: string)
    ensures Kind(a) == IntFlag <==> a == "+int"
    ensures Kind(a) == StdFlag <==> a == "+std"
    ensures Kind(a) == WxFlag <==> a == "+wx"
    ensures Kind(a) == TranslateFlag <==> a == "+t"
    ensures Kind(a) == VerboseFlag <==> a == "-v" || a == "--verbose"
    ensures Kind(a) == DebugFlag <==> a == "--debug"
    ensures Kind(a) == SkipGitSvnFlag <==> a == "--skip-git-svn"
  {
  }

  lemma KindsNames(args: seq<string>)
    ensures IntFlag in Kinds(args) <==> "+int" in args
    ensures StdFlag in Kinds(args) <==> "+std" in args
    ensures WxFlag in Kinds(args) <==> "+wx" in args
    ensures TranslateFlag in Kinds(args) <==> "+t" in args
    ensures VerboseFlag in Kinds(args) <==> "-v" in args || "--verbose" in args
    ensures DebugFlag in Kinds(args) <==> "--debug" in args
    ensures SkipGitSvnFlag in Kinds(args) <==> "--skip-git-svn" in args
  {
    forall i | 0 <= i < |args| {
      KindNames(args[i]);
    }
  }

  /**
   * The classification of an invocation without help or `--revision`:
   * no positional argument is an error; otherwise every field is given by
   * which arguments occur, and the output file defaults to `autorevision.h`.
   */
  lemma CommandLineMeaning(args: seq<string>)
    requires forall i :: 0 <= i < |args| ==> !Stops(args[i])
    ensures Classify(args) == NoWorkingDir <==> Positionals(args) == []
    ensures var ps := Positionals(args);
      ps != [] ==> Classify(args) == Invocation(Options(
        Formats("+int" in args, "+std" in args, "+wx" in args, "+t" in args),
        "-v" in args || "--verbose" in args || "--debug" in args,
        "--debug" in args,
        "--skip-git-svn" in args,
        ps[0],
        if |ps| > 1 then ps[1] else DefaultOutputFile,
        ""))
  {
    ClassifyByKinds(args);
    KindsNames(args);
  }

  /** `CommandLineMeaning` with each flag given by the kinds of the arguments. */
  lemma ClassifyByKinds(args: seq<string>)
    requires forall i :: 0 <= i < |args| ==> !Stops(args[i])
    ensures Classify(args) == NoWorkingDir <==> Positionals(args) == []
    ensures var ps := Positionals(args);
      var ks := Kinds(args);
      ps != [] ==> Classify(args) == Invocation(Options(
        Formats(IntFlag in ks, StdFlag in ks, WxFlag in ks, TranslateFlag in ks),
        VerboseFlag in ks || DebugFlag in ks,
        DebugFlag in ks,
        SkipGitSvnFlag in ks,
        ps[0],
        if |ps| > 1 then ps[1] else DefaultOutputFile,
        ""))
  {
    ScanByKinds(args);
  }

  /** What the loop leaves without help or `--revision`: flags by kind, slots by the positionals. */
  lemma ScanByKinds(args: seq<string>)
    requires forall i :: 0 <= i < |args| ==> !Stops(args[i])
    ensures var ps := Positionals(args);
      var ks := Kinds(args);
      ScanArgs(args, InitialOptions) == Scanned(Options(
        Formats(IntFlag in ks, StdFlag in ks, WxFlag in ks, TranslateFlag in ks),
        VerboseFlag in ks,
        DebugFlag in ks,
        SkipGitSvnFlag in ks,
        if |ps| > 0 then ps[0] else "",
        if |ps| > 1 then ps[1] else "",
        ""))
  {
    ScanCompletes(args, InitialOptions);
    ScanFlags(args, InitialOptions);
    ScanSlots(args, InitialOptions);
    var ps := Positionals(args);
    assert Slots(InitialOptions) + ps == ps;
    SlotsDetermine(ScanArgs(args, InitialOptions).options, ps);
  }

  /** Slots filled as the first two of `ps` hold exactly those. */
  lemma SlotsDetermine(r: Options, ps: seq<string>)
    requires Slots(r) == Take2(ps)
    requires forall i :: 0 <= i < |ps| ==> Positional(ps[i])
    requires r.workingDir == "" ==> r.outputFile == ""
    ensures r.workingDir == if |ps| > 0 then ps[0] else ""
    ensures r.outputFile == if |ps| > 1 then ps[1] else ""
  {
    if ps != [] {
      assert Take2(ps)[0] == ps[0];
      if |ps| > 1 {
        assert Take2(ps)[1] == ps[1];
      }
    }
  }

  /**
   * A help request ends the loop, whatever follows, when the scan reaches
   * it: the arguments before it do not end on a `--revision` that takes it
   * as its value. Earlier `--revision v` pairs and flags make no difference.
   */
  lemma {:induction false} HelpWins(pre: seq<string>, h: string, post: seq<string>, o: Options)
    requires h == "-h" || h == "--help"
    requires ScanArgs(pre, o) != RevisionValueMissing
    ensures ScanArgs(pre + [h] + post, o) == HelpRequested
    decreases |pre|
  {
    if pre == [] {
      assert pre + [h] + post == [h] + post;
    } else {
      var a := pre[0];
      var k := Kind(a);
      if k == HelpFlag {
        assert (pre + [h] + post)[0] == a;
      } else if k == RevisionFlag {
        if |pre| >= 2 {
          assert (pre + [h] + post)[0] == a && (pre + [h] + post)[1] == pre[1];
          assert (pre + [h] + post)[2..] == pre[2..] + [h] + post;
          HelpWins(pre[2..], h, post, o.(overrideRevision := pre[1]));
        } else {
          assert false;
        }
      } else {
        assert (pre + [h] + post)[1..] == pre[1..] + [h] + post;
        HelpWins(pre[1..], h, post, Step(o, k, a));
      }
    }
  }

  /**
   * `--revision` takes the next argument as the override, whatever it looks
   * like, and the pair has no other effect on the scan.
   */
  lemma {:induction false} RevisionConsumesNext(pre: seq<string>, v: string, post: seq<string>, o: Options)
    requires forall i :: 0 <= i < |pre| ==> !Stops(pre[i])
    ensures ScanArgs(pre + ["--revision", v] + post, o) == ScanArgs(pre + post, o.(overrideRevision := v))
    decreases |pre|
  {
    if pre == [] {
      assert pre + ["--revision", v] + post == ["--revision", v] + post;
      assert (["--revision", v] + post)[2..] == post;
      assert pre + post == post;
    } else {
      var a := pre[0];
      assert (pre + ["--revision", v] + post)[1..] == pre[1..] + ["--revision", v] + post;
      assert (pre + post)[1..] == pre[1..] + post;
      RevisionConsumesNext(pre[1..], v, post, Step(o, Kind(a), a));
      StepOverride(o, Kind(a), a, v);
    }
  }

  lemma StepOverride(o: Options, k: ArgKind, a: string, v: string)
    ensures Step(o, k, a).(overrideRevision := v) == Step(o.(overrideRevision := v), k, a)
  {
    match k
    case IntFlag =>
    case StdFlag =>
    case WxFlag =>
    case TranslateFlag =>
    case VerboseFlag =>
    case DebugFlag =>
    case SkipGitSvnFlag =>
    case Word =>
    case _ =>
  }

  /** `--revision` as the last argument: the loop reads past the end of `argv`. */
  lemma TrailingRevision(pre: seq<string>)
    requires forall i :: 0 <= i < |pre| ==> !Stops(pre[i])
    ensures Classify(pre + ["--revision"]) == MissingRevisionValue
  {
    TrailingRevisionFrom(pre, InitialOptions);
  }

  lemma {:induction false} TrailingRevisionFrom(pre: seq<string>, o: Options)
    requires forall i :: 0 <= i < |pre| ==> !Stops(pre[i])
    ensures ScanArgs(pre + ["--revision"], o) == RevisionValueMissing
    decreases |pre|
  {
    if pre == [] {
      assert pre + ["--revision"] == ["--revision"];
    } else {
      var a := pre[0];
      assert (pre + ["--revision"])[1..] == pre[1..] + ["--revision"];
      TrailingRevisionFrom(pre[1..], Step(o, Kind(a), a));
    }
  }
}
