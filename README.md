# autorevision, modelled in Dafny

`autorevision` is a build tool. It finds the Subversion revision and commit
date of a working copy and writes them into a small C++ header,
`autorevision.h` by default. It tries three ways, in order:
`svn info --xml`, plain `svn info`, and `git svn info`. Each later one runs
only while every earlier one has failed, and only when its tool is installed.
The header is rewritten only when its first line, a one-line version tag,
differs from the tag of the new inputs. This keeps the file's timestamp when
nothing changed, so the build does not recompile needlessly.

The model follows `src/build_tools/autorevision/autorevision.cpp`, one module
per part of that file:

| module | file | part of the source |
|---|---|---|
| `Strings` | `strings.dfy` | the `std::string` operations used: `find`, `rfind`, `getline`, reading a zero-filled buffer |
| `Outcomes` | `outcomes.dfy` | what a query writes into the caller's `revision` and `date`, and whether it succeeded, failed or threw |
| `SvnInfoText` | `svn_info_text.dfy` | the plain-text parser shared by `QueryGitSvn` and `QuerySvnOldStyle` |
| `SvnInfoXml` | `svn_info_xml.dfy` | `QuerySvn`: the `info/entry/commit` lookup and the date rewrite |
| `RevisionQuery` | `revision_query.dfy` | the fallback sequence in `main` |
| `CommandLine` | `command_line.dfy` | the argument loop in `main` |
| `HeaderOutput` | `header_output.dfy` | `WriteOutput`: the version tag, the header text, and the write-skip |
| `Autorevision` | `autorevision.dfy` | `main` as a whole |

Most of the source's operations change variables step by step. Each becomes
a `method` with a loop or a chain of assignments, as in the source. Each
method is proved equal to a reference `function`, and the lemmas state what
the tool promises in terms of those functions:
- the scanning loop `ScanRevisionLength`, and the two halves of the
  plain-text parser, `ScanRevision` and `ScanDate`;
- the argument loop `ParseCommandLine`;
- the fallback `DetermineRevision`;
- the header streaming `StreamHeader`;
- `main` itself, as `Run`. `RunSpec` takes the command line as
  `Classify` leaves it, and the lemmas about runs are stated for every
  classified command line.

The file system is a `map<string, string>` from path to content. A flag
`writable` says whether the output file can be opened for writing. The outside
world is an `Environment` value:
- whether `svn --version` and `git --version` succeed;
- the reply of each query command.

Behaviour of the code that is easy to miss:
- `QuerySvn` succeeds as soon as the `commit` element exists, even with no
  `revision` attribute or no date text (lines 639-665). A missing
  `revision` attribute then writes `""`, and a missing or empty `date`
  element leaves the date alone. `SvnXmlSuccessRule` states this.
- The revision scan (lines 419-420, and 542-543) post-increments inside the
  loop test. So a character above `'9'` right after the digits is counted as
  part of the revision: "12a" gives "12a". See `RevisionLength` and
  `OvershootSample`.
- A plain-text reply with a revision but no `"Last Changed Date: "` label
  does not fail cleanly. `pos` is `npos` while `len` still holds the revision
  length, so `substr` throws `std::out_of_range` (line 451, and 574). Nothing
  catches it, so the process terminates (`Crashed`, then `Terminated`).
- The write-skip compares the file's first line with the tag (lines
  706-722). With a newline in the revision or the date they never match, so
  every run rewrites the header (`NewlineDefeatsSkip`). With a ';' in them,
  different inputs can give the same tag, so a header for other inputs can be
  kept (`SemicolonDefeatsSkip`).
- The `std::string` date constant, `svn_date_s`, is initialised with the
  quoted revision, not the date (line 770). The model writes what the code
  writes, and `HeaderDeclares` states it.

## Model

| member | source | states |
|---|---|---|
| Strings.Find | src/build_tools/autorevision/autorevision.cpp:413 | `find` of a label: the first index at or after `from` where the label occurs, or none when it occurs nowhere after `from` |
| Strings.FindChar | src/build_tools/autorevision/autorevision.cpp:440-443 | `find(" ", pos)`: the first index at or after `pos` holding the character, or none when no later index holds it |
| Strings.LastIndexOf | src/build_tools/autorevision/autorevision.cpp:651 | `rfind('.')`: the last index holding the character, or none when no index holds it |
| Strings.FirstLine | src/build_tools/autorevision/autorevision.cpp:712 | `getline` reads the newline-free prefix of the file that ends at its first newline, or the whole file when it has none |
| Strings.FirstLineOf | src/build_tools/autorevision/autorevision.cpp:712 | a text made of a newline-free line, a newline and any rest has that line as its first line |
| SvnInfoText.DigitRun | src/build_tools/autorevision/autorevision.cpp:419-420 | the run of digits at a position: every character in it is a digit, and the character after it, or NUL past the end, is not |
| SvnInfoText.DigitRunUnique | src/build_tools/autorevision/autorevision.cpp:419-420 | any run of digits ended by a non-digit is the maximal run |
| SvnInfoText.RevisionLength | src/build_tools/autorevision/autorevision.cpp:419-420 | reference definition of what the scan loop counts: the digit run, plus the character ending it when that is not below '0'. `RevisionLengthMeaning` states its meaning |
| SvnInfoText.ScanRevisionLength | src/build_tools/autorevision/autorevision.cpp:410-420 | the post-incrementing scan loop over the zero-filled buffer counts exactly `RevisionLength`, and stays inside the text |
| SvnInfoText.RevisionLengthMeaning | src/build_tools/autorevision/autorevision.cpp:410-425 | the count is 0 exactly when the first character is below '0'. Every counted character is at least '0', and all but the last are digits. A final digit is followed by a character below '0'; a final non-digit is above '9' |
| SvnInfoText.RevisionScanRule | src/build_tools/autorevision/autorevision.cpp:410-433 | on label + digits + rest: the revision is the digits plus the first character of the rest when that is above '9', otherwise the digits alone; an empty digit run gives no revision |
| SvnInfoText.RunThenRest | src/build_tools/autorevision/autorevision.cpp:419-425 | from a position followed by a digit run and a rest that does not start with a digit, the counted text is the digits plus the rest's first character when that is above '9' |
| SvnInfoText.RevisionField | src/build_tools/autorevision/autorevision.cpp:410-433 | reference definition of the revision after the first `"Last Changed Rev: "`, or none. `RevisionScanRule` and `RevisionAt` state it |
| SvnInfoText.RevisionAt | src/build_tools/autorevision/autorevision.cpp:413-425 | unfolding step: with the label found at `p`, the revision is the counted text after it, or none when the count is 0 |
| SvnInfoText.OvershootSample | src/build_tools/autorevision/autorevision.cpp:419-420 | "Last Changed Rev: 12a" gives the revision "12a" |
| SvnInfoText.DateLength | src/build_tools/autorevision/autorevision.cpp:435-448 | a non-zero date length stays strictly inside the text |
| SvnInfoText.DateSpanMeaning | src/build_tools/autorevision/autorevision.cpp:435-448 | the date length is 0 exactly when fewer than two spaces follow the label. A non-empty span holds exactly one space and is followed by a space |
| SvnInfoText.DateSpanRule | src/build_tools/autorevision/autorevision.cpp:435-451 | after the label, two space-free words each followed by a space give the date "first second" |
| SvnInfoText.DateResult | src/build_tools/autorevision/autorevision.cpp:435-451 | reference definition of the date after the first `"Last Changed Date: "`: no label, no date, or the span up to the second space. `DateAt`, `DateSpanMeaning` and `DateSpanRule` state it |
| SvnInfoText.DateAt | src/build_tools/autorevision/autorevision.cpp:436-451 | unfolding step: with the label found at `p`, the date is the span after it, or no date when the span is empty |
| SvnInfoText.PlainTextWrites | src/build_tools/autorevision/autorevision.cpp:410-460 | the revision is written exactly when it parses; the date only on success. The query crashes exactly when the revision parses and the date label is absent |
| SvnInfoText.PlainTextSuccess | src/build_tools/autorevision/autorevision.cpp:422-460 | success means a non-empty revision was written, and a non-empty date holding exactly one space |
| SvnInfoText.DateHasOneSpace | src/build_tools/autorevision/autorevision.cpp:439-451 | a non-empty date span holds exactly one space |
| SvnInfoText.PlainTextOutcome | src/build_tools/autorevision/autorevision.cpp:410-460 | reference definition of what a plain-text query writes and reports, including the crash. `PlainTextWrites` and `PlainTextSuccess` state it |
| SvnInfoText.QueryPlainText | src/build_tools/autorevision/autorevision.cpp:410-460 | the parser of `QueryGitSvn` (its twin is at lines 533-583) yields `PlainTextOutcome`: what it writes, what it reports, and when it throws |
| SvnInfoText.ScanRevision | src/build_tools/autorevision/autorevision.cpp:410-433 | finding the label and running the scan loop yield exactly the revision field |
| SvnInfoText.ScanDate | src/build_tools/autorevision/autorevision.cpp:435-451 | finding the label and the two spaces yield exactly the date result: no label, no date, or the date |
| SvnInfoText.SucceedsWith | src/build_tools/autorevision/autorevision.cpp:422-460 | unfolding step: a parsed revision and a parsed date make a success that writes both |
| SvnInfoText.LegacySample | src/build_tools/autorevision/autorevision.cpp:410-460 | a typical legacy `svn info` reply gives revision "99" and date "2022-03-04 05:06:07" |
| SvnInfoText.SampleOutcome | src/build_tools/autorevision/autorevision.cpp:410-460 | the sample reply, split into revision line, date label, date and tail, parses to that revision and date |
| SvnInfoText.SampleRevision | src/build_tools/autorevision/autorevision.cpp:410-433 | the sample's revision line yields "99" |
| SvnInfoText.SampleDateLabel | src/build_tools/autorevision/autorevision.cpp:436 | the date label of the sample is found right after the revision line |
| SvnInfoText.SampleDate | src/build_tools/autorevision/autorevision.cpp:438-451 | the sample's date is cut at the space before the time zone |
| SvnInfoXml.SpaceForFirstT | src/build_tools/autorevision/autorevision.cpp:646-650 | replacing the first 'T' by a space keeps the length and every other character |
| SvnInfoXml.NormalisedDate | src/build_tools/autorevision/autorevision.cpp:645-655 | the rewritten date is never longer than the raw text, and is shorter exactly when the text holds a '.'; then it stops exactly at the last '.'. Each kept character is the raw one, except that the first 'T' becomes a space |
| SvnInfoXml.RewriteAt | src/build_tools/autorevision/autorevision.cpp:645-655 | unfolding step: with the first 'T' at `p` and the last '.' of the result at `q`, the date is the text with a space at `p`, cut at `q` |
| SvnInfoXml.DateRule | src/build_tools/autorevision/autorevision.cpp:645-655 | day + 'T' + time + '.' + fraction becomes day + ' ' + time when the day holds no 'T' and the fraction no '.' |
| SvnInfoXml.FirstTAfterDay | src/build_tools/autorevision/autorevision.cpp:646-650 | the first 'T' is the one after a 'T'-free day |
| SvnInfoXml.LastDotBeforeFraction | src/build_tools/autorevision/autorevision.cpp:651-655 | after the 'T' is replaced, the last '.' is the one before a '.'-free fraction |
| SvnInfoXml.SpacedPrefix | src/build_tools/autorevision/autorevision.cpp:645-655 | the text up to that '.' is day + ' ' + time |
| SvnInfoXml.CommitOutcome | src/build_tools/autorevision/autorevision.cpp:639-665 | unfolding step: a commit element with revision and date text succeeds and writes the revision and the rewritten date |
| SvnInfoXml.SvnXmlOutcome | src/build_tools/autorevision/autorevision.cpp:637-666 | reference definition of what `QuerySvn` writes and reports. `SvnXmlSuccessRule` and `XmlSample` state it |
| SvnInfoXml.QuerySvn | src/build_tools/autorevision/autorevision.cpp:637-666 | the commit lookup and in-place date rewrite yield `SvnXmlOutcome` |
| SvnInfoXml.SvnXmlSuccessRule | src/build_tools/autorevision/autorevision.cpp:620-681 | success exactly when the document parsed and has a commit element; it never crashes. A failure writes nothing. A success writes the revision attribute, or "" when it is missing, and writes a date exactly when the date element has text |
| SvnInfoXml.XmlSample | src/build_tools/autorevision/autorevision.cpp:641-655 | revision "42" with date "2023-05-06T07:08:09.123456Z" gives "42" and "2023-05-06 07:08:09" |
| SvnInfoXml.SampleParts | src/build_tools/autorevision/autorevision.cpp:645-655 | the sample date splits into day, time and fraction |
| SvnInfoXml.NoFractionKeepsZone | src/build_tools/autorevision/autorevision.cpp:651-655 | a date without '.' keeps its length and its trailing 'Z' |
| RevisionQuery.Plan | src/build_tools/autorevision/autorevision.cpp:203-214 | the strategies in their fixed order: both svn queries when svn is there, then git-svn when enabled. `PlanRuns` states what runs of it |
| RevisionQuery.Planned | src/build_tools/autorevision/autorevision.cpp:197-214 | the plan for the tools found and `--skip-git-svn` |
| RevisionQuery.Fallback | src/build_tools/autorevision/autorevision.cpp:190-214 | reference definition of the fallback from the defaults "0" and "unknown date". `FirstNonFailureWins`, `PlanRuns`, `UnwrittenValuesSurvive` and `FallbackOrder` state its meaning |
| RevisionQuery.TryInOrder | src/build_tools/autorevision/autorevision.cpp:203-217 | the reference fallback, over the outcomes of the three strategies, runs at most the planned strategies |
| RevisionQuery.DetermineRevision | src/build_tools/autorevision/autorevision.cpp:190-217 | the nested `if`s of `main` compute exactly the reference fallback over the available strategies, starting from "0" and "unknown date" |
| RevisionQuery.FirstNonFailureWins | src/build_tools/autorevision/autorevision.cpp:203-217 | the strategies run are a prefix of the plan, non-empty when the plan is. Every one but the last failed; the status is the last one's. The plan is cut short only by a result that is not a failure |
| RevisionQuery.RunPrefix | src/build_tools/autorevision/autorevision.cpp:203-217 | the strategies run are a prefix of the plan, non-empty when the plan is |
| RevisionQuery.EarlierFailed | src/build_tools/autorevision/autorevision.cpp:203-217 | every strategy run before the last one failed |
| RevisionQuery.LastDecides | src/build_tools/autorevision/autorevision.cpp:203-217 | the last strategy run gives the status; the plan stops early only on a result that is not a failure; running nothing is a failure |
| RevisionQuery.PlanRuns | src/build_tools/autorevision/autorevision.cpp:203-214 | which strategies run: git-svn alone without svn; otherwise the XML query alone when it does not fail, then the plain-text query, then git-svn only when both svn queries failed |
| RevisionQuery.UnwrittenValuesSurvive | src/build_tools/autorevision/autorevision.cpp:190-217 | a string that no strategy run wrote keeps its initial value; a changed string was written by a strategy that ran |
| RevisionQuery.FallbackOrder | src/build_tools/autorevision/autorevision.cpp:203-214 | the XML query runs exactly when svn exists. The plain-text query runs exactly when svn exists and the XML query failed. git-svn runs exactly when git exists, `--skip-git-svn` is absent, and every svn query that could run failed |
| RevisionQuery.XmlSuccessEndsSearch | src/build_tools/autorevision/autorevision.cpp:205-214 | an XML success is the only strategy run and the result succeeds |
| RevisionQuery.NoToolKeepsDefaults | src/build_tools/autorevision/autorevision.cpp:190-217 | with no usable tool, nothing runs and "0" and "unknown date" are handed on |
| RevisionQuery.PartialRevisionSurvives | src/build_tools/autorevision/autorevision.cpp:203-217 | a plain-text query that parses the revision but not the date hands that revision on with the default date when git-svn is not tried |
| CommandLine.Kind | src/build_tools/autorevision/autorevision.cpp:105-145 | what one argument is, in the order of the `if` chain. `KindNames` states which spellings give each kind |
| CommandLine.Step | src/build_tools/autorevision/autorevision.cpp:105-148 | the effect of one argument that neither asks for help nor is `--revision`. `StepFlags` and `StepSlots` state it |
| CommandLine.ScanArgs | src/build_tools/autorevision/autorevision.cpp:100-149 | reference definition of the argument loop, with `--revision` taking the next argument. `ScanCompletes`, `ScanFlags`, `ScanSlots`, `HelpWins`, `RevisionConsumesNext` and `TrailingRevisionFrom` state it |
| CommandLine.Finish | src/build_tools/autorevision/autorevision.cpp:151-161 | after the loop: no working directory is an error, the output file defaults to `autorevision.h`, `--debug` implies `-v` |
| CommandLine.Classify | src/build_tools/autorevision/autorevision.cpp:100-161 | reference definition of the command line's meaning. `CommandLineMeaning` states it by which arguments occur |
| CommandLine.Positionals | src/build_tools/autorevision/autorevision.cpp:141-148 | every positional candidate is a non-empty word that is no option |
| CommandLine.Kinds | src/build_tools/autorevision/autorevision.cpp:105-145 | the kinds of the arguments, one per argument, in order |
| CommandLine.ParseCommandLine | src/build_tools/autorevision/autorevision.cpp:100-161 | the argument loop and the checks after it compute exactly `Classify` |
| CommandLine.StepFlags | src/build_tools/autorevision/autorevision.cpp:105-125 | one argument sets exactly the flag of its kind and nothing else; it never changes the override |
| CommandLine.StepSlots | src/build_tools/autorevision/autorevision.cpp:141-148 | one word fills the first empty slot of working directory and output file, and is ignored when both are filled |
| CommandLine.ScanCompletes | src/build_tools/autorevision/autorevision.cpp:100-149 | without help or `--revision`, the loop runs to the end and leaves the override alone |
| CommandLine.ScanFlags | src/build_tools/autorevision/autorevision.cpp:105-125 | without help or `--revision`, each flag ends up set exactly when an argument of its kind occurs |
| CommandLine.ScanSlots | src/build_tools/autorevision/autorevision.cpp:141-148 | without help or `--revision`, the working directory and output file are the first two positional arguments, and later ones are ignored |
| CommandLine.KindNames | src/build_tools/autorevision/autorevision.cpp:105-125 | each flag kind corresponds exactly to its spelling(s) |
| CommandLine.KindsNames | src/build_tools/autorevision/autorevision.cpp:105-125 | a flag kind occurs among the arguments exactly when one of its spellings does |
| CommandLine.CommandLineMeaning | src/build_tools/autorevision/autorevision.cpp:100-161 | without help or `--revision`: no positional argument gives "no working directory". Otherwise every option is given by which flags occur: `--debug` implies verbose, the first two positionals are the working directory and the output file, and the output file defaults to `autorevision.h` |
| CommandLine.ClassifyByKinds | src/build_tools/autorevision/autorevision.cpp:100-161 | the same classification with each flag given by the kinds of the arguments |
| CommandLine.ScanByKinds | src/build_tools/autorevision/autorevision.cpp:100-149 | without help or `--revision`, the loop leaves each flag set by its kind, the first two positionals as working directory and output file, and no override |
| CommandLine.SlotsDetermine | src/build_tools/autorevision/autorevision.cpp:141-148 | slots filled with the first two non-empty positionals hold exactly those |
| CommandLine.HelpWins | src/build_tools/autorevision/autorevision.cpp:119-123 | `-h` or `--help` ends the loop with help, whatever follows, whenever the scan reaches it: the arguments before it do not end on a `--revision` that takes it as its value |
| CommandLine.RevisionConsumesNext | src/build_tools/autorevision/autorevision.cpp:126-129 | `--revision v` sets the override to `v`, whatever `v` looks like, and has no other effect on the scan |
| CommandLine.StepOverride | src/build_tools/autorevision/autorevision.cpp:105-148 | a one-argument step and setting the override commute |
| CommandLine.TrailingRevision | src/build_tools/autorevision/autorevision.cpp:126-129 | `--revision` as the last argument reads past the end of `argv` |
| CommandLine.TrailingRevisionFrom | src/build_tools/autorevision/autorevision.cpp:126-129 | from any options, a scan ending in `--revision` ends with a missing value |
| HeaderOutput.VersionTag | src/build_tools/autorevision/autorevision.cpp:696-705 | the one-line tag of revision, date and the four flags. `TagHasNoNewline` and `TagDeterminesInputs` state its meaning |
| HeaderOutput.Quoted | src/build_tools/autorevision/autorevision.cpp:753-762 | a string literal of the header, under `_T(...)` with `+t` |
| HeaderOutput.Opening | src/build_tools/autorevision/autorevision.cpp:734-751 | the guard, the includes, the namespace opening and the integer constant. `OpeningDeclares` states what it holds |
| HeaderOutput.Constants | src/build_tools/autorevision/autorevision.cpp:764-775 | the string constants and the namespace end. `ConstantsDeclare` states what it holds |
| HeaderOutput.HeaderText | src/build_tools/autorevision/autorevision.cpp:733-777 | the whole header text. `HeaderFirstLine`, `HeaderDeclares` and `NoFormatsNoDeclarations` state what it holds |
| HeaderOutput.WriteEffect | src/build_tools/autorevision/autorevision.cpp:706-731 | reference definition of the write-skip and the write. `WriteEffectMeaning`, `ChangedMeansWritten`, `WriteTwiceIsNoop` and `SkipIsSound` state its meaning |
| HeaderOutput.TagHasNoNewline | src/build_tools/autorevision/autorevision.cpp:696-705 | the tag is one line when revision and date are |
| HeaderOutput.FlagsHaveNoNewline | src/build_tools/autorevision/autorevision.cpp:700-705 | the flag fields of the tag hold no newline |
| HeaderOutput.HeaderFirstLine | src/build_tools/autorevision/autorevision.cpp:696-733 | when revision and date contain no newline, the tag is the first line of the header written after it |
| HeaderOutput.WriteOutput | src/build_tools/autorevision/autorevision.cpp:686-785 | comparing the first line, opening for writing and streaming compute exactly `WriteEffect` |
| HeaderOutput.QuoteBoth | src/build_tools/autorevision/autorevision.cpp:753-762 | revision and date become string literals, wrapped in `_T(...)` under `+t` |
| HeaderOutput.StreamOpening | src/build_tools/autorevision/autorevision.cpp:733-751 | streams the guard, the includes, the namespace opening and the integer constant |
| HeaderOutput.StreamConstants | src/build_tools/autorevision/autorevision.cpp:764-775 | streams the string constants and the namespace end |
| HeaderOutput.StreamHeader | src/build_tools/autorevision/autorevision.cpp:733-777 | the streamed text is exactly `HeaderText` |
| HeaderOutput.WriteEffectMeaning | src/build_tools/autorevision/autorevision.cpp:706-731 | only the output path can change. The write fails exactly when the file is not writable and its first line is not the tag; a failure changes nothing. On success the file exists, and starts with the tag when revision and date are one line |
| HeaderOutput.ChangedMeansWritten | src/build_tools/autorevision/autorevision.cpp:724-777 | a write that changes the store leaves exactly the new header at the output path |
| HeaderOutput.WriteTwiceIsNoop | src/build_tools/autorevision/autorevision.cpp:706-722 | when revision and date contain no newline: after a successful write, writing the same inputs again succeeds and changes nothing, writable or not |
| HeaderOutput.FieldInjective | src/build_tools/autorevision/autorevision.cpp:697-705 | a `key:value;` field with a ';'-free value determines that value and the rest |
| HeaderOutput.FlagsInjective | src/build_tools/autorevision/autorevision.cpp:700-705 | the flag fields of the tag determine the four flags |
| HeaderOutput.TagDeterminesInputs | src/build_tools/autorevision/autorevision.cpp:696-705 | when revision and date hold no ';', equal tags come from equal revisions, dates and flags |
| HeaderOutput.SkipIsSound | src/build_tools/autorevision/autorevision.cpp:706-722 | when the existing file is a header this tool wrote, and no revision or date involved contains a newline or a ';': after a successful call the file holds exactly the header a rewrite would produce |
| HeaderOutput.NewlineDefeatsSkip | src/build_tools/autorevision/autorevision.cpp:696-731 | with a newline in the revision or the date, the first line read back never equals the tag: every write rewrites the file, and fails when it is not writable, even right after writing the same header |
| HeaderOutput.TagSwap | src/build_tools/autorevision/autorevision.cpp:696-705 | revision `r;date:x` with date `d` gives the same tag as revision `r` with date `x;date:d` |
| HeaderOutput.SwapFields | src/build_tools/autorevision/autorevision.cpp:696-705 | the regrouping of texts behind `TagSwap` |
| HeaderOutput.SemicolonDefeatsSkip | src/build_tools/autorevision/autorevision.cpp:696-731 | under `+int` alone, a header written for revision `r;date:x` and date `d` is kept by a run for revision `r` and date `x;date:d`, though it differs from the header that run would write |
| HeaderOutput.OpeningDeclares | src/build_tools/autorevision/autorevision.cpp:740-751 | the opening part includes `<string>` under `+std` and `<wx/string.h>` under `+wx`, declares the integer constant under `+int`, and opens the namespace under any format |
| HeaderOutput.ConstantsDeclare | src/build_tools/autorevision/autorevision.cpp:764-772 | the constants part declares the `std::string` constants under `+std` and the `wxString` constants under `+wx` |
| HeaderOutput.HeaderDeclares | src/build_tools/autorevision/autorevision.cpp:740-777 | the header includes `<string>` under `+std` and `<wx/string.h>` under `+wx`, declares the unquoted integer constant under `+int`, and opens the `autorevision` namespace under any format. `+std` and `+wx` give constants with the quoted revision. The `std::string` date constant holds the quoted revision; the `wxString` one holds the quoted date |
| HeaderOutput.OpeningInHeader | src/build_tools/autorevision/autorevision.cpp:733-777 | text in the opening part is in the header |
| HeaderOutput.ConstantsInHeader | src/build_tools/autorevision/autorevision.cpp:733-777 | text in the string-constant part is in the header |
| HeaderOutput.NoFormatsNoDeclarations | src/build_tools/autorevision/autorevision.cpp:740-777 | with no format flag, the header is the tag followed by the include guard only |
| Autorevision.EffectiveRevision | src/build_tools/autorevision/autorevision.cpp:219-220 | the override when one was given, else what the queries left |
| Autorevision.RunSpec | src/build_tools/autorevision/autorevision.cpp:86-243 | reference definition of a run from the classified command line. The lemmas below state its meaning |
| Autorevision.AfterQueries | src/build_tools/autorevision/autorevision.cpp:219-243 | what follows the queries: termination after a crash, the format check, and the write |
| Autorevision.Run | src/build_tools/autorevision/autorevision.cpp:85-244 | `main` computes exactly `RunSpec` of the classified arguments: the exit code and the resulting file store |
| Autorevision.RunChangesOnlyOutput | src/build_tools/autorevision/autorevision.cpp:219-243 | a run changes the store only when it exits with 0, and only at the output file |
| Autorevision.SuccessMeansUpToDate | src/build_tools/autorevision/autorevision.cpp:222-243 | exit code 0 means: no crash, a format was chosen, and the output file exists. It starts with the tag of the effective revision, the date and the flags when those are one line |
| Autorevision.RunTwiceIsNoop | src/build_tools/autorevision/autorevision.cpp:190-243 | when the effective revision and the date contain no newline: after a successful run, the same run on the same repository state gives the same result and store, writable or not |
| Autorevision.NoFormatNoWrite | src/build_tools/autorevision/autorevision.cpp:222-227 | without `+int`, `+std` or `+wx`, nothing is written. The exit is `EXIT_FAILURE`, unless a query crashed first |
| Autorevision.HelpReturnsOne | src/build_tools/autorevision/autorevision.cpp:119-123 | a help request that the argument loop reaches exits with 1 and changes nothing |
| Autorevision.WrittenHeader | src/build_tools/autorevision/autorevision.cpp:219-243 | a changed file holds the header for the override (when one was given) or the queried revision, and for the queried date, which the override never replaces |

## Left out

- HeaderDeclares: states that each `#include` and declaration is present under its flag, not that it is absent without it; that direction holds by the definition of `HeaderText`, which writes each of them only under its flag (lines 740-775), but no lemma proves that a header lacks a text.
- Running commands: spawning with `popen`, reading with `fread`, and the `feof`, `pclose`, `WIFEXITED` and `WEXITSTATUS` checks (lines 248-309, 376-408, 499-531) are not modelled. Every way they fail is the reply `NoText` or `NoReply`.
- The 16 KiB capture buffer: `QuerySvn` reads its reply through `SendQueryViaPipeStream` (lines 248-274), which keeps the first 16384 characters of a longer reply and reports no error; that truncation is not modelled. `QueryGitSvn` and `QuerySvnOldStyle` fail when `fread` stops before the end of the reply (lines 382-392 and 505-515), which is the reply `NoText`. Each reply is taken as already captured and shorter than the buffer.
- `CheckSvnExists` and `CheckGitExists` (lines 313-363) run `--version`. They become the booleans `svnExists` and `gitExists`.
- XML parsing by TinyXML: a reply is `Malformed`, or `Parsed` with the `info/entry/commit` element already looked up (a `Commit` value, or none).
- Console output: warnings, progress messages, `--verbose` and `--debug` diagnostics, and the help screen (lines 56-82). Only the flags are kept.
- Setting `LC_ALL` or the C locale (lines 87-93) is not modelled; replies are taken to be in English.
- Files: the store is a map from path to text. A file that exists but cannot be read is treated as absent. A partially failing write, or a write without `close`, is not modelled.
- Characters compare as unsigned code points. On platforms where `char` is signed, bytes at or above 0x80 compare below '0' in the revision scan.
- `EXIT_FAILURE` is taken to be 1, as on the platforms the tool is built for.
- `--revision` as the last argument passes a null pointer to `std::string::assign`, which is undefined behaviour. It is modelled as process termination, like the uncaught `std::out_of_range`.
- NUL characters inside a reply: `std::string output(buf, char_count)` keeps them, and the model treats them like any other character below '0'.
