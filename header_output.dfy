/**
 * `WriteOutput` (lines 686-785): the one-line version tag that records the
 * inputs of a header, the header text itself, and the rule that leaves an
 * existing header alone when its first line is already the tag.  The file
 * system is a map from path to content.
 */
module HeaderOutput {
  import opened Strings
  import opened CommandLine

  /** `std::boolalpha` output. */
  function BoolText(b: bool): string
  {
    if b then "true" else "false"
  }

  /**
   * The version tag: `key:value` fields separated by ';' between comment
   * markers, in the order revision, date, do_int, do_std, do_translate, do_wx.
   */
  function VersionTag(revision: string, date: string, f: Formats): string
  {
    "/* " + RevisionTagField(revision, date, f)
  }

  function RevisionTagField(revision: string, date: string, f: Formats): string
  {
    "revision:" + revision + ";" + DateField(date, f)
  }

  function DateField(date: string, f: Formats): string
  {
    "date:" + date + ";" + IntField(f)
  }

  function IntField(f: Formats): string
  {
    "do_int:" + BoolText(f.doInt) + ";" + StdField(f)
  }

  function StdField(f: Formats): string
  {
    "do_std:" + BoolText(f.doStd) + ";" + TranslateField(f)
  }

  function TranslateField(f: Formats): string
  {
    "do_translate:" + BoolText(f.doTranslate) + ";" + WxField(f)
  }

  function WxField(f: Formats): string
  {
    "do_wx:" + BoolText(f.doWx) + " */"
  }

  /** A string literal in the header, wrapped in `_T(...)` under `+t`. */
  function Quoted(x: string, translate: bool): string
  {
    if translate then "_T(\"" + x + "\")" else "\"" + x + "\""
  }

  const Preamble := "// Don't include this header, only configmanager-revision.cpp should do this.\n"
    + "#ifndef AUTOREVISION_H\n" + "#define AUTOREVISION_H\n" + "\n" + "\n"

  const Epilogue := "\n\n" + "#endif // AUTOREVISION_H\n"

  function IntLine(revision: string): string
  {
    "\tconst unsigned int svn_revision = " + revision + ";\n"
  }

  function StdRevisionLine(quoted: string): string
  {
    "\t const std::string svn_revision_s(" + quoted + ");\n"
  }

  function WxRevisionLine(quoted: string): string
  {
    "\tconst wxString svnRevision(" + quoted + ");\n"
  }

  function StdDateLine(quoted: string): string
  {
    "\tconst std::string svn_date_s(" + quoted + ");\n"
  }

  function WxDateLine(quoted: string): string
  {
    "\tconst wxString svnDate(" + quoted + ");\n"
  }

  function If(b: bool, text: string): string
  {
    if b then text else ""
  }

  /** The header: the tag line, then the body. */
  function HeaderText(revision: string, date: string, f: Formats): string
  {
    VersionTag(revision, date, f) + "\n" + HeaderBody(revision, date, f)
  }

  /** Everything after the tag line, in the order it is streamed. */
  function HeaderBody(revision: string, date: string, f: Formats): string
  {
    Opening(revision, f) + Constants(Quoted(revision, f.doTranslate), Quoted(date, f.doTranslate), f) + Epilogue
  }

  /** The guard, the includes, the opening of the namespace and the integer constant. */
  function Opening(revision: string, f: Formats): string
  {
    Preamble
    + If(f.doStd, "#include <string>\n")
    + If(f.doWx, "#include <wx/string.h>\n")
    + If(AnyFormat(f), "\n" + "namespace autorevision\n" + "{\n")
    + If(f.doInt, IntLine(revision))
  }

  /** The string constants, written with the quoted revision and date, and the end of the namespace. */
  function Constants(quotedRevision: string, quotedDate: string, f: Formats): string
  {
    If(f.doStd, StdRevisionLine(quotedRevision))
    + If(f.doWx, WxRevisionLine(quotedRevision))
    + If(f.doStd, StdDateLine(quotedRevision))
    + If(f.doWx, WxDateLine(quotedDate))
    + If(AnyFormat(f), "}\n\n")
  }

  datatype Written = Written(ok: bool, files: map<string, string>)

  /**
   * The effect of `WriteOutput` on the file store: a file whose first line is
   * already the tag is kept; otherwise the file is (re)written, unless it
   * cannot be opened for writing.
   */
  function WriteEffect(files: map<string, string>, path: string, writable: bool,
                       revision: string, date: string, f: Formats): Written
  {
    if path in files && FirstLine(files[path]) == VersionTag(revision, date, f) then Written(true, files)
    else if !writable then Written(false, files)
    else Written(true, files[path := HeaderText(revision, date, f)])
  }

  /**
   * Lines 686-785 of the source: compare the first line of the existing file
   * with the tag, then open the file for writing and stream the header.
   */
  method WriteOutput(files: map<string, string>, path: string, writable: bool,
                     revision: string, date: string, f: Formats) returns (w: Written)
    ensures w == WriteEffect(files, path, writable, revision, date, f)
  {
    var tag := VersionTag(revision, date, f);
    if path in files {
      var oldTag := FirstLine(files[path]);
      if oldTag == tag {
        return Written(true, files);
      }
    }
    if !writable {
      return Written(false, files);
    }
    var text := StreamHeader(revision, date, f);
    return Written(true, files[path := text]);
  }

  /** Lines 753-762: `revision` and `date` become string literals, under `_T` for `+t`. */
  method QuoteBoth(revision: string, date: string, translate: bool) returns (revision': string, date': string)
    ensures revision' == Quoted(revision, translate) && date' == Quoted(date, translate)
  {
    revision', date' := revision, date;
    if translate {
      revision' := "_T(\"" + revision' + "\")";
      date' := "_T(\"" + date' + "\")";
    } else {
      revision' := "\"" + revision' + "\"";
      date' := "\"" + date' + "\"";
    }
  }

  /** Lines 739-751: the lines before the quoting. */
  method StreamOpening(out: string, revision: string, f: Formats) returns (out': string)
    ensures out' == out + Opening(revision, f)
  {
    out' := out + Preamble;
    ghost var part := Preamble;
    if f.doStd {
      out' := out' + "#include <string>\n";
    }
    AppendAssoc(out, part, If(f.doStd, "#include <string>\n"));
    part := part + If(f.doStd, "#include <string>\n");
    assert out' == out + part;
    if f.doWx {
      out' := out' + "#include <wx/string.h>\n";
    }
    AppendAssoc(out, part, If(f.doWx, "#include <wx/string.h>\n"));
    part := part + If(f.doWx, "#include <wx/string.h>\n");
    assert out' == out + part;
    if f.doInt || f.doStd || f.doWx {
      out' := out' + ("\n" + "namespace autorevision\n" + "{\n");
    }
    AppendAssoc(out, part, If(AnyFormat(f), "\n" + "namespace autorevision\n" + "{\n"));
    part := part + If(AnyFormat(f), "\n" + "namespace autorevision\n" + "{\n");
    assert out' == out + part;
    if f.doInt {
      out' := out' + IntLine(revision);
    }
    AppendAssoc(out, part, If(f.doInt, IntLine(revision)));
  }

  /** Lines 764-777: the lines after the quoting, `svn_date_s` taking the revision as written. */
  method StreamConstants(out: string, revision: string, date: string, f: Formats) returns (out': string)
    ensures out' == out + Constants(revision, date, f)
  {
    out' := out;
    ghost var part: string := [];
    if f.doStd {
      out' := out' + StdRevisionLine(revision);
    }
    AppendAssoc(out, part, If(f.doStd, StdRevisionLine(revision)));
    part := part + If(f.doStd, StdRevisionLine(revision));
    assert out' == out + part;
    if f.doWx {
      out' := out' + WxRevisionLine(revision);
    }
    AppendAssoc(out, part, If(f.doWx, WxRevisionLine(revision)));
    part := part + If(f.doWx, WxRevisionLine(revision));
    assert out' == out + part;
    if f.doStd {
      out' := out' + StdDateLine(revision);
    }
    AppendAssoc(out, part, If(f.doStd, StdDateLine(revision)));
    part := part + If(f.doStd, StdDateLine(revision));
    assert out' == out + part;
    if f.doWx {
      out' := out' + WxDateLine(date);
    }
    AppendAssoc(out, part, If(f.doWx, WxDateLine(date)));
    part := part + If(f.doWx, WxDateLine(date));
    assert out' == out + part;
    if f.doInt || f.doStd || f.doWx {
      out' := out' + "}\n\n";
    }
    AppendAssoc(out, part, If(AnyFormat(f), "}\n\n"));
    part := part + If(AnyFormat(f), "}\n\n");
    assert out' == out + part;
    assert [] + StdRevisionLine(revision) == StdRevisionLine(revision);
    assert part == Constants(revision, date, f);
  }

  /**
   * The writes into the opened header file (lines 733-777): the tag line,
   * the opening lines, then `revision` and `date` replaced by their quoted
   * forms, the constants and the end of the guard.
   */
  method StreamHeader(revision: string, date: string, f: Formats) returns (out: string)
    ensures out == HeaderText(revision, date, f)
  {
    var head := VersionTag(revision, date, f) + "\n";
    out := StreamOpening(head, revision, f);
    var rev, dt := QuoteBoth(revision, date, f.doTranslate);
    out := StreamConstants(out, rev, dt, f);
    out := out + Epilogue;
    AppendAssoc(head, Opening(revision, f), Constants(rev, dt, f));
    AppendAssoc(head, Opening(revision, f) + Constants(rev, dt, f), Epilogue);
  }

  lemma TagHasNoNewline(revision: string, date: string, f: Formats)
    requires '\n' !in revision && '\n' !in date
    ensures '\n' !in VersionTag(revision, date, f)
  {
    FlagsHaveNoNewline(f);
    NoNewlineConcat("date:" + date + ";", IntField(f));
    NoNewlineConcat("revision:" + revision + ";", DateField(date, f));
    NoNewlineConcat("/* ", RevisionTagField(revision, date, f));
  }

  lemma NoNewlineConcat(a: string, b: string)
    requires '\n' !in a && '\n' !in b
    ensures '\n' !in a + b
  {
    assert forall j :: 0 <= j < |a + b| ==> (a + b)[j] == if j < |a| then a[j] else b[j - |a|];
  }

  lemma FlagsHaveNoNewline(f: Formats)
    ensures '\n' !in IntField(f)
  {
    NoNewlineConcat("do_wx:" + BoolText(f.doWx), " */");
    NoNewlineConcat("do_translate:" + BoolText(f.doTranslate) + ";", WxField(f));
    NoNewlineConcat("do_std:" + BoolText(f.doStd) + ";", TranslateField(f));
    NoNewlineConcat("do_int:" + BoolText(f.doInt) + ";", StdField(f));
  }

  /** The tag is the first line of the header it heads. */
  lemma HeaderFirstLine(revision: string, date: string, f: Formats)
    requires '\n' !in revision && '\n' !in date
    ensures FirstLine(HeaderText(revision, date, f)) == VersionTag(revision, date, f)
  {
    TagHasNoNewline(revision, date, f);
    FirstLineOf(VersionTag(revision, date, f), HeaderBody(revision, date, f));
  }

  /**
   * What a write does: only `path` can change; on failure nothing changes and
   * the file could not be opened; on success the file starts with the tag.
   */
  lemma WriteEffectMeaning(files: map<string, string>, path: string, writable: bool,
                           revision: string, date: string, f: Formats)
    ensures var w := WriteEffect(files, path, writable, revision, date, f);
      && (forall p :: p != path ==> (p in w.files <==> p in files))
      && (forall p :: p != path && p in files ==> w.files[p] == files[p])
      && (!w.ok <==> !writable && !(path in files && FirstLine(files[path]) == VersionTag(revision, date, f)))
      && (!w.ok ==> w.files == files)
      && (w.ok ==> path in w.files)
      && ('\n' !in revision && '\n' !in date && w.ok ==> FirstLine(w.files[path]) == VersionTag(revision, date, f))
  {
    var tag := VersionTag(revision, date, f);
    var w := WriteEffect(files, path, writable, revision, date, f);
    if path in files && FirstLine(files[path]) == tag {
      assert w == Written(true, files);
    } else if !writable {
      assert w == Written(false, files);
    } else {
      assert w == Written(true, files[path := HeaderText(revision, date, f)]);
      if '\n' !in revision && '\n' !in date {
        HeaderFirstLine(revision, date, f);
      }
    }
  }

  /** A write that changes the store leaves the new header at `path`. */
  lemma ChangedMeansWritten(files: map<string, string>, path: string, writable: bool,
                            revision: string, date: string, f: Formats)
    requires WriteEffect(files, path, writable, revision, date, f).files != files
    ensures WriteEffect(files, path, writable, revision, date, f).files == files[path := HeaderText(revision, date, f)]
  {
    var tag := VersionTag(revision, date, f);
    assert !(path in files && FirstLine(files[path]) == tag);
  }

  /**
   * Writing the same header twice: the second run finds the tag on the first
   * line and changes nothing, whether or not the file is writable then.
   */
  lemma WriteTwiceIsNoop(files: map<string, string>, path: string, writable: bool, writable2: bool,
                         revision: string, date: string, f: Formats)
    requires '\n' !in revision && '\n' !in date
    ensures var w := WriteEffect(files, path, writable, revision, date, f);
      w.ok ==> WriteEffect(w.files, path, writable2, revision, date, f) == Written(true, w.files)
  {
    WriteEffectMeaning(files, path, writable, revision, date, f);
  }

  lemma StripPrefix(p: string, s1: string, s2: string)
    requires p + s1 == p + s2
    ensures s1 == s2
  {
    assert (p + s1)[|p|..] == s1;
    assert (p + s2)[|p|..] == s2;
  }

  lemma StripSuffix(s1: string, s2: string, q: string)
    requires s1 + q == s2 + q
    ensures s1 == s2
  {
    assert (s1 + q)[..|s1|] == s1;
    assert (s2 + q)[..|s2|] == s2;
  }

  /** Two texts that agree up to a separator absent from both heads agree on their heads. */
  lemma SplitAtSeparator(c: char, a1: string, b1: string, a2: string, b2: string)
    requires a1 + [c] + b1 == a2 + [c] + b2
    requires c !in a1 && c !in a2
    ensures a1 == a2 && b1 == b2
  {
    var s := a1 + [c] + b1;
    assert forall j :: 0 <= j < |a1| ==> s[j] == a1[j];
    assert forall j :: 0 <= j < |a2| ==> s[j] == a2[j];
    FindCharIsFirst(s, c, 0, |a1|);
    FindCharIsFirst(s, c, 0, |a2|);
    assert s[..|a1|] == a1;
    assert (a2 + [c] + b2)[..|a2|] == a2;
    assert s[|a1| + 1..] == b1;
    assert (a2 + [c] + b2)[|a2| + 1..] == b2;
  }

  lemma BoolTextInjective(a: bool, b: bool)
    requires BoolText(a) == BoolText(b)
    ensures a == b
  {
  }

  /** One `key:value;rest` field: a value without ';' is recovered, and so is the rest. */
  lemma FieldInjective(key: string, v1: string, rest1: string, v2: string, rest2: string)
    requires key + v1 + ";" + rest1 == key + v2 + ";" + rest2
    requires ';' !in v1 && ';' !in v2
    ensures v1 == v2 && rest1 == rest2
  {
    assert key + v1 + ";" + rest1 == key + (v1 + [';'] + rest1);
    assert key + v2 + ";" + rest2 == key + (v2 + [';'] + rest2);
    StripPrefix(key, v1 + [';'] + rest1, v2 + [';'] + rest2);
    SplitAtSeparator(';', v1, rest1, v2, rest2);
  }

  lemma FlagsInjective(f1: Formats, f2: Formats)
    requires IntField(f1) == IntField(f2)
    ensures f1 == f2
  {
    FieldInjective("do_int:", BoolText(f1.doInt), StdField(f1), BoolText(f2.doInt), StdField(f2));
    BoolTextInjective(f1.doInt, f2.doInt);
    FieldInjective("do_std:", BoolText(f1.doStd), TranslateField(f1), BoolText(f2.doStd), TranslateField(f2));
    BoolTextInjective(f1.doStd, f2.doStd);
    FieldInjective("do_translate:", BoolText(f1.doTranslate), WxField(f1), BoolText(f2.doTranslate), WxField(f2));
    BoolTextInjective(f1.doTranslate, f2.doTranslate);
    assert WxField(f1) == "do_wx:" + (BoolText(f1.doWx) + " */");
    assert WxField(f2) == "do_wx:" + (BoolText(f2.doWx) + " */");
    StripPrefix("do_wx:", BoolText(f1.doWx) + " */", BoolText(f2.doWx) + " */");
    StripSuffix(BoolText(f1.doWx), BoolText(f2.doWx), " */");
    BoolTextInjective(f1.doWx, f2.doWx);
  }

  /**
   * The tag records its inputs: when neither revision nor date holds a ';',
   * equal tags come from equal revisions, dates and flags.
   */
  lemma TagDeterminesInputs(r1: string, d1: string, f1: Formats, r2: string, d2: string, f2: Formats)
    requires ';' !in r1 && ';' !in d1 && ';' !in r2 && ';' !in d2
    requires VersionTag(r1, d1, f1) == VersionTag(r2, d2, f2)
    ensures r1 == r2 && d1 == d2 && f1 == f2
  {
    StripPrefix("/* ", RevisionTagField(r1, d1, f1), RevisionTagField(r2, d2, f2));
    FieldInjective("revision:", r1, DateField(d1, f1), r2, DateField(d2, f2));
    FieldInjective("date:", d1, IntField(f1), d2, IntField(f2));
    FlagsInjective(f1, f2);
  }

  /**
   * The skip is safe: when the existing file is a header this program wrote,
   * keeping it because its first line matches leaves exactly the header a
   * rewrite would produce.
   */
  lemma SkipIsSound(files: map<string, string>, path: string, writable: bool,
                    r0: string, d0: string, f0: Formats, revision: string, date: string, f: Formats)
    requires '\n' !in r0 && '\n' !in d0 && ';' !in r0 && ';' !in d0
    requires ';' !in revision && ';' !in date
    requires path in files && files[path] == HeaderText(r0, d0, f0)
    ensures var w := WriteEffect(files, path, writable, revision, date, f);
      w.ok ==> w.files[path] == HeaderText(revision, date, f)
  {
    HeaderFirstLine(r0, d0, f0);
    if FirstLine(files[path]) == VersionTag(revision, date, f) {
      TagDeterminesInputs(r0, d0, f0, revision, date, f);
    }
  }

  /**
   * A newline in the revision or the date defeats the skip: the first line
   * read back stops at the newline, so it never equals the tag. Every run
   * rewrites the file, and fails when the file is not writable, even right
   * after a successful write of the same header.
   */
  lemma NewlineDefeatsSkip(files: map<string, string>, path: string, revision: string, date: string, f: Formats)
    requires '\n' in revision || '\n' in date
    ensures WriteEffect(files, path, false, revision, date, f) == Written(false, files)
    ensures WriteEffect(files, path, true, revision, date, f) == Written(true, files[path := HeaderText(revision, date, f)])
  {
    var tag := VersionTag(revision, date, f);
    if '\n' in date {
      assert '\n' in "date:" + date;
      assert '\n' in DateField(date, f);
    }
    assert '\n' in "revision:" + revision + ";" + DateField(date, f);
    assert '\n' in tag;
    if path in files {
      assert FirstLine(files[path]) != tag;
    }
  }

  /** Moving `;date:x` from the end of the revision to the start of the date keeps the tag. */
  lemma TagSwap(r: string, x: string, d: string, f: Formats)
    ensures VersionTag(r + ";date:" + x, d, f) == VersionTag(r, x + ";date:" + d, f)
  {
    assert ";date:" == ";" + "date:";
    SwapFields("/* ", "revision:", r, ";date:", x, ";", "date:", d, IntField(f));
  }

  /** The regrouping behind `TagSwap`, over any texts, when `l` is `s + k`. */
  lemma SwapFields(a: string, b: string, r: string, l: string, x: string, s: string, k: string, d: string, i: string)
    requires l == s + k
    ensures a + (b + (r + l + x) + s + (k + d + s + i)) == a + (b + r + s + (k + (x + l + d) + s + i))
  {
    calc {
      b + (r + l + x) + s + (k + d + s + i);
      b + r + (s + k) + x + (s + k) + d + s + i;
      b + r + s + (k + (x + l + d) + s + i);
    }
  }

  /**
   * A ';' in the values defeats the check the skip relies on: a header
   * written for revision `r;date:x` and date `d` has the tag of revision
   * `r` and date `x;date:d`, so a run for the latter keeps it, although it
   * is not the header that run would write.
   */
  lemma SemicolonDefeatsSkip(path: string, writable: bool, r: string, x: string, d: string, f: Formats)
    requires '\n' !in r && '\n' !in x && '\n' !in d
    requires f.doInt && !f.doStd && !f.doWx
    ensures var h := HeaderText(r + ";date:" + x, d, f);
      && WriteEffect(map[path := h], path, writable, r, x + ";date:" + d, f) == Written(true, map[path := h])
      && h != HeaderText(r, x + ";date:" + d, f)
  {
    var r1, d2 := r + ";date:" + x, x + ";date:" + d;
    assert '\n' !in r1 && '\n' !in d2;
    HeaderFirstLine(r1, d, f);
    TagSwap(r, x, d, f);
    assert |Opening(r1, f)| > |Opening(r, f)|;
    assert |Constants(Quoted(r1, f.doTranslate), Quoted(d, f.doTranslate), f)|
        == |Constants(Quoted(r, f.doTranslate), Quoted(d2, f.doTranslate), f)|;
    assert |HeaderText(r1, d, f)| != |HeaderText(r, d2, f)|;
  }

  /** The includes and declarations in the opening part, one per flag. */
  lemma OpeningDeclares(revision: string, f: Formats)
    ensures f.doStd ==> Contains(Opening(revision, f), "#include <string>\n")
    ensures f.doWx ==> Contains(Opening(revision, f), "#include <wx/string.h>\n")
    ensures f.doInt ==> Contains(Opening(revision, f), IntLine(revision))
    ensures AnyFormat(f) ==> Contains(Opening(revision, f), "\n" + "namespace autorevision\n" + "{\n")
  {
    var ns := "\n" + "namespace autorevision\n" + "{\n";
    var a1 := If(f.doStd, "#include <string>\n");
    var a2 := If(f.doWx, "#include <wx/string.h>\n");
    var a3 := If(AnyFormat(f), ns);
    var a4 := If(f.doInt, IntLine(revision));
    assert Opening(revision, f) == Preamble + a1 + a2 + a3 + a4;
    forall t | Contains(Preamble + a1 + a2 + a3, t)
      ensures Contains(Preamble + a1 + a2 + a3 + a4, t)
    {
      ContainsAppend(Preamble + a1 + a2 + a3, a4, t);
    }
    forall t | Contains(Preamble + a1 + a2, t)
      ensures Contains(Preamble + a1 + a2 + a3, t)
    {
      ContainsAppend(Preamble + a1 + a2, a3, t);
    }
    if f.doStd {
      ContainsSelf(a1);
      ContainsPrepend(Preamble, a1, a1);
      ContainsAppend(Preamble + a1, a2, a1);
    }
    if f.doWx {
      ContainsSelf(a2);
      ContainsPrepend(Preamble + a1, a2, a2);
    }
    if AnyFormat(f) {
      ContainsSelf(a3);
      ContainsPrepend(Preamble + a1 + a2, a3, a3);
    }
    if f.doInt {
      ContainsSelf(a4);
      ContainsPrepend(Preamble + a1 + a2 + a3, a4, a4);
    }
  }

  /** The string constants, one per flag; the date constant of `+std` holds the revision. */
  lemma ConstantsDeclare(qr: string, qd: string, f: Formats)
    ensures f.doStd ==> Contains(Constants(qr, qd, f), StdRevisionLine(qr))
    ensures f.doStd ==> Contains(Constants(qr, qd, f), StdDateLine(qr))
    ensures f.doWx ==> Contains(Constants(qr, qd, f), WxRevisionLine(qr))
    ensures f.doWx ==> Contains(Constants(qr, qd, f), WxDateLine(qd))
  {
    var a1 := If(f.doStd, StdRevisionLine(qr));
    var a2 := If(f.doWx, WxRevisionLine(qr));
    var a3 := If(f.doStd, StdDateLine(qr));
    var a4 := If(f.doWx, WxDateLine(qd));
    var a5 := If(AnyFormat(f), "}\n\n");
    assert Constants(qr, qd, f) == a1 + a2 + a3 + a4 + a5;
    ContainsSelf(a1);
    ContainsSelf(a2);
    ContainsSelf(a3);
    ContainsSelf(a4);
    ContainsAppend(a1, a2, a1);
    ContainsPrepend(a1, a2, a2);
    forall t | Contains(a1 + a2, t)
      ensures Contains(a1 + a2 + a3 + a4 + a5, t)
    {
      ContainsAppend(a1 + a2, a3, t);
      ContainsAppend(a1 + a2 + a3, a4, t);
      ContainsAppend(a1 + a2 + a3 + a4, a5, t);
    }
    ContainsPrepend(a1 + a2, a3, a3);
    ContainsAppend(a1 + a2 + a3, a4, a3);
    ContainsAppend(a1 + a2 + a3 + a4, a5, a3);
    ContainsPrepend(a1 + a2 + a3, a4, a4);
    ContainsAppend(a1 + a2 + a3 + a4, a5, a4);
  }

  /**
   * What the header declares: `+std` includes `<string>` and `+wx`
   * `<wx/string.h>`; `+int` gives an unquoted integer constant, `+std`
   * and `+wx` string constants with the quoted revision (so the
   * `std::string` date constant holds the revision, and only the `wxString`
   * one the date), and any of the three the `autorevision` namespace.
   */
  lemma HeaderDeclares(revision: string, date: string, f: Formats)
    ensures var h := HeaderText(revision, date, f);
      var qr := Quoted(revision, f.doTranslate);
      var qd := Quoted(date, f.doTranslate);
      && (f.doStd ==> Contains(h, "#include <string>\n"))
      && (f.doWx ==> Contains(h, "#include <wx/string.h>\n"))
      && (f.doInt ==> Contains(h, IntLine(revision)))
      && (AnyFormat(f) ==> Contains(h, "\n" + "namespace autorevision\n" + "{\n"))
      && (f.doStd ==> Contains(h, StdRevisionLine(qr)) && Contains(h, StdDateLine(qr)))
      && (f.doWx ==> Contains(h, WxRevisionLine(qr)) && Contains(h, WxDateLine(qd)))
  {
    var qr := Quoted(revision, f.doTranslate);
    var qd := Quoted(date, f.doTranslate);
    OpeningDeclares(revision, f);
    ConstantsDeclare(qr, qd, f);
    if f.doStd {
      OpeningInHeader(revision, date, f, "#include <string>\n");
      ConstantsInHeader(revision, date, f, StdRevisionLine(qr));
      ConstantsInHeader(revision, date, f, StdDateLine(qr));
    }
    if f.doWx {
      OpeningInHeader(revision, date, f, "#include <wx/string.h>\n");
      ConstantsInHeader(revision, date, f, WxRevisionLine(qr));
      ConstantsInHeader(revision, date, f, WxDateLine(qd));
    }
    if f.doInt {
      OpeningInHeader(revision, date, f, IntLine(revision));
    }
    if AnyFormat(f) {
      OpeningInHeader(revision, date, f, "\n" + "namespace autorevision\n" + "{\n");
    }
  }

  /** Text in the opening part is in the header. */
  lemma OpeningInHeader(revision: string, date: string, f: Formats, t: string)
    requires Contains(Opening(revision, f), t)
    ensures Contains(HeaderText(revision, date, f), t)
  {
    var head := VersionTag(revision, date, f) + "\n";
    var o := Opening(revision, f);
    var c := Constants(Quoted(revision, f.doTranslate), Quoted(date, f.doTranslate), f);
    AppendAssoc(head, o + c, Epilogue);
    AppendAssoc(head, o, c);
    ContainsPrepend(head, o, t);
    ContainsAppend(head + o, c, t);
    ContainsAppend(head + o + c, Epilogue, t);
  }

  /** Text in the constants part is in the header. */
  lemma ConstantsInHeader(revision: string, date: string, f: Formats, t: string)
    requires Contains(Constants(Quoted(revision, f.doTranslate), Quoted(date, f.doTranslate), f), t)
    ensures Contains(HeaderText(revision, date, f), t)
  {
    var head := VersionTag(revision, date, f) + "\n";
    var o := Opening(revision, f);
    var c := Constants(Quoted(revision, f.doTranslate), Quoted(date, f.doTranslate), f);
    AppendAssoc(head, o + c, Epilogue);
    AppendAssoc(head, o, c);
    ContainsPrepend(head + o, c, t);
    ContainsAppend(head + o + c, Epilogue, t);
  }

  /** Without a format flag the header is only the tag and the include guard. */
  lemma NoFormatsNoDeclarations(revision: string, date: string, f: Formats)
    requires !AnyFormat(f)
    ensures HeaderText(revision, date, f) == VersionTag(revision, date, f) + "\n" + (Preamble + Epilogue)
  {
    var pre := Preamble;
    assert Opening(revision, f) == pre + "" + "" + "" + "";
    assert pre + "" + "" + "" + "" == pre;
    var c := Constants(Quoted(revision, f.doTranslate), Quoted(date, f.doTranslate), f);
    assert c == "" + "" + "" + "" + "";
    assert HeaderBody(revision, date, f) == pre + c + Epilogue;
    assert pre + c == pre;
  }
}
