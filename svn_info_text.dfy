/**
 * The plain-text parser shared by `QueryGitSvn` and `QuerySvnOldStyle`:
 * the revision is the run of characters after "Last Changed Rev: " as
 * scanned by the post-incrementing `while` loop, and the date runs from
 * just after "Last Changed Date: " to the second space at or after it.
 * The captured text sits in a zero-initialised buffer, so reading past its
 * end yields NUL.
 */
module SvnInfoText {
  import opened Wrappers
  import opened Strings
  import opened Outcomes

  const RevisionLabel := "Last Changed Rev: "
  const DateLabel := "Last Changed Date: "

  /**
   * The captured output of `svn info --non-interactive` or `git svn info`.
   * `NoText` stands for every way the command can fail before parsing:
   * `popen` failed, the read stopped before end of file, or the process did
   * not exit normally with status 0.
   */
  datatype TextReply = NoText | Text(output: string)

  /** The length of the maximal run of decimal digits starting at `pos`. */
  function DigitRun(s: string, pos: nat): (k: nat)
    requires pos <= |s|
    ensures pos + k <= |s|
    ensures forall i :: pos <= i < pos + k ==> IsDigit(s[i])
    ensures !IsDigit(CharAt(s, pos + k))
    decreases |s| - pos
  {
    if pos < |s| && IsDigit(s[pos]) then 1 + DigitRun(s, pos + 1) else 0
  }

  /** A run of digits ended by a non-digit is the maximal run. */
  lemma {:induction false} DigitRunUnique(s: string, pos: nat, k: nat)
    requires pos + k <= |s|
    requires forall i :: pos <= i < pos + k ==> IsDigit(s[i])
    requires !IsDigit(CharAt(s, pos + k))
    ensures DigitRun(s, pos) == k
    decreases k
  {
    if k > 0 {
      DigitRunUnique(s, pos + 1, k - 1);
    }
  }

  /**
   * What the loop `while (buf[pos+len] >= '0' && buf[pos+len++] <= '9');`
   * counts: the digit run, plus the character ending it when that
   * character is not below '0' (it is read by the post-incrementing test).
   */
  function RevisionLength(s: string, pos: nat): nat
    requires pos <= |s|
  {
    var k := DigitRun(s, pos);
    if CharAt(s, pos + k) < '0' then k else k + 1
  }

  /** The scanning loop of `QueryGitSvn` and `QuerySvnOldStyle`, as written. */
  method ScanRevisionLength(s: string, pos: nat) returns (len: nat)
    requires pos <= |s|
    ensures pos + len <= |s|
    ensures len == RevisionLength(s, pos)
  {
    len := 0;
    while CharAt(s, pos + len) >= '0'
      invariant pos + len <= |s|
      invariant forall i :: pos <= i < pos + len ==> IsDigit(s[i])
      decreases |s| - (pos + len)
    {
      var c := CharAt(s, pos + len);
      len := len + 1;
      if c > '9' {
        DigitRunUnique(s, pos, len - 1);
        return;
      }
    }
    DigitRunUnique(s, pos, len);
  }

  /**
   * What the scan counts, stated without the loop: every counted character
   * is at least '0', all but the last are digits, the count is zero exactly
   * when the first character is below '0', a count ending in a digit is
   * followed by a character below '0', and a count ending in a non-digit
   * ends in a character above '9'.
   */
  lemma RevisionLengthMeaning(s: string, pos: nat)
    requires pos <= |s|
    ensures var n := RevisionLength(s, pos);
      && pos + n <= |s|
      && (n == 0 <==> CharAt(s, pos) < '0')
      && (forall i :: pos <= i < pos + n ==> '0' <= s[i])
      && (forall i :: pos <= i < pos + n - 1 ==> IsDigit(s[i]))
      && (n > 0 && IsDigit(s[pos + n - 1]) ==> CharAt(s, pos + n) < '0')
      && (n > 0 && !IsDigit(s[pos + n - 1]) ==> s[pos + n - 1] > '9')
  {
    var k := DigitRun(s, pos);
    if k == 0 {
      assert CharAt(s, pos) == CharAt(s, pos + k);
    }
  }

  /**
   * The revision field: the counted characters after the first
   * "Last Changed Rev: ", or `None` when the label is absent or the count is 0.
   */
  function RevisionField(s: string): Option<string>
  {
    match Find(s, RevisionLabel, 0)
    case None => None
    case Some(p) =>
      var q := p + |RevisionLabel|;
      var n := RevisionLength(s, q);
      if n == 0 then None else Some(s[q..q + n])
  }

  /**
   * `len` computed from the date label's end `pos`: the distance to the
   * second space found at or after `pos`, 0 when there are fewer than two.
   */
  function DateLength(s: string, pos: nat): (n: nat)
    requires pos <= |s|
    ensures n > 0 ==> pos + n < |s|
  {
    match FindChar(s, ' ', pos)
    case None => 0
    case Some(a) =>
      match FindChar(s, ' ', a + 1)
      case None => 0
      case Some(b) => b - pos
  }

  /** At least two spaces at or after `pos`. */
  ghost predicate TwoSpacesFrom(s: string, pos: nat)
  {
    exists a, b :: pos <= a < b < |s| && s[a] == ' ' && s[b] == ' '
  }

  /** Index `a` holds the only space of `s[lo..hi]`. */
  ghost predicate OnlySpaceAt(s: string, lo: nat, hi: nat, a: nat)
  {
    forall j :: lo <= j < hi && j < |s| && j != a ==> s[j] != ' '
  }

  /**
   * The date span is non-empty exactly when two spaces follow `pos`; then it
   * holds exactly one space and is followed by the second one.
   */
  lemma DateSpanMeaning(s: string, pos: nat)
    requires pos <= |s|
    ensures DateLength(s, pos) == 0 <==> !TwoSpacesFrom(s, pos)
    ensures var n := DateLength(s, pos);
      n > 0 ==> s[pos + n] == ' '
    ensures var n := DateLength(s, pos);
      n > 0 ==> exists a :: pos <= a < pos + n && s[a] == ' ' && OnlySpaceAt(s, pos, pos + n, a)
  {
    var a := FindChar(s, ' ', pos);
    if a.Some? {
      var b := FindChar(s, ' ', a.value + 1);
      if b.Some? {
        assert s[a.value] == ' ' && s[b.value] == ' ';
      }
    }
  }

  /**
   * The revision rule on a text laid out as label, digit run, rest: when
   * the rest starts with a character above '9' that character is kept too;
   * otherwise the revision is the digit run, and an empty run fails.
   */
  lemma {:induction false} RevisionScanRule(pre: string, digits: string, rest: string)
    requires Find(pre + RevisionLabel + digits + rest, RevisionLabel, 0) == Some(|pre|)
    requires forall i :: 0 <= i < |digits| ==> IsDigit(digits[i])
    requires rest == [] || !IsDigit(rest[0])
    ensures RevisionField(pre + RevisionLabel + digits + rest) ==
      if rest != [] && rest[0] > '9' then Some(digits + [rest[0]])
      else if digits == [] then None
      else Some(digits)
  {
    var s := pre + RevisionLabel + digits + rest;
    var a := pre + RevisionLabel;
    AppendAssoc(a, digits, rest);
    assert s[|a|..] == digits + rest;
    RevisionAt(s, |pre|);
    RunThenRest(s, |a|, digits, rest);
  }

  /** The scan from `q` over a run of digits followed by `rest`, which does not start with a digit. */
  lemma RunThenRest(s: string, q: nat, digits: string, rest: string)
    requires q <= |s| && s[q..] == digits + rest
    requires forall i :: 0 <= i < |digits| ==> IsDigit(digits[i])
    requires rest == [] || !IsDigit(rest[0])
    ensures var n := RevisionLength(s, q);
      s[q..q + n] == if rest != [] && rest[0] > '9' then digits + [rest[0]] else digits
  {
    var k := |digits|;
    assert forall i :: q <= i < q + k ==> s[i] == s[q..][i - q] == digits[i - q];
    assert CharAt(s, q + k) == if rest == [] then '\0' else rest[0] by {
      if rest != [] {
        assert s[q + k] == s[q..][k] == rest[0];
      }
    }
    DigitRunUnique(s, q, k);
    assert s[q..q + k] == s[q..][..k] == digits;
    if rest != [] {
      assert s[q..q + k + 1] == s[q..][..k + 1] == digits + [rest[0]];
    }
  }

  /** The revision found after a label at `p`. */
  lemma RevisionAt(s: string, p: nat)
    requires Find(s, RevisionLabel, 0) == Some(p)
    ensures var q := p + |RevisionLabel|;
      RevisionField(s) == if RevisionLength(s, q) == 0 then None else Some(s[q..q + RevisionLength(s, q)])
  {
  }

  /** The date rule: between the label's end and the second space lie two space-free words. */
  lemma DateSpanRule(s: string, pos: nat, first: string, second: string)
    requires pos + |first| + |second| + 2 <= |s|
    requires s[pos..pos + |first| + |second| + 2] == first + " " + second + " "
    requires ' ' !in first && ' ' !in second
    ensures DateLength(s, pos) == |first| + 1 + |second|
    ensures s[pos..pos + DateLength(s, pos)] == first + " " + second
  {
    var w := first + " " + second + " ";
    var a := pos + |first|;
    var b := a + 1 + |second|;
    assert forall j :: pos <= j < pos + |w| ==> s[j] == w[j - pos];
    assert forall j :: pos <= j < a ==> s[j] == first[j - pos];
    assert forall j :: a < j < b ==> s[j] == second[j - a - 1];
    FindCharIsFirst(s, ' ', pos, a);
    FindCharIsFirst(s, ' ', a + 1, b);
    assert s[pos..b] == first + " " + second;
  }

  /**
   * The whole parse of one captured text, and what it writes into the
   * caller's strings: the revision is written as soon as it parses; the
   * date label missing after a parsed revision makes `substr(npos, len)`
   * throw `std::out_of_range`.
   */
  function PlainTextOutcome(reply: TextReply): Outcome
  {
    match reply
    case NoText => NothingWritten
    case Text(s) =>
      match RevisionField(s)
      case None => NothingWritten
      case Some(revision) =>
        match DateResult(s)
        case NoDateLabel => Outcome(Crashed, Some(revision), None)
        case NoDate => Outcome(Failed, Some(revision), None)
        case Date(date) => Outcome(Succeeded, Some(revision), Some(date))
  }

  /** What the date label yields: no label, a label without two spaces after it, or the date. */
  datatype DateScan = NoDateLabel | NoDate | Date(date: string)

  function DateResult(s: string): DateScan
  {
    match Find(s, DateLabel, 0)
    case None => NoDateLabel
    case Some(p) =>
      var q := p + |DateLabel|;
      var n := DateLength(s, q);
      if n == 0 then NoDate else Date(s[q..q + n])
  }

  /**
   * What a plain-text query writes: the revision exactly when it parses,
   * the date only on success; the process crashes exactly when the
   * revision parses and the date label is absent.
   */
  lemma PlainTextWrites(reply: TextReply)
    ensures var o := PlainTextOutcome(reply);
      && (o.revision.Some? <==> reply.Text? && RevisionField(reply.output).Some?)
      && (o.revision.Some? ==> o.revision == RevisionField(reply.output))
      && (o.date.Some? <==> o.status == Succeeded)
      && (o.status == Crashed <==>
            reply.Text? && RevisionField(reply.output).Some? && Find(reply.output, DateLabel, 0).None?)
  {
  }

  /**
   * A plain-text query succeeds only with a non-empty revision and a
   * non-empty date that holds exactly one space.
   */
  lemma PlainTextSuccess(reply: TextReply)
    requires PlainTextOutcome(reply).status == Succeeded
    ensures var o := PlainTextOutcome(reply);
      && o.revision.Some? && o.date.Some?
      && |o.revision.value| > 0 && |o.date.value| > 0
      && exists a :: 0 <= a < |o.date.value| && o.date.value[a] == ' ' &&
           OnlySpaceAt(o.date.value, 0, |o.date.value|, a)
  {
    var s := reply.output;
    var p := Find(s, DateLabel, 0).value;
    var q := p + |DateLabel|;
    var d := s[q..q + DateLength(s, q)];
    assert DateResult(s) == Date(d);
    DateHasOneSpace(s, q, d);
  }

  /** A non-empty date span holds exactly one space. */
  lemma DateHasOneSpace(s: string, q: nat, d: string)
    requires q <= |s| && DateLength(s, q) > 0 && d == s[q..q + DateLength(s, q)]
    ensures exists a :: 0 <= a < |d| && d[a] == ' ' && OnlySpaceAt(d, 0, |d|, a)
  {
    var a := FindChar(s, ' ', q).value;
    assert 0 <= a - q < |d| && d[a - q] == ' ';
    assert OnlySpaceAt(d, 0, |d|, a - q) by {
      forall j | 0 <= j < |d| && j != a - q
        ensures d[j] != ' '
      {
        assert d[j] == s[q + j];
      }
    }
  }

  /** Lines 410-433 (and 533-556) of the source: find the revision label and count the revision. */
  method ScanRevision(output: string) returns (revision: Option<string>)
    ensures revision == RevisionField(output)
  {
    var pos := Find(output, RevisionLabel, 0);
    var start: nat := 0;
    var len: nat := 0;
    if pos.Some? {
      start := pos.value + |RevisionLabel|;
      len := ScanRevisionLength(output, start);
    }
    if len == 0 {
      return None;
    }
    return Some(output[start..start + len]);
  }

  /** Lines 410-460 (and 533-583) of the source, with `buf` past the text read as NUL. */
  method QueryPlainText(reply: TextReply) returns (o: Outcome)
    ensures o == PlainTextOutcome(reply)
  {
    if reply.NoText? {
      return NothingWritten;
    }
    var output := reply.output;
    var revision := ScanRevision(output);
    if revision.None? {
      return NothingWritten;
    }
    var date := ScanDate(output);
    match date
    case NoDateLabel =>
      // `pos` is npos while `len` still holds the revision length.
      o := Outcome(Crashed, revision, None);
    case NoDate =>
      o := Outcome(Failed, revision, None);
    case Date(d) =>
      o := Outcome(Succeeded, revision, Some(d));
  }

  /** Lines 435-451 (and 558-574) of the source: find the date label and cut the date at the second space. */
  method ScanDate(output: string) returns (r: DateScan)
    ensures r == DateResult(output)
  {
    var pos := Find(output, DateLabel, 0);
    if pos.None? {
      return NoDateLabel;
    }
    var start := pos.value + |DateLabel|;
    var len := DateLength(output, start);
    if len == 0 {
      return NoDate;
    }
    return Date(output[start..start + len]);
  }

  /** The legacy `svn info` sample: revision "99", date "2022-03-04 05:06:07". */
  lemma LegacySample(s: string)
    requires s == "Last Changed Rev: 99\n" + "Last Changed Date: 2022-03-04 05:06:07" + " +0000 (Fri, 04 Mar 2022)"
    ensures PlainTextOutcome(Text(s)) == Outcome(Succeeded, Some("99"), Some("2022-03-04 05:06:07"))
  {
    var head, date, tail := "Last Changed Rev: 99\n", "2022-03-04 05:06:07", " +0000 (Fri, 04 Mar 2022)";
    assert s == head + DateLabel + date + tail;
    SampleOutcome(s, head, date, tail);
  }

  lemma SampleOutcome(s: string, head: string, date: string, tail: string)
    requires head == "Last Changed Rev: 99\n" && date == "2022-03-04 05:06:07" && tail == " +0000 (Fri, 04 Mar 2022)"
    requires s == head + DateLabel + date + tail
    ensures PlainTextOutcome(Text(s)) == Outcome(Succeeded, Some("99"), Some(date))
  {
    AppendAssoc(head + DateLabel, date, tail);
    AppendAssoc(head, DateLabel, date + tail);
    AppendAssoc(DateLabel, date, tail);
    SampleRevision(head, DateLabel + date + tail);
    SampleDateLabel(head, date + tail);
    SampleDate(head + DateLabel, date, tail);
    DateAt(s, 21);
    SucceedsWith(s, "99", date);
  }

  /** A parsed revision and a parsed date make a success. */
  lemma SucceedsWith(s: string, revision: string, date: string)
    requires RevisionField(s) == Some(revision)
    requires DateResult(s) == Date(date)
    ensures PlainTextOutcome(Text(s)) == Outcome(Succeeded, Some(revision), Some(date))
  {
  }

  /** The date found after a label at `p`. */
  lemma DateAt(s: string, p: nat)
    requires Find(s, DateLabel, 0) == Some(p)
    ensures var q := p + |DateLabel|;
      DateResult(s) == if DateLength(s, q) == 0 then NoDate else Date(s[q..q + DateLength(s, q)])
  {
  }

  lemma SampleRevision(head: string, rest: string)
    requires head == "Last Changed Rev: 99\n"
    ensures RevisionField(head + rest) == Some("99")
  {
    var s := head + rest;
    assert s[0..18] == head[0..18] == RevisionLabel;
    FindIsFirst(s, RevisionLabel, 0, 0);
    assert s[18] == '9' && s[19] == '9' && s[20] == '\n';
    DigitRunUnique(s, 18, 2);
    assert s[18..20] == "99";
  }

  lemma SampleDateLabel(head: string, rest: string)
    requires head == "Last Changed Rev: 99\n"
    ensures Find(head + DateLabel + rest, DateLabel, 0) == Some(21)
  {
    var s := head + DateLabel + rest;
    assert s[21..40] == DateLabel;
    assert s[13] != DateLabel[13];
    assert !MatchesAt(s, DateLabel, 0);
    forall j | 1 <= j < 21
      ensures !MatchesAt(s, DateLabel, j)
    {
      assert s[j] == head[j] != 'L';
      if j + |DateLabel| <= |s| {
        assert s[j..j + |DateLabel|][0] == s[j];
      }
    }
    FindIsFirst(s, DateLabel, 0, 21);
  }

  lemma SampleDate(head: string, date: string, tail: string)
    requires |head| == 40 && date == "2022-03-04 05:06:07" && tail == " +0000 (Fri, 04 Mar 2022)"
    ensures DateLength(head + date + tail, 40) == 19
    ensures (head + date + tail)[40..59] == date
  {
    var s := head + date + tail;
    assert forall j :: 40 <= j < 59 ==> s[j] == date[j - 40];
    assert s[59] == ' ';
    FindCharIsFirst(s, ' ', 40, 50);
    FindCharIsFirst(s, ' ', 51, 59);
    assert s[40..59] == date;
  }

  /** A first non-digit at or above '0' is kept: "12a" parses as the revision "12a". */
  lemma OvershootSample()
    ensures RevisionField("Last Changed Rev: 12a\n") == Some("12a")
  {
    var s := "Last Changed Rev: 12a\n";
    assert s[0..18] == RevisionLabel;
    FindIsFirst(s, RevisionLabel, 0, 0);
    DigitRunUnique(s, 18, 2);
    assert s[18..21] == "12a";
  }
}
