/**
 * `QuerySvn`: the reply of `svn info --xml --non-interactive`, already
 * parsed into the one element the tool looks at, `info/entry/commit`, and
 * the rewrite of that element's date text.
 */
module SvnInfoXml {
  import opened Wrappers
  import opened Strings
  import opened Outcomes

  /**
   * The `commit` element: its `revision` attribute, and the text of its
   * first `date` child (`None` when there is no such child or it has no text).
   */
  datatype Commit = Commit(revision: Option<string>, dateText: Option<string>)

  /**
   * What the XML query yields before the element lookup: no reply (the
   * command could not be run, or did not exit normally with status 0), a
   * document the XML parser rejected, or a parsed document with or without
   * an `info/entry/commit` element.
   */
  datatype XmlReply = NoReply | Malformed | Parsed(commit: Option<Commit>)

  /** The first 'T' replaced by a space; every other character kept. */
  function SpaceForFirstT(raw: string): (t: string)
    ensures |t| == |raw|
    ensures forall j :: 0 <= j < |t| ==> t[j] == if FindChar(raw, 'T', 0) == Some(j) then ' ' else raw[j]
  {
    match FindChar(raw, 'T', 0)
    case None => raw
    case Some(p) => raw[p := ' ']
  }

  /**
   * The date rewrite of `QuerySvn`: the first 'T' becomes a space, then
   * everything from the last '.' on is dropped. The result is never longer
   * than the input, and shorter exactly when the input holds a '.'; then
   * it stops exactly at the last '.'. Otherwise only the 'T' changes.
   */
  function NormalisedDate(raw: string): (d: string)
    ensures |d| <= |raw|
    ensures '.' in raw <==> |d| < |raw|
    ensures |d| < |raw| ==> raw[|d|] == '.' && forall j :: |d| < j < |raw| ==> raw[j] != '.'
    ensures forall j :: 0 <= j < |d| ==> d[j] == if FindChar(raw, 'T', 0) == Some(j) then ' ' else raw[j]
  {
    var t := SpaceForFirstT(raw);
    assert forall j :: 0 <= j < |raw| ==> (t[j] == '.' <==> raw[j] == '.');
    match LastIndexOf(t, '.')
    case None => t
    case Some(q) => t[..q]
  }

  /** Lines 637-665 of the source: look up the commit element and rewrite its date in place. */
  method QuerySvn(reply: XmlReply) returns (o: Outcome)
    ensures o == SvnXmlOutcome(reply)
  {
    if !reply.Parsed? || reply.commit.None? {
      return NothingWritten;
    }
    var e := reply.commit.value;
    var revision := if e.revision.Some? then e.revision.value else "";
    var date: Option<string> := None;
    if e.dateText.Some? {
      var d := e.dateText.value;
      var pos := FindChar(d, 'T', 0);
      if pos.Some? {
        d := d[pos.value := ' '];
      }
      var dot := LastIndexOf(d, '.');
      if dot.Some? {
        d := d[..dot.value];
      }
      date := Some(d);
    }
    o := Outcome(Succeeded, Some(revision), date);
  }

  /**
   * What `QuerySvn` writes into the caller's strings: nothing unless the
   * commit element exists; then the revision attribute (or "") and, when
   * the date element has text, the rewritten date.
   */
  function SvnXmlOutcome(reply: XmlReply): Outcome
  {
    match reply
    case Parsed(Some(e)) =>
      Outcome(Succeeded, Some(e.revision.GetOr("")),
              if e.dateText.Some? then Some(NormalisedDate(e.dateText.value)) else None)
    case _ => NothingWritten
  }

  /**
   * `QuerySvn` succeeds exactly when the document parsed and has a commit
   * element, never crashes, writes nothing when it fails, always writes the
   * revision ("" for a missing attribute) when it succeeds, and leaves the
   * date alone when the date element is missing or empty.
   */
  lemma SvnXmlSuccessRule(reply: XmlReply)
    ensures var o := SvnXmlOutcome(reply);
      && (o.status == Succeeded <==> reply.Parsed? && reply.commit.Some?)
      && o.status != Crashed
      && (o.status == Failed ==> o == NothingWritten)
      && (o.status == Succeeded ==> o.revision == Some(reply.commit.value.revision.GetOr("")))
      && (o.status == Succeeded ==> (o.date.None? <==> reply.commit.value.dateText.None?))
  {
  }

  /** The sample `<commit revision="42"><date>2023-05-06T07:08:09.123456Z</date></commit>`. */
  lemma XmlSample(raw: string)
    requires raw == "2023-05-06T07:08:09.123456Z"
    ensures SvnXmlOutcome(Parsed(Some(Commit(Some("42"), Some(raw)))))
         == Outcome(Succeeded, Some("42"), Some("2023-05-06 07:08:09"))
  {
    var day, time, fraction := "2023-05-06", "07:08:09", "123456Z";
    SampleParts(raw, day, time, fraction);
    DateRule(day, time, fraction);
    CommitOutcome(raw, "42", day + " " + time);
  }

  lemma SampleParts(raw: string, day: string, time: string, fraction: string)
    requires raw == "2023-05-06T07:08:09.123456Z"
    requires day == "2023-05-06" && time == "07:08:09" && fraction == "123456Z"
    ensures raw == day + "T" + time + "." + fraction
    ensures 'T' !in day && '.' !in fraction
    ensures day + " " + time == "2023-05-06 07:08:09"
  {
  }

  /** A commit element with both a revision attribute and date text. */
  lemma CommitOutcome(raw: string, revision: string, date: string)
    requires NormalisedDate(raw) == date
    ensures SvnXmlOutcome(Parsed(Some(Commit(Some(revision), Some(raw))))) ==
      Outcome(Succeeded, Some(revision), Some(date))
  {
  }

  /**
   * An ISO 8601 date as svn writes it: the day, 'T', the time, '.', and the
   * fraction with the zone become the day, a space and the time.
   */
  lemma DateRule(day: string, time: string, fraction: string)
    requires 'T' !in day && '.' !in fraction
    ensures NormalisedDate(day + "T" + time + "." + fraction) == day + " " + time
  {
    var raw := day + "T" + time + "." + fraction;
    var p, q := |day|, |day| + 1 + |time|;
    FirstTAfterDay(day, time, fraction);
    LastDotBeforeFraction(day, time, fraction);
    RewriteAt(raw, p, q);
    SpacedPrefix(day, time, fraction);
  }

  lemma FirstTAfterDay(day: string, time: string, fraction: string)
    requires 'T' !in day
    ensures FindChar(day + "T" + time + "." + fraction, 'T', 0) == Some(|day|)
  {
    var raw := day + "T" + time + "." + fraction;
    assert forall j :: 0 <= j < |day| ==> raw[j] == day[j];
    FindCharIsFirst(raw, 'T', 0, |day|);
  }

  lemma LastDotBeforeFraction(day: string, time: string, fraction: string)
    requires '.' !in fraction
    ensures LastIndexOf((day + "T" + time + "." + fraction)[|day| := ' '], '.') == Some(|day| + 1 + |time|)
  {
    var t := (day + "T" + time + "." + fraction)[|day| := ' '];
    var q := |day| + 1 + |time|;
    assert t[q] == '.';
    assert forall j :: q < j < |t| ==> t[j] == fraction[j - q - 1];
    LastIndexOfIsLast(t, '.', q);
  }

  lemma SpacedPrefix(day: string, time: string, fraction: string)
    ensures (day + "T" + time + "." + fraction)[|day| := ' '][..|day| + 1 + |time|] == day + " " + time
  {
    var t := (day + "T" + time + "." + fraction)[|day| := ' '][..|day| + 1 + |time|];
    assert forall j :: 0 <= j < |t| ==> t[j] == (day + " " + time)[j];
  }

  /** The rewrite once the first 'T' and the last '.' after it are known. */
  lemma RewriteAt(raw: string, p: nat, q: nat)
    requires FindChar(raw, 'T', 0) == Some(p)
    requires LastIndexOf(raw[p := ' '], '.') == Some(q)
    ensures NormalisedDate(raw) == raw[p := ' '][..q]
  {
  }

  /** Without a '.', a trailing 'Z' (or any other suffix) survives. */
  lemma NoFractionKeepsZone(raw: string)
    requires |raw| > 0 && raw[|raw| - 1] == 'Z'
    requires forall j :: 0 <= j < |raw| ==> raw[j] != '.'
    ensures |NormalisedDate(raw)| == |raw| && NormalisedDate(raw)[|raw| - 1] == 'Z'
  {
  }
}
