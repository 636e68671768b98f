/**
 * The ordered fallback of `main`: svn in XML form, then svn in plain-text
 * form, then git-svn, each tried only while every earlier one has failed
 * and only when its tool was found. The strategies write into the same two
 * strings, which start as "0" and "unknown date".
 */
module RevisionQuery {
  import opened Wrappers
  import opened Outcomes
  import opened SvnInfoText
  import opened SvnInfoXml

  datatype Strategy = SvnXml | SvnText | GitSvn

  /**
   * Everything the outside world contributes: whether `svn --version` and
   * `git --version` ran successfully, and what each query command replies.
   */
  datatype Environment = Environment(
    svnExists: bool,
    gitExists: bool,
    svnXmlReply: XmlReply,
    svnTextReply: TextReply,
    gitSvnReply: TextReply)

  /**
   * The revision and date handed on to output, the status of the last
   * strategy run (`Failed` when none ran), and the strategies run, in order.
   */
  datatype Determination = Determination(status: Status, revision: string, date: string, tried: seq<Strategy>)

  const DefaultRevision := "0"
  const DefaultDate := "unknown date"

  /** What each strategy leaves behind, once the replies of `env` are parsed. */
  datatype Results = Results(xml: Outcome, text: Outcome, gitSvn: Outcome)

  function ResultsOf(env: Environment): Results
  {
    Results(SvnXmlOutcome(env.svnXmlReply), PlainTextOutcome(env.svnTextReply), PlainTextOutcome(env.gitSvnReply))
  }

  function Result(res: Results, s: Strategy): Outcome
  {
    match s
    case SvnXml => res.xml
    case SvnText => res.text
    case GitSvn => res.gitSvn
  }

  function StrategyOutcome(env: Environment, s: Strategy): Outcome
  {
    Result(ResultsOf(env), s)
  }

  /** The strategies to try, in the fixed order: both svn queries when svn is there, then git-svn when enabled. */
  function Plan(svn: bool, gitSvn: bool): seq<Strategy>
  {
    (if svn then [SvnXml, SvnText] else []) + (if gitSvn then [GitSvn] else [])
  }

  /** The strategies whose tools are available. */
  function Planned(env: Environment, skipGitSvn: bool): seq<Strategy>
  {
    Plan(env.svnExists, env.gitExists && !skipGitSvn)
  }

  /**
   * Reference definition of the fallback policy: run the planned strategies
   * in order, each on the strings the previous ones left, and stop at the
   * first one that does not fail.
   */
  function TryInOrder(res: Results, plan: seq<Strategy>, revision: string, date: string,
                      tried: seq<Strategy>): (d: Determination)
    ensures |tried| <= |d.tried| <= |tried| + |plan|
    decreases |plan|
  {
    if plan == [] then Determination(Failed, revision, date, tried)
    else
      var o := Result(res, plan[0]);
      var revision', date' := o.revision.GetOr(revision), o.date.GetOr(date);
      if o.status == Failed then TryInOrder(res, plan[1..], revision', date', tried + [plan[0]])
      else Determination(o.status, revision', date', tried + [plan[0]])
  }

  function Fallback(env: Environment, skipGitSvn: bool): Determination
  {
    TryInOrder(ResultsOf(env), Planned(env, skipGitSvn), DefaultRevision, DefaultDate, [])
  }

  /** Lines 190-214 of the source: the strategies updating `revision` and `date` in turn. */
  method DetermineRevision(env: Environment, skipGitSvn: bool) returns (d: Determination)
    ensures d == Fallback(env, skipGitSvn)
  {
    ghost var res := ResultsOf(env);
    var revision := DefaultRevision;
    var date := DefaultDate;
    var status := Failed;
    var tried: seq<Strategy> := [];
    ghost var git := if env.gitExists && !skipGitSvn then [GitSvn] else [];
    ghost var rest := Planned(env, skipGitSvn);
    if env.svnExists {
      assert rest[0] == SvnXml && rest[1..] == [SvnText] + git;
      var o := QuerySvn(env.svnXmlReply);
      ghost var o0 := o;
      revision, date, status := o.revision.GetOr(revision), o.date.GetOr(date), o.status;
      tried := tried + [SvnXml];
      assert o == res.xml;
      assert TryInOrder(res, Planned(env, skipGitSvn), DefaultRevision, DefaultDate, [])
          == if status == Failed then TryInOrder(res, [SvnText] + git, revision, date, tried)
             else Determination(status, revision, date, tried);
      rest := [SvnText] + git;
      if status == Failed {
        assert rest[0] == SvnText && rest[1..] == git;
        o := QueryPlainText(env.svnTextReply);
        revision, date, status := o.revision.GetOr(revision), o.date.GetOr(date), o.status;
        ghost var before := tried;
        tried := tried + [SvnText];
        assert o == res.text;
        assert TryInOrder(res, [SvnText] + git, o0.revision.GetOr(DefaultRevision), o0.date.GetOr(DefaultDate), before)
            == if status == Failed then TryInOrder(res, git, revision, date, tried)
               else Determination(status, revision, date, tried);
        rest := git;
      }
    }
    assert status == Failed ==> Fallback(env, skipGitSvn) == TryInOrder(res, rest, revision, date, tried);
    assert status != Failed ==> Fallback(env, skipGitSvn) == Determination(status, revision, date, tried);
    // A crash (an exception thrown by a strategy) never reaches this test.
    if status == Failed && env.gitExists && !skipGitSvn {
      assert rest == [GitSvn] && rest[1..] == [];
      ghost var before := (revision, date, tried);
      var o := QueryPlainText(env.gitSvnReply);
      revision, date, status := o.revision.GetOr(revision), o.date.GetOr(date), o.status;
      tried := tried + [GitSvn];
      assert o == res.gitSvn;
      assert TryInOrder(res, [GitSvn], before.0, before.1, before.2) == Determination(status, revision, date, tried);
    } else if status == Failed {
      assert rest == [];
    }
    d := Determination(status, revision, date, tried);
  }

  /**
   * The reference policy runs a prefix of the plan: every strategy but the
   * last one run failed, the result's status is the last one's, and the
   * plan is cut short only by a strategy that did not fail.
   */
  lemma FirstNonFailureWins(res: Results, plan: seq<Strategy>, revision: string, date: string,
                            tried: seq<Strategy>)
    ensures var d := TryInOrder(res, plan, revision, date, tried);
      var m := |d.tried| - |tried|;
      && d.tried == tried + plan[..m]
      && (plan != [] ==> m > 0)
      && (forall i :: 0 <= i < m - 1 ==> Result(res, plan[i]).status == Failed)
      && (m > 0 ==> d.status == Result(res, plan[m - 1]).status)
      && (m < |plan| ==> d.status != Failed)
      && (m == 0 ==> d.status == Failed)
  {
    RunPrefix(res, plan, revision, date, tried);
    EarlierFailed(res, plan, revision, date, tried);
    LastDecides(res, plan, revision, date, tried);
  }

  /** The strategies run are a non-empty prefix of a non-empty plan. */
  lemma {:induction false} RunPrefix(res: Results, plan: seq<Strategy>, revision: string, date: string,
                                     tried: seq<Strategy>)
    ensures var d := TryInOrder(res, plan, revision, date, tried);
      var m := |d.tried| - |tried|;
      d.tried == tried + plan[..m] && (plan != [] ==> m > 0)
    decreases |plan|
  {
    if plan != [] {
      var o := Result(res, plan[0]);
      if o.status == Failed {
        var d := TryInOrder(res, plan, revision, date, tried);
        RunPrefix(res, plan[1..], o.revision.GetOr(revision), o.date.GetOr(date), tried + [plan[0]]);
        var m := |d.tried| - |tried|;
        assert plan[1..][..m - 1] == plan[1..m];
        assert tried + [plan[0]] + plan[1..m] == tried + plan[..m];
      } else {
        assert plan[..1] == [plan[0]];
      }
    }
  }

  /** Every strategy run before the last one failed. */
  lemma {:induction false} EarlierFailed(res: Results, plan: seq<Strategy>, revision: string, date: string,
                                         tried: seq<Strategy>)
    ensures var d := TryInOrder(res, plan, revision, date, tried);
      var m := |d.tried| - |tried|;
      forall i :: 0 <= i < m - 1 ==> Result(res, plan[i]).status == Failed
    decreases |plan|
  {
    if plan != [] {
      var o := Result(res, plan[0]);
      if o.status == Failed {
        var d := TryInOrder(res, plan, revision, date, tried);
        EarlierFailed(res, plan[1..], o.revision.GetOr(revision), o.date.GetOr(date), tried + [plan[0]]);
        var m := |d.tried| - |tried|;
        forall i | 1 <= i < m - 1
          ensures Result(res, plan[i]).status == Failed
        {
          assert plan[i] == plan[1..][i - 1];
        }
      }
    }
  }

  /** The last strategy run gives the status; the plan stops early only on a non-failure. */
  lemma {:induction false} LastDecides(res: Results, plan: seq<Strategy>, revision: string, date: string,
                                       tried: seq<Strategy>)
    ensures var d := TryInOrder(res, plan, revision, date, tried);
      var m := |d.tried| - |tried|;
      && (m > 0 ==> d.status == Result(res, plan[m - 1]).status)
      && (m < |plan| ==> d.status != Failed)
      && (m == 0 ==> d.status == Failed)
    decreases |plan|
  {
    if plan != [] {
      var o := Result(res, plan[0]);
      if o.status == Failed {
        var d := TryInOrder(res, plan, revision, date, tried);
        LastDecides(res, plan[1..], o.revision.GetOr(revision), o.date.GetOr(date), tried + [plan[0]]);
        var m := |d.tried| - |tried|;
        if m > 1 {
          assert plan[m - 1] == plan[1..][m - 2];
        }
      }
    }
  }

  /**
   * A string no strategy that ran wrote keeps its initial value; a
   * different final value was written by one of the strategies that ran.
   */
  lemma {:induction false} UnwrittenValuesSurvive(res: Results, plan: seq<Strategy>, revision: string,
                                                  date: string, tried: seq<Strategy>)
    ensures var d := TryInOrder(res, plan, revision, date, tried);
      var ran := d.tried[|tried|..];
      && ((forall i :: 0 <= i < |ran| ==> Result(res, ran[i]).revision.None?) ==> d.revision == revision)
      && ((forall i :: 0 <= i < |ran| ==> Result(res, ran[i]).date.None?) ==> d.date == date)
      && (d.revision != revision ==> exists i :: 0 <= i < |ran| && Result(res, ran[i]).revision == Some(d.revision))
      && (d.date != date ==> exists i :: 0 <= i < |ran| && Result(res, ran[i]).date == Some(d.date))
    decreases |plan|
  {
    RunPrefix(res, plan, revision, date, tried);
    if plan != [] {
      var o := Result(res, plan[0]);
      var revision', date' := o.revision.GetOr(revision), o.date.GetOr(date);
      var d := TryInOrder(res, plan, revision, date, tried);
      var ran := d.tried[|tried|..];
      assert ran[0] == plan[0];
      if o.status == Failed {
        UnwrittenValuesSurvive(res, plan[1..], revision', date', tried + [plan[0]]);
        var ran' := d.tried[|tried| + 1..];
        assert forall i :: 0 <= i < |ran'| ==> ran'[i] == ran[i + 1];
        if d.revision != revision && d.revision != revision' {
          var i :| 0 <= i < |ran'| && Result(res, ran'[i]).revision == Some(d.revision);
          assert ran[i + 1] == ran'[i];
        }
        if d.date != date && d.date != date' {
          var i :| 0 <= i < |ran'| && Result(res, ran'[i]).date == Some(d.date);
          assert ran[i + 1] == ran'[i];
        }
      }
    }
  }

  /**
   * The strategies the policy runs over the fixed plan: the XML query alone
   * when it does not fail, then the plain-text query, then git-svn only
   * when both svn queries failed.
   */
  lemma PlanRuns(res: Results, svn: bool, gitSvn: bool, revision: string, date: string)
    ensures var git := if gitSvn then [GitSvn] else [];
      TryInOrder(res, Plan(svn, gitSvn), revision, date, []).tried ==
        if !svn then git
        else if res.xml.status != Failed then [SvnXml]
        else if res.text.status != Failed then [SvnXml, SvnText]
        else [SvnXml, SvnText] + git
  {
    var git := if gitSvn then [GitSvn] else [];
    var p := Plan(svn, gitSvn);
    if svn {
      assert p[0] == SvnXml && p[1..] == [SvnText] + git;
      assert ([SvnText] + git)[0] == SvnText && ([SvnText] + git)[1..] == git;
      var o1 := res.xml;
      var r1, d1 := o1.revision.GetOr(revision), o1.date.GetOr(date);
      assert [] + [SvnXml] == [SvnXml];
      assert [SvnXml] + [SvnText] == [SvnXml, SvnText];
      if o1.status == Failed {
        var o2 := res.text;
        var r2, d2 := o2.revision.GetOr(r1), o2.date.GetOr(d1);
        assert TryInOrder(res, p, revision, date, []) == TryInOrder(res, [SvnText] + git, r1, d1, [SvnXml]);
        if o2.status == Failed {
          assert TryInOrder(res, [SvnText] + git, r1, d1, [SvnXml]) == TryInOrder(res, git, r2, d2, [SvnXml, SvnText]);
          if gitSvn {
            assert git[0] == GitSvn && git[1..] == [];
            assert TryInOrder(res, git, r2, d2, [SvnXml, SvnText]).tried == [SvnXml, SvnText] + [GitSvn];
          }
        }
      }
    } else if gitSvn {
      assert p == [GitSvn] && p[1..] == [];
      assert [] + [GitSvn] == [GitSvn];
    }
  }

  /**
   * Where each strategy runs: both svn strategies need svn, the plain-text
   * one also needs the XML one to have failed; git-svn needs git, no
   * `--skip-git-svn`, and every svn strategy that ran to have failed.
   */
  lemma FallbackOrder(env: Environment, skipGitSvn: bool)
    ensures var d := Fallback(env, skipGitSvn);
      var xml, text := StrategyOutcome(env, SvnXml), StrategyOutcome(env, SvnText);
      && (SvnXml in d.tried <==> env.svnExists)
      && (SvnText in d.tried <==> env.svnExists && xml.status == Failed)
      && (GitSvn in d.tried <==>
            env.gitExists && !skipGitSvn && (!env.svnExists || (xml.status == Failed && text.status == Failed)))
  {
    PlanRuns(ResultsOf(env), env.svnExists, env.gitExists && !skipGitSvn, DefaultRevision, DefaultDate);
  }

  /** An XML success ends the search: nothing else runs. */
  lemma XmlSuccessEndsSearch(env: Environment, skipGitSvn: bool)
    requires env.svnExists && StrategyOutcome(env, SvnXml).status == Succeeded
    ensures Fallback(env, skipGitSvn).tried == [SvnXml]
    ensures Fallback(env, skipGitSvn).status == Succeeded
  {
  }

  /** Without a usable tool nothing runs and the defaults are handed on. */
  lemma NoToolKeepsDefaults(env: Environment, skipGitSvn: bool)
    requires !env.svnExists && (!env.gitExists || skipGitSvn)
    ensures Fallback(env, skipGitSvn) == Determination(Failed, DefaultRevision, DefaultDate, [])
  {
  }

  /**
   * A partial write survives: when the plain-text svn query parses the
   * revision but not the date and git-svn is not tried, the revision it wrote
   * is handed on with the default date.
   */
  lemma PartialRevisionSurvives(env: Environment, skipGitSvn: bool, revision: string)
    requires env.svnExists && StrategyOutcome(env, SvnXml).status == Failed
    requires StrategyOutcome(env, SvnText) == Outcome(Failed, Some(revision), None)
    requires !env.gitExists || skipGitSvn
    ensures Fallback(env, skipGitSvn) == Determination(Failed, revision, DefaultDate, [SvnXml, SvnText])
  {
    var plan := Planned(env, skipGitSvn);
    assert plan == [SvnXml, SvnText] && plan[1..] == [SvnText] && plan[1..][1..] == [];
  }
}
