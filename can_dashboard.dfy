/** The dashboard: its state (applicants, overdue count, active tab, form
    visibility), the six overview counts, the per-tab applicant lists and
    the overdue count that drives the alert bar. */
module CANDashboard {
  import opened Applicants
  import ApplicantCard
  import PipelineView
  import AlertBar
  import ApplicationForm

  // ----- overview counts -----

  /** `getStatusStats()`. */
  datatype StatusStats = StatusStats(
    newApplications: nat,
    inCompliance: nat,
    contractsPending: nat,
    inInterviews: nat,
    readyToDeploy: nat,
    deployed: nat)

  /** The filter behind each count, in the order the counts are shown. */
  const StatRules: seq<StatusRule> := [
    Exact("application_submitted"), Exact("compliance_verification"), Exact("contract_sent"),
    MentionsInterview, Exact("active_not_deployed"), Exact("deployed")]

  function StatsTotal(stats: StatusStats): nat
  {
    stats.newApplications + stats.inCompliance + stats.contractsPending
    + stats.inInterviews + stats.readyToDeploy + stats.deployed
  }

  /** No status is counted under two headings. */
  lemma StatRulesExclusive()
    ensures Exclusive(StatRules)
  {
    forall status: string, i, j | 0 <= i < j < |StatRules| && Matches(StatRules[i], status)
      ensures !Matches(StatRules[j], status)
    {
      if i == 3 || j == 3 {
        var other := if i == 3 then StatRules[j] else StatRules[i];
        if Matches(other, status) {
          NonInterviewStatuses(status);
        }
      }
    }
  }

  /** `getStatusStats()`: one count per heading. No status is counted under
      two headings, so the six counts add up to at most the number of
      applicants. */
  function GetStatusStats(apps: seq<Applicant>): (stats: StatusStats)
    ensures StatsTotal(stats) <= |apps|
  {
    var stats := StatusStats(
      |Select(apps, StatRules[0])|, |Select(apps, StatRules[1])|, |Select(apps, StatRules[2])|,
      |Select(apps, StatRules[3])|, |Select(apps, StatRules[4])|, |Select(apps, StatRules[5])|);
    StatRulesExclusive();
    ExclusiveSelectionsBound(apps, StatRules);
    assert TotalSelected(apps, StatRules[5..]) == stats.deployed;
    assert TotalSelected(apps, StatRules[4..]) == stats.readyToDeploy + TotalSelected(apps, StatRules[5..]);
    assert TotalSelected(apps, StatRules[3..]) == stats.inInterviews + TotalSelected(apps, StatRules[4..]);
    assert TotalSelected(apps, StatRules[2..]) == stats.contractsPending + TotalSelected(apps, StatRules[3..]);
    assert TotalSelected(apps, StatRules[1..]) == stats.inCompliance + TotalSelected(apps, StatRules[2..]);
    stats
  }

  /** The five exact-match counts are the sizes of the board's columns of
      the same name; the interview column also holds the `hired_inactive`
      applicants, which the interview count leaves out. */
  lemma StatsMatchBoard(apps: seq<Applicant>)
    ensures var stats := GetStatusStats(apps);
      && stats.newApplications == |PipelineView.StageApplicants(apps, "application_submitted")|
      && stats.inCompliance == |PipelineView.StageApplicants(apps, "compliance_verification")|
      && stats.contractsPending == |PipelineView.StageApplicants(apps, "contract_sent")|
      && stats.readyToDeploy == |PipelineView.StageApplicants(apps, "active_not_deployed")|
      && stats.deployed == |PipelineView.StageApplicants(apps, "deployed")|
      && |PipelineView.StageApplicants(apps, "interview_pipeline")|
         == stats.inInterviews + |Select(apps, Exact("hired_inactive"))|
  {
    InterviewColumnSplits(apps);
  }

  lemma {:induction false} InterviewColumnSplits(apps: seq<Applicant>)
    ensures |Select(apps, InterviewOrHired)|
            == |Select(apps, MentionsInterview)| + |Select(apps, Exact("hired_inactive"))|
    decreases |apps|
  {
    if apps != [] {
      InterviewColumnSplits(apps[1..]);
      if apps[0].status == "hired_inactive" {
        NonInterviewStatuses(apps[0].status);
      }
    }
  }

  // ----- tabs -----

  datatype Tab = Overview | Applications | Compliance | Contracts | Interviews | Ready | DeployedTab | All

  /** What a tab shows: the pipeline board, or a list of applicant cards. */
  datatype TabContent = Board(columns: seq<PipelineView.Column>) | Cards(applicants: seq<Applicant>)

  /** The filter of each list tab; the same as the matching overview count. */
  function TabRule(tab: Tab): (rule: Option<StatusRule>)
    ensures rule.None? <==> tab == Overview || tab == All
  {
    match tab
    case Applications => Some(StatRules[0])
    case Compliance => Some(StatRules[1])
    case Contracts => Some(StatRules[2])
    case Interviews => Some(StatRules[3])
    case Ready => Some(StatRules[4])
    case DeployedTab => Some(StatRules[5])
    case _ => None
  }

  function TabView(apps: seq<Applicant>, tab: Tab): (content: TabContent)
    ensures tab == Overview <==> content.Board?
    ensures tab == Overview ==> content.columns == PipelineView.RenderBoard(apps)
    ensures tab == All ==> content == Cards(apps)
  {
    match tab
    case Overview => Board(PipelineView.RenderBoard(apps))
    case All => Cards(apps)
    case _ => Cards(Select(apps, TabRule(tab).value))
  }

  /** The count each list tab's heading shows. */
  function StatFor(stats: StatusStats, tab: Tab): nat
    requires TabRule(tab).Some?
  {
    match tab
    case Applications => stats.newApplications
    case Compliance => stats.inCompliance
    case Contracts => stats.contractsPending
    case Interviews => stats.inInterviews
    case Ready => stats.readyToDeploy
    case DeployedTab => stats.deployed
  }

  /** Each list tab lists, in their original order, exactly the applicants
      its overview count counts; the All tab lists everyone in order. */
  lemma TabListsMatchStats(apps: seq<Applicant>, tab: Tab, a: Applicant)
    requires tab != Overview
    ensures TabView(apps, tab).Cards?
    ensures Lists.IsSubsequence(TabView(apps, tab).applicants, apps)
    ensures tab != All ==> |TabView(apps, tab).applicants| == StatFor(GetStatusStats(apps), tab)
    ensures tab != All ==>
      (a in TabView(apps, tab).applicants <==> a in apps && Matches(TabRule(tab).value, a.status))
  {
    if tab == All {
      Lists.SubsequenceReflexive(apps);
    } else {
      SelectIsSubsequence(apps, TabRule(tab).value);
      StatForIsSelection(apps, tab);
    }
  }

  /** The count of a list tab is the size of its filter. */
  lemma StatForIsSelection(apps: seq<Applicant>, tab: Tab)
    requires TabRule(tab).Some?
    ensures StatFor(GetStatusStats(apps), tab) == |Select(apps, TabRule(tab).value)|
  {
  }

  // ----- overdue -----

  /** The applicants whose next action is overdue at `now`, in list order. */
  function OverdueApplicants(apps: seq<Applicant>, now: Timestamp): (r: seq<Applicant>)
    ensures |r| <= |apps|
    ensures forall a :: a in r <==> a in apps && ApplicantCard.IsOverdue(a.nextActionDue, now)
    ensures forall a {:trigger multiset(r)[a]} ::
      multiset(r)[a] == if ApplicantCard.IsOverdue(a.nextActionDue, now) then multiset(apps)[a] else 0
  {
    if apps == [] then []
    else
      assert apps == [apps[0]] + apps[1..];
      (if ApplicantCard.IsOverdue(apps[0].nextActionDue, now) then [apps[0]] else [])
      + OverdueApplicants(apps[1..], now)
  }

  /** The positions in the list of the applicants overdue at `now`. */
  ghost function OverduePositions(apps: seq<Applicant>, now: Timestamp): set<nat>
  {
    set i: nat | i < |apps| && ApplicantCard.IsOverdue(apps[i].nextActionDue, now)
  }

  /** Every position moved one place on. */
  ghost function Shifted(positions: set<nat>): set<nat>
  {
    set i | i in positions :: i + 1
  }

  /** Moving every position below `n` one place on keeps the number of positions. */
  lemma {:induction false} ShiftedSize(positions: set<nat>, n: nat)
    requires forall i :: i in positions ==> i < n
    ensures |Shifted(positions)| == |positions|
    decreases n
  {
    if n == 0 {
      assert positions == {};
      assert Shifted(positions) == {};
    } else if n - 1 in positions {
      var lower := positions - {n - 1};
      ShiftedSize(lower, n - 1);
      ShiftedAddsOne(lower, n - 1);
      assert positions == lower + {n - 1};
    } else {
      ShiftedSize(positions, n - 1);
    }
  }

  /** Adding a position above all others adds its successor to the shifted set. */
  lemma ShiftedAddsOne(positions: set<nat>, top: nat)
    requires forall i :: i in positions ==> i < top
    ensures Shifted(positions + {top}) == Shifted(positions) + {top + 1}
    ensures top + 1 !in Shifted(positions)
  {
    forall j | j in Shifted(positions + {top}) ensures j in Shifted(positions) + {top + 1} {
      assert j - 1 in positions + {top};
    }
  }

  /** The overdue positions after the first are those of the rest of the
      list, each moved one place on. */
  lemma OverduePositionsAfterFirst(apps: seq<Applicant>, now: Timestamp)
    requires apps != []
    ensures OverduePositions(apps, now) - {0} == Shifted(OverduePositions(apps[1..], now))
  {
    var tail := OverduePositions(apps[1..], now);
    forall i | i in OverduePositions(apps, now) - {0} ensures i in Shifted(tail) {
      assert apps[1..][i - 1] == apps[i];
      assert i - 1 in tail;
    }
    forall i | i in Shifted(tail) ensures i in OverduePositions(apps, now) - {0} {
      assert apps[1..][i - 1] == apps[i];
    }
  }

  /** The overdue filter holds one entry per overdue position of the list. */
  lemma {:induction false} OverdueApplicantsCountPositions(apps: seq<Applicant>, now: Timestamp)
    ensures |OverdueApplicants(apps, now)| == |OverduePositions(apps, now)|
    decreases |apps|
  {
    if apps == [] {
      assert OverduePositions(apps, now) == {};
    } else {
      var positions := OverduePositions(apps, now);
      var tail := OverduePositions(apps[1..], now);
      OverdueApplicantsCountPositions(apps[1..], now);
      ShiftedSize(tail, |apps| - 1);
      OverduePositionsAfterFirst(apps, now);
      if ApplicantCard.IsOverdue(apps[0].nextActionDue, now) {
        assert positions == (positions - {0}) + {0};
      } else {
        assert positions == positions - {0};
      }
    }
  }

  /** The overdue filter keeps the applicants in their original relative order. */
  lemma {:induction false} OverdueApplicantsInOrder(apps: seq<Applicant>, now: Timestamp)
    ensures Lists.IsSubsequence(OverdueApplicants(apps, now), apps)
    decreases |apps|
  {
    if apps != [] {
      OverdueApplicantsInOrder(apps[1..], now);
      var r := OverdueApplicants(apps, now);
      if ApplicantCard.IsOverdue(apps[0].nextActionDue, now) {
        assert r[0] == apps[0] && r[1..] == OverdueApplicants(apps[1..], now);
      } else if r != [] {
        assert r == OverdueApplicants(apps[1..], now);
      }
    }
  }

  /** The overdue count the mount effect computes: the number of positions
      in the list holding an applicant overdue at `now`, so at most the
      number of applicants, and zero exactly when nobody is overdue. */
  function OverdueCount(apps: seq<Applicant>, now: Timestamp): (count: nat)
    ensures count == |OverduePositions(apps, now)|
    ensures count <= |apps|
    ensures count == 0 <==> forall a :: a in apps ==> !ApplicantCard.IsOverdue(a.nextActionDue, now)
  {
    var overdue := OverdueApplicants(apps, now);
    OverdueApplicantsCountPositions(apps, now);
    assert overdue != [] ==> overdue[0] in overdue;
    |overdue|
  }

  /** An applicant without a due date is never counted as overdue. */
  lemma NoDueDateNeverOverdue(apps: seq<Applicant>, now: Timestamp, a: Applicant)
    requires a.nextActionDue.None?
    ensures a !in OverdueApplicants(apps, now)
  {
  }

  /** The overdue count never falls as time goes on. */
  lemma {:induction false} OverdueCountMonotone(apps: seq<Applicant>, now1: Timestamp, now2: Timestamp)
    requires now1 <= now2
    ensures OverdueCount(apps, now1) <= OverdueCount(apps, now2)
    decreases |apps|
  {
    if apps != [] {
      OverdueCountMonotone(apps[1..], now1, now2);
      ApplicantCard.OverdueStaysOverdue(apps[0].nextActionDue, now1, now2);
    }
  }

  /** Computed later, the alert bar would be at least as alarming. */
  lemma AlertNeverEasesOverTime(apps: seq<Applicant>, now1: Timestamp, now2: Timestamp)
    requires now1 <= now2
    ensures AlertBar.BannerLevel(AlertBar.RenderAlertBar(OverdueCount(apps, now1)))
         <= AlertBar.BannerLevel(AlertBar.RenderAlertBar(OverdueCount(apps, now2)))
  {
    OverdueCountMonotone(apps, now1, now2);
    AlertBar.BannerMonotone(OverdueCount(apps, now1), OverdueCount(apps, now2));
  }

  /** A submitted application lands in the compliance column exactly when
      it came with both a licence and a bond. */
  lemma SubmittedStatusPlacement(apps: seq<Applicant>, a: Applicant, form: ApplicationForm.FormData)
    requires a in apps && a.status == ApplicationForm.InitialStatus(form)
    ensures a in PipelineView.StageApplicants(apps, "compliance_verification")
            <==> form.hasPaLicense && form.hasBond
  {
  }

  /** Otherwise its status, `other_roles_review`, puts it on no column of
      the board ... */
  lemma OtherRolesReviewOffBoard(apps: seq<Applicant>, a: Applicant, stage: PipelineView.Stage)
    requires a.status == "other_roles_review"
    ensures a !in PipelineView.StageApplicants(apps, PipelineView.StageId(stage))
  {
    PipelineView.OffBoardStatus(apps, stage, a);
  }

  /** ... and under no overview count. */
  lemma OtherRolesReviewUncounted(status: string, i: int)
    requires status == "other_roles_review" && 0 <= i < |StatRules|
    ensures !Matches(StatRules[i], status)
  {
    if i == 3 {
      NonInterviewStatuses(status);
    } else {
      // every exact-match count is for a status of another length
      assert |status| == 18;
      assert StatRules[i].Exact? && |StatRules[i].id| != 18;
    }
  }

  // ----- the dashboard's state -----

  class Dashboard {
    var activeTab: Tab
    var showApplicationForm: bool
    var applicants: seq<Applicant>
    var overdueCount: nat

    constructor ()
      ensures activeTab == Overview && !showApplicationForm
      ensures applicants == [] && overdueCount == 0
    {
      activeTab := Overview;
      showApplicationForm := false;
      applicants := [];
      overdueCount := 0;
    }

    /** The counts shown above the tabs. */
    function Stats(): (stats: StatusStats)
      reads this
      ensures StatsTotal(stats) <= |applicants|
    {
      GetStatusStats(applicants)
    }

    /** The mount effect: load the applicants and count those overdue at `now`. */
    method Mount(loaded: seq<Applicant>, now: Timestamp)
      modifies this
      ensures applicants == loaded
      ensures overdueCount == OverdueCount(loaded, now)
      ensures activeTab == old(activeTab) && showApplicationForm == old(showApplicationForm)
    {
      applicants := loaded;
      overdueCount := OverdueCount(loaded, now);
    }

    method SetActiveTab(tab: Tab)
      modifies this
      ensures activeTab == tab
      ensures applicants == old(applicants) && overdueCount == old(overdueCount)
      ensures showApplicationForm == old(showApplicationForm)
    {
      activeTab := tab;
    }

    /** The "New Application" button. */
    method OpenApplicationForm()
      modifies this
      ensures showApplicationForm
      ensures applicants == old(applicants) && overdueCount == old(overdueCount) && activeTab == old(activeTab)
    {
      showApplicationForm := true;
    }

    /** The form's `onClose`. */
    method CloseApplicationForm()
      modifies this
      ensures !showApplicationForm
      ensures applicants == old(applicants) && overdueCount == old(overdueCount) && activeTab == old(activeTab)
    {
      showApplicationForm := false;
    }

    /** The form's `onSubmit`: the form closes and the list of applicants is
        left as it was. */
    method SubmitApplication(submission: ApplicationForm.Submission)
      modifies this
      ensures !showApplicationForm
      ensures applicants == old(applicants) && overdueCount == old(overdueCount) && activeTab == old(activeTab)
    {
      showApplicationForm := false;
    }
  }

  // ----- the development data -----

  /** The three applicants the mount effect loads, with their times in
      milliseconds since the epoch (UTC). */
  const MockApplicants: seq<Applicant> := [
    Applicant("1", "John", "Smith", "john.smith@example.com", "(555) 123-4567",
              "application_submitted", true, true, Some("FL"),
              Some(1737626400000), 1737448200000, Some(["Wind", "Flood"]), Some(["South Florida"])),
    Applicant("2", "Sarah", "Johnson", "sarah.johnson@example.com", "(555) 987-6543",
              "compliance_verification", true, true, Some("TX"),
              Some(1737554400000), 1737371700000, Some(["Commercial", "Residential"]), None),
    Applicant("3", "Mike", "Williams", "mike.williams@example.com", "(555) 456-7890",
              "contract_sent", true, true, Some("GA"),
              None, 1737305100000, Some(["Wind", "Hail"]), None)]

  /** On the development data: one applicant in each of the first three
      categories and none in the others. */
  lemma MockStatsExample()
    ensures GetStatusStats(MockApplicants) == StatusStats(1, 1, 1, 0, 0, 0)
  {
    MockCount(0);
    MockCount(1);
    MockCount(2);
    MockCount(3);
    MockCount(4);
    MockCount(5);
  }

  lemma MockCount(i: int)
    requires 0 <= i < |StatRules|
    ensures |Select(MockApplicants, StatRules[i])| == if i < 3 then 1 else 0
  {
    var m := MockApplicants;
    SelectOfThree(m, StatRules[i]);
    MockMatches(m[0].status, 0, i);
    MockMatches(m[1].status, 1, i);
    MockMatches(m[2].status, 2, i);
  }

  /** The development statuses, in order, are the first three exact-match counts' ids. */
  lemma MockMatches(status: string, k: int, i: int)
    requires 0 <= k < 3 && status == MockApplicants[k].status && 0 <= i < |StatRules|
    ensures Matches(StatRules[i], status) <==> i == k
  {
    if i == 3 {
      NonInterviewStatuses(status);
    } else if i != k {
      // the statuses have lengths 21, 23 and 13, the rule ids 21, 23, 13, 19 and 8
      assert |status| == [21, 23, 13][k];
      assert |StatRules[i].id| == [21, 23, 13, 0, 19, 8][i];
    }
  }

  lemma SelectOfThree(apps: seq<Applicant>, rule: StatusRule)
    requires |apps| == 3
    ensures |Select(apps, rule)| == (if Matches(rule, apps[0].status) then 1 else 0)
      + (if Matches(rule, apps[1].status) then 1 else 0) + (if Matches(rule, apps[2].status) then 1 else 0)
  {
    assert apps[1..][1..][1..] == [];
    assert apps[1..][0] == apps[1] && apps[1..][1..][0] == apps[2];
    assert |Select(apps[1..][1..], rule)| == (if Matches(rule, apps[2].status) then 1 else 0);
    assert |Select(apps[1..], rule)| == (if Matches(rule, apps[1].status) then 1 else 0)
      + |Select(apps[1..][1..], rule)|;
  }

  /** On the development data: at 2025-01-24T00:00Z two actions are overdue
      (a warning), at 2025-01-23T00:00Z only one. */
  lemma MockOverdueExample()
    ensures OverdueCount(MockApplicants, 1737676800000) == 2
    ensures OverdueCount(MockApplicants, 1737590400000) == 1
    ensures AlertBar.RenderAlertBar(OverdueCount(MockApplicants, 1737676800000)).severity == AlertBar.Warning
  {
    var m := MockApplicants;
    assert m[1..][1..][1..] == [];
  }
}
