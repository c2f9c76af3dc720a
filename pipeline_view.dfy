/** The pipeline board: six stages in a fixed order, each listing the
    applicants whose status belongs to it. */
module PipelineView {
  import opened Text
  import opened Applicants
  import ApplicantCard

  /** The six columns of the board. */
  datatype Stage = ApplicationSubmitted | ComplianceVerification | ContractSent
                 | InterviewPipeline | ActiveNotDeployed | Deployed

  /** The id of each stage; five of them are also status ids. */
  function StageId(stage: Stage): string
  {
    match stage
    case ApplicationSubmitted => "application_submitted"
    case ComplianceVerification => "compliance_verification"
    case ContractSent => "contract_sent"
    case InterviewPipeline => "interview_pipeline"
    case ActiveNotDeployed => "active_not_deployed"
    case Deployed => "deployed"
  }

  /** The order in which the board lays out its columns. */
  const PipelineStages: seq<Stage> :=
    [ApplicationSubmitted, ComplianceVerification, ContractSent, InterviewPipeline, ActiveNotDeployed, Deployed]

  /** The column a stage occupies on the board. */
  function StageIndex(stage: Stage): (i: nat)
    ensures i < |PipelineStages| && PipelineStages[i] == stage
  {
    match stage
    case ApplicationSubmitted => 0
    case ComplianceVerification => 1
    case ContractSent => 2
    case InterviewPipeline => 3
    case ActiveNotDeployed => 4
    case Deployed => 5
  }

  /** Every stage appears on the board exactly once. */
  lemma PipelineStagesListEachStageOnce(stage: Stage)
    ensures |PipelineStages| == 6
    ensures stage in PipelineStages
    ensures forall i, j :: 0 <= i < j < |PipelineStages| ==> PipelineStages[i] != PipelineStages[j]
  {
  }

  /** The filter `getStageApplicants` applies for a stage id: the interview
      column takes any status mentioning "interview" and `hired_inactive`;
      any other id takes the statuses equal to it. */
  function StageRule(stageId: string): StatusRule
  {
    if stageId == "interview_pipeline" then InterviewOrHired else Exact(stageId)
  }

  /** `getStageApplicants(stageId)`: for the interview pipeline, the applicants
      whose status mentions "interview" or is `hired_inactive`; for any other
      id, those whose status is that id. */
  function StageApplicants(apps: seq<Applicant>, stageId: string): (inStage: seq<Applicant>)
    ensures |inStage| <= |apps|
    ensures forall a :: a in inStage <==> (a in apps &&
      if stageId == "interview_pipeline" then Contains(a.status, "interview") || a.status == "hired_inactive"
      else a.status == stageId)
    ensures forall a {:trigger multiset(inStage)[a]} ::
      multiset(inStage)[a] == if (if stageId == "interview_pipeline"
                                  then Contains(a.status, "interview") || a.status == "hired_inactive"
                                  else a.status == stageId)
                              then multiset(apps)[a] else 0
  {
    Select(apps, StageRule(stageId))
  }

  /** Each column keeps its applicants in their original relative order. */
  lemma StageApplicantsInOrder(apps: seq<Applicant>, stage: Stage)
    ensures Lists.IsSubsequence(StageApplicants(apps, StageId(stage)), apps)
  {
    SelectIsSubsequence(apps, StageRule(StageId(stage)));
  }

  /** The six stage rules, in board order. */
  function BoardRules(): (rules: seq<StatusRule>)
    ensures |rules| == |PipelineStages|
  {
    seq(|PipelineStages|, i requires 0 <= i < |PipelineStages| => StageRule(StageId(PipelineStages[i])))
  }

  /** No status belongs to two stages. */
  lemma BoardRulesExclusive()
    ensures Exclusive(BoardRules())
  {
    var rules := BoardRules();
    forall status: string, i, j | 0 <= i < j < |rules| && Matches(rules[i], status)
      ensures !Matches(rules[j], status)
    {
      if rules[i] == InterviewOrHired || rules[j] == InterviewOrHired {
        var other := if rules[i] == InterviewOrHired then rules[j] else rules[i];
        if Matches(other, status) {
          NonInterviewStatuses(status);
        }
      }
    }
  }

  /** An applicant sits in at most one column. */
  lemma ColumnsDisjoint(apps: seq<Applicant>, s1: Stage, s2: Stage, a: Applicant)
    requires s1 != s2
    ensures !(a in StageApplicants(apps, StageId(s1)) && a in StageApplicants(apps, StageId(s2)))
  {
    BoardRulesExclusive();
    var rules := BoardRules();
    var i, j := StageIndex(s1), StageIndex(s2);
    assert a in StageApplicants(apps, StageId(s1)) <==> a in apps && Matches(rules[i], a.status);
    assert a in StageApplicants(apps, StageId(s2)) <==> a in apps && Matches(rules[j], a.status);
  }

  /** The sum of the six column sizes. */
  function BoardTotal(apps: seq<Applicant>): nat
  {
    TotalSelected(apps, BoardRules())
  }

  /** The columns together hold at most the applicants given to the board. */
  lemma BoardTotalBounded(apps: seq<Applicant>)
    ensures BoardTotal(apps) <= |apps|
  {
    BoardRulesExclusive();
    ExclusiveSelectionsBound(apps, BoardRules());
  }

  /** The columns hold every applicant given to the board exactly when each
      applicant's status belongs to some stage. */
  lemma BoardTotalCoversAll(apps: seq<Applicant>)
    ensures BoardTotal(apps) == |apps| <==>
      forall a :: a in apps ==> exists stage :: Matches(StageRule(StageId(stage)), a.status)
  {
    var rules := BoardRules();
    BoardRulesExclusive();
    ExclusiveSelectionsCover(apps, rules);
    forall a | a in apps
      ensures MatchCount(rules, a.status) > 0 <==> exists stage :: Matches(StageRule(StageId(stage)), a.status)
    {
      MatchCountPositive(rules, a.status);
      if exists stage :: Matches(StageRule(StageId(stage)), a.status) {
        var stage :| Matches(StageRule(StageId(stage)), a.status);
        assert Matches(rules[StageIndex(stage)], a.status);
      }
    }
  }

  /** The three known statuses that belong to no stage, `other_roles_review`,
      `hr_contract_pending` and `rejected`, appear in no column. */
  lemma OffBoardStatus(apps: seq<Applicant>, stage: Stage, a: Applicant)
    requires a.status in {"other_roles_review", "hr_contract_pending", "rejected"}
    ensures a !in StageApplicants(apps, StageId(stage))
  {
    NonInterviewStatuses(a.status);
    assert !Matches(StageRule(StageId(stage)), a.status);
  }

  // ----- the rendered board -----

  /** One column: its stage, its applicants, the count on its badge, whether
      it shows the "No applicants in this stage" placeholder, and the
      specialty badges of each item (first two and a "+n" overflow). */
  datatype Column = Column(
    stage: Stage,
    applicants: seq<Applicant>,
    badgeCount: nat,
    placeholder: bool,
    itemSpecialties: seq<ApplicantCard.SpecialtyBadges>)

  function RenderColumn(apps: seq<Applicant>, stage: Stage): (col: Column)
    ensures col.stage == stage
    ensures col.applicants == StageApplicants(apps, StageId(stage))
    ensures col.badgeCount == |col.applicants|
    ensures col.placeholder <==> col.applicants == []
    ensures |col.itemSpecialties| == |col.applicants|
    ensures forall i :: 0 <= i < |col.applicants| ==>
      col.itemSpecialties[i] == ApplicantCard.SpecialtyBadgesFor(col.applicants[i].specialties, 2)
  {
    var inStage := StageApplicants(apps, StageId(stage));
    Column(stage, inStage, |inStage|, |inStage| == 0,
           seq(|inStage|, i requires 0 <= i < |inStage| =>
             ApplicantCard.SpecialtyBadgesFor(inStage[i].specialties, 2)))
  }

  /** The board: one column per stage, in the fixed stage order. */
  function RenderBoard(apps: seq<Applicant>): (board: seq<Column>)
    ensures |board| == |PipelineStages|
    ensures forall i :: 0 <= i < |board| ==> board[i] == RenderColumn(apps, PipelineStages[i])
  {
    seq(|PipelineStages|, i requires 0 <= i < |PipelineStages| => RenderColumn(apps, PipelineStages[i]))
  }
}
