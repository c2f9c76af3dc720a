/** The applicant record shared by the dashboard, the pipeline board and the
    applicant card, and the status filters those views apply to a list of
    applicants. */
module Applicants {
  import opened Text
  import opened Lists

  datatype Option<T> = None | Some(value: T)

  /** A point in time, in milliseconds since the Unix epoch. */
  type Timestamp = int

  /** The icons the views draw, as an enumeration rather than components. */
  datatype Icon = FileText | User | Shield | CheckCircle | Calendar | AlertTriangle | Clock | AlertCircle

  /** One applicant. Optional fields of the source record are `Option`s;
      an absent or empty `next_action_due` is `None`. */
  datatype Applicant = Applicant(
    id: string,
    firstName: string,
    lastName: string,
    email: string,
    phone: string,
    status: string,
    hasPaLicense: bool,
    hasBond: bool,
    licenseState: Option<string>,
    nextActionDue: Option<Timestamp>,
    createdAt: Timestamp,
    specialties: Option<seq<string>>,
    deploymentRegion: Option<seq<string>>)

  /** The three shapes of status test the views filter by: equality with a
      status id, `status.includes('interview')`, and the interview stage's
      `includes('interview') || status === 'hired_inactive'`. */
  datatype StatusRule = Exact(id: string) | MentionsInterview | InterviewOrHired

  predicate Matches(rule: StatusRule, status: string)
  {
    match rule
    case Exact(id) => status == id
    case MentionsInterview => Contains(status, "interview")
    case InterviewOrHired => Contains(status, "interview") || status == "hired_inactive"
  }

  /** `applicants.filter(a => <rule holds of a.status>)`: an applicant is
      selected exactly when it is in the list and its status passes the rule,
      and every copy of a selected applicant is kept. */
  function Select(apps: seq<Applicant>, rule: StatusRule): (r: seq<Applicant>)
    ensures |r| <= |apps|
    ensures forall a :: a in r <==> a in apps && Matches(rule, a.status)
    ensures forall a {:trigger multiset(r)[a]} :: multiset(r)[a] == if Matches(rule, a.status) then multiset(apps)[a] else 0
  {
    if apps == [] then []
    else
      assert apps == [apps[0]] + apps[1..];
      (if Matches(rule, apps[0].status) then [apps[0]] else []) + Select(apps[1..], rule)
  }

  /** Selection keeps the selected applicants in their original relative order. */
  lemma {:induction false} SelectIsSubsequence(apps: seq<Applicant>, rule: StatusRule)
    ensures IsSubsequence(Select(apps, rule), apps)
    decreases |apps|
  {
    if apps != [] {
      SelectIsSubsequence(apps[1..], rule);
      var r := Select(apps, rule);
      if Matches(rule, apps[0].status) {
        assert r[0] == apps[0] && r[1..] == Select(apps[1..], rule);
      } else if r != [] {
        assert r == Select(apps[1..], rule);
      }
    }
  }

  /** Of the eleven known statuses, only the two interview ones contain
      "interview": the others all lack a 'w', except "other_roles_review",
      which lacks an 'n'. */
  lemma NonInterviewStatuses(status: string)
    requires status in {"application_submitted", "other_roles_review", "compliance_verification",
                        "hr_contract_pending", "contract_sent", "hired_inactive",
                        "active_not_deployed", "deployed", "rejected"}
    ensures !Contains(status, "interview")
  {
    MissingCharExcludes(status, "interview", if status == "other_roles_review" then 'n' else 'w');
  }

  // ----- disjoint rules and the sizes of their selections -----

  /** No status passes two different rules of the list. */
  ghost predicate Exclusive(rules: seq<StatusRule>)
  {
    forall status: string, i, j :: 0 <= i < j < |rules| && Matches(rules[i], status) ==> !Matches(rules[j], status)
  }

  /** How many rules of the list a status passes. */
  function MatchCount(rules: seq<StatusRule>, status: string): nat
  {
    if rules == [] then 0
    else (if Matches(rules[0], status) then 1 else 0) + MatchCount(rules[1..], status)
  }

  /** The sum, over the rules, of the sizes of their selections. */
  function TotalSelected(apps: seq<Applicant>, rules: seq<StatusRule>): nat
  {
    if rules == [] then 0 else |Select(apps, rules[0])| + TotalSelected(apps, rules[1..])
  }

  lemma {:induction false} TotalSelectedSplit(apps: seq<Applicant>, rules: seq<StatusRule>)
    requires apps != []
    ensures TotalSelected(apps, rules) == TotalSelected(apps[1..], rules) + MatchCount(rules, apps[0].status)
    decreases |rules|
  {
    if rules != [] {
      TotalSelectedSplit(apps, rules[1..]);
    }
  }

  lemma {:induction false} AtMostOneMatch(rules: seq<StatusRule>, status: string)
    requires Exclusive(rules)
    ensures MatchCount(rules, status) <= 1
    decreases |rules|
  {
    if rules != [] {
      assert Exclusive(rules[1..]) by {
        forall st: string, i, j | 0 <= i < j < |rules[1..]| && Matches(rules[1..][i], st)
          ensures !Matches(rules[1..][j], st)
        {
          assert rules[1..][i] == rules[i + 1] && rules[1..][j] == rules[j + 1];
        }
      }
      AtMostOneMatch(rules[1..], status);
      if Matches(rules[0], status) {
        forall j | 0 <= j < |rules[1..]| ensures !Matches(rules[1..][j], status) {
          assert rules[1..][j] == rules[j + 1];
        }
        NoneMatch(rules[1..], status);
      }
    }
  }

  lemma {:induction false} NoneMatch(rules: seq<StatusRule>, status: string)
    requires forall j :: 0 <= j < |rules| ==> !Matches(rules[j], status)
    ensures MatchCount(rules, status) == 0
    decreases |rules|
  {
    if rules != [] {
      NoneMatch(rules[1..], status);
    }
  }

  /** Filters by mutually exclusive rules pick disjoint sets of applicants,
      so their sizes add up to at most the length of the list. */
  lemma {:induction false} ExclusiveSelectionsBound(apps: seq<Applicant>, rules: seq<StatusRule>)
    requires Exclusive(rules)
    ensures TotalSelected(apps, rules) <= |apps|
    decreases |apps|
  {
    if apps == [] {
      EmptyTotal(rules);
    } else {
      TotalSelectedSplit(apps, rules);
      AtMostOneMatch(rules, apps[0].status);
      ExclusiveSelectionsBound(apps[1..], rules);
    }
  }

  /** With mutually exclusive rules, the sizes add up to the length of the
      list exactly when every applicant passes one of the rules. */
  lemma {:induction false} ExclusiveSelectionsCover(apps: seq<Applicant>, rules: seq<StatusRule>)
    requires Exclusive(rules)
    ensures TotalSelected(apps, rules) == |apps| <==>
      forall a :: a in apps ==> MatchCount(rules, a.status) > 0
    decreases |apps|
  {
    if apps == [] {
      EmptyTotal(rules);
    } else {
      TotalSelectedSplit(apps, rules);
      AtMostOneMatch(rules, apps[0].status);
      ExclusiveSelectionsBound(apps[1..], rules);
      ExclusiveSelectionsCover(apps[1..], rules);
      assert forall a :: a in apps <==> a == apps[0] || a in apps[1..];
    }
  }

  /** A status passes some rule of the list exactly when its match count is positive. */
  lemma {:induction false} MatchCountPositive(rules: seq<StatusRule>, status: string)
    ensures MatchCount(rules, status) > 0 <==> exists i :: 0 <= i < |rules| && Matches(rules[i], status)
    decreases |rules|
  {
    if rules != [] {
      MatchCountPositive(rules[1..], status);
      if exists i :: 0 <= i < |rules| && Matches(rules[i], status) {
        var i :| 0 <= i < |rules| && Matches(rules[i], status);
        if i > 0 {
          assert rules[1..][i - 1] == rules[i];
        }
      }
      if exists i :: 0 <= i < |rules[1..]| && Matches(rules[1..][i], status) {
        var i :| 0 <= i < |rules[1..]| && Matches(rules[1..][i], status);
        assert rules[i + 1] == rules[1..][i];
      }
    }
  }

  lemma {:induction false} EmptyTotal(rules: seq<StatusRule>)
    ensures TotalSelected([], rules) == 0
    decreases |rules|
  {
    if rules != [] {
      EmptyTotal(rules[1..]);
    }
  }
}
