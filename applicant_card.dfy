/** The applicant card: the status badge lookup with its humanised fallback,
    the overdue flag, the days since the application, the truncated
    specialty list, and what the card shows for an applicant at a given time. */
module ApplicantCard {
  import opened Text
  import opened Applicants

  /** What the status badge shows: a label, a style class and an icon. */
  datatype StatusInfo = StatusInfo(text: string, color: string, icon: Icon)

  const FallbackColor: string := "bg-gray-100 text-gray-800"

  /** The eleven known statuses, with the badge each one gets. */
  const KnownStatuses: set<string> := {
    "application_submitted", "other_roles_review", "compliance_verification",
    "hr_contract_pending", "contract_sent", "hired_inactive", "ops_interview_scheduled",
    "claims_interview_scheduled", "active_not_deployed", "deployed", "rejected"}

  /** The own entries of the status table; `None` for any other string. */
  function StatusTableEntry(status: string): (e: Option<StatusInfo>)
    ensures e.Some? <==> status in KnownStatuses
  {
    match status
    case "application_submitted" => Some(StatusInfo("Application Submitted", "status-submitted", FileText))
    case "other_roles_review" => Some(StatusInfo("Other Roles Review", "status-review", User))
    case "compliance_verification" => Some(StatusInfo("Compliance Verification", "status-review", Shield))
    case "hr_contract_pending" => Some(StatusInfo("HR Contract Pending", "status-contract", FileText))
    case "contract_sent" => Some(StatusInfo("Contract Sent", "status-contract", FileText))
    case "hired_inactive" => Some(StatusInfo("Hired (Inactive)", "status-verified", CheckCircle))
    case "ops_interview_scheduled" => Some(StatusInfo("Ops Interview Scheduled", "status-interview", Calendar))
    case "claims_interview_scheduled" => Some(StatusInfo("Claims Interview Scheduled", "status-interview", Calendar))
    case "active_not_deployed" => Some(StatusInfo("Active - Not Deployed", "status-active", CheckCircle))
    case "deployed" => Some(StatusInfo("Deployed", "status-deployed", CheckCircle))
    case "rejected" => Some(StatusInfo("Rejected", "status-rejected", AlertTriangle))
    case _ => None
  }

  // ----- the humanised fallback label -----

  /** An underscore reads as a space. */
  function UnderscoreToSpace(c: char): (d: char)
    ensures d != '_'
    ensures c != '_' ==> d == c
  {
    if c == '_' then ' ' else c
  }

  /** `s.replace(/_/g, ' ')`. */
  function ReplaceUnderscores(s: string): (r: string)
    ensures |r| == |s|
    ensures forall i :: 0 <= i < |s| ==> r[i] == (if s[i] == '_' then ' ' else s[i])
  {
    if s == [] then [] else [UnderscoreToSpace(s[0])] + ReplaceUnderscores(s[1..])
  }

  /** `s.replace(/\b\w/g, l => l.toUpperCase())`, scanning left to right;
      `afterWord` says whether the character before `s` was a word character. */
  function CapitalizeWords(s: string, afterWord: bool): (r: string)
    ensures |r| == |s|
  {
    if s == [] then []
    else [if IsWordChar(s[0]) && !afterWord then ToUpperAscii(s[0]) else s[0]]
         + CapitalizeWords(s[1..], IsWordChar(s[0]))
  }

  /** The scan upper-cases exactly the characters where `\b\w` matches. */
  lemma {:induction false} CapitalizeWordsAt(s: string, afterWord: bool, i: int)
    requires 0 <= i < |s|
    ensures CapitalizeWords(s, afterWord)[i] ==
      (if IsWordChar(s[i]) && !(if i == 0 then afterWord else IsWordChar(s[i - 1]))
       then ToUpperAscii(s[i]) else s[i])
    decreases i
  {
    if i > 0 {
      CapitalizeWordsAt(s[1..], IsWordChar(s[0]), i - 1);
      assert s[1..][i - 1] == s[i];
      if i > 1 {
        assert s[1..][i - 2] == s[i - 1];
      }
    }
  }

  /** The label an unknown status gets. */
  function Humanize(status: string): (humanised: string)
    ensures |humanised| == |status|
  {
    CapitalizeWords(ReplaceUnderscores(status), false)
  }

  /** Character `i` of the fallback label: upper-cased exactly where `\b\w`
      matches once underscores read as spaces. */
  function FallbackChar(status: string, i: int): (d: char)
    requires 0 <= i < |status|
    ensures d != '_'
  {
    var c := UnderscoreToSpace(status[i]);
    if IsWordChar(c) && (i == 0 || !IsWordChar(UnderscoreToSpace(status[i - 1]))) then ToUpperAscii(c) else c
  }

  /** Reference definition of the fallback label, character by character. */
  function FallbackLabel(status: string): (fallback: string)
    ensures |fallback| == |status|
  {
    seq(|status|, i requires 0 <= i < |status| => FallbackChar(status, i))
  }

  /** The two `replace` passes compute the reference label. */
  lemma HumanizeIsFallbackLabel(status: string)
    ensures Humanize(status) == FallbackLabel(status)
  {
    var t := ReplaceUnderscores(status);
    forall i | 0 <= i < |status| ensures Humanize(status)[i] == FallbackLabel(status)[i] {
      CapitalizeWordsAt(t, false, i);
    }
  }

  /** The fallback label keeps the length of the status and has no underscore. */
  lemma FallbackLabelShape(status: string)
    ensures |Humanize(status)| == |status|
    ensures '_' !in Humanize(status)
  {
    HumanizeIsFallbackLabel(status);
  }

  /** Character by character, the reference label is its own label. */
  lemma FallbackCharFixed(status: string, i: int)
    requires 0 <= i < |status|
    ensures FallbackChar(FallbackLabel(status), i) == FallbackLabel(status)[i]
  {
    var h := FallbackLabel(status);
    assert h[i] == FallbackChar(status, i);
    assert IsWordChar(h[i]) == IsWordChar(UnderscoreToSpace(status[i]));
    if i > 0 {
      assert h[i - 1] == FallbackChar(status, i - 1);
      assert IsWordChar(h[i - 1]) == IsWordChar(UnderscoreToSpace(status[i - 1]));
    }
  }

  /** Humanising a humanised label changes nothing. */
  lemma HumanizeIdempotent(status: string)
    ensures Humanize(Humanize(status)) == Humanize(status)
  {
    var h := Humanize(status);
    HumanizeIsFallbackLabel(status);
    HumanizeIsFallbackLabel(h);
    forall i | 0 <= i < |h| ensures FallbackChar(h, i) == h[i] {
      FallbackCharFixed(status, i);
    }
    assert FallbackLabel(h) == h;
  }

  /** An example: `some_unknown_status` reads "Some Unknown Status". */
  lemma FallbackLabelExample()
    ensures FallbackLabel("some_unknown_status") == "Some Unknown Status"
    ensures FallbackLabel("constructor") == "Constructor"
  {
  }

  // ----- the status badge -----

  /** The badge for a status: the table entry if there is one, else the
      humanised label in grey with the User icon. Looks only at the table's
      own entries (see `GetStatusInfoAsWritten` for the lookup as written). */
  function GetStatusInfo(status: string): (info: StatusInfo)
    ensures status in KnownStatuses ==> Some(info) == StatusTableEntry(status)
    ensures status !in KnownStatuses ==>
      info == StatusInfo(Humanize(status), FallbackColor, User)
  {
    match StatusTableEntry(status)
    case Some(e) => e
    case None => StatusInfo(Humanize(status), FallbackColor, User)
  }

  /** Known statuses never get the grey fallback style; unknown ones always do. */
  lemma FallbackStyleOnlyForUnknown(status: string)
    ensures GetStatusInfo(status).color == FallbackColor <==> status !in KnownStatuses
  {
  }

  /** Property names every plain JavaScript object inherits from `Object.prototype`. */
  const InheritedNames: set<string> := {
    "constructor", "hasOwnProperty", "isPrototypeOf", "propertyIsEnumerable",
    "toLocaleString", "toString", "valueOf", "__proto__",
    "__defineGetter__", "__defineSetter__", "__lookupGetter__", "__lookupSetter__"}

  /** The lookup as written: `statusMap[status] || fallback` on a plain object.
      An inherited name finds a truthy non-entry, so the fallback is skipped and
      the result has no label, colour or icon; `None` stands for that result. */
  function GetStatusInfoAsWritten(status: string): (r: Option<StatusInfo>)
    ensures r.None? <==> status in InheritedNames
  {
    if status in KnownStatuses then StatusTableEntry(status)
    else if status in InheritedNames then None
    else Some(StatusInfo(Humanize(status), FallbackColor, User))
  }

  /** As written, the status `constructor` yields a badge with no label or icon. */
  lemma AsWrittenConstructorHasNoBadge()
    ensures GetStatusInfoAsWritten("constructor").None?
    ensures GetStatusInfo("constructor").color == FallbackColor
  {
  }

  /** The corrected lookup differs from the written one only on inherited names. */
  lemma AsWrittenAgreesOffInheritedNames(status: string)
    requires status !in InheritedNames
    ensures GetStatusInfoAsWritten(status) == Some(GetStatusInfo(status))
  {
  }

  // ----- time -----

  const MsPerDay: int := 1000 * 60 * 60 * 24

  /** `next_action_due && new Date(next_action_due) < now`. */
  predicate IsOverdue(due: Option<Timestamp>, now: Timestamp)
  {
    due.Some? && due.value < now
  }

  /** Once overdue, an applicant stays overdue as time goes on; without a due
      date it never is. */
  lemma OverdueStaysOverdue(due: Option<Timestamp>, now1: Timestamp, now2: Timestamp)
    requires now1 <= now2
    ensures IsOverdue(due, now1) ==> IsOverdue(due, now2)
    ensures due.None? ==> !IsOverdue(due, now2)
  {
  }

  /** `Math.floor((now - createdAt) / 86400000)`: whole days elapsed, rounded
      down, negative when the creation time is in the future. */
  function DaysSinceApplied(createdAt: Timestamp, now: Timestamp): (days: int)
    ensures days * MsPerDay <= now - createdAt < (days + 1) * MsPerDay
  {
    (now - createdAt) / MsPerDay
  }

  /** The day count never decreases as time goes on. */
  lemma DaysSinceAppliedMonotone(createdAt: Timestamp, now1: Timestamp, now2: Timestamp)
    requires now1 <= now2
    ensures DaysSinceApplied(createdAt, now1) <= DaysSinceApplied(createdAt, now2)
  {
  }

  // ----- specialties -----

  /** The specialty badges: nothing when the list is absent or empty, else the
      first `limit` entries and, when some are cut, a badge counting the rest. */
  datatype SpecialtyBadges = NoSpecialties | Badges(shown: seq<string>, more: Option<nat>)

  function SpecialtyBadgesFor(specialties: Option<seq<string>>, limit: nat): (b: SpecialtyBadges)
    ensures b.NoSpecialties? <==> specialties.None? || specialties.value == []
    ensures b.Badges? ==>
      var s := specialties.value;
      && |b.shown| == (if |s| < limit then |s| else limit)
      && (forall i :: 0 <= i < |b.shown| ==> b.shown[i] == s[i])
      && (b.more.Some? <==> |s| > limit)
      && (b.more.Some? ==> b.more.value + limit == |s|)
  {
    match specialties
    case None => NoSpecialties
    case Some(s) =>
      if s == [] then NoSpecialties
      else Badges(if |s| < limit then s else s[..limit],
                  if |s| > limit then Some(|s| - limit) else None)
  }

  // ----- the card -----

  /** What the card shows: the status badge, whether the card is highlighted
      and carries the Overdue badge, the days since the application, the
      due-date line with its "(Overdue)" suffix, and the specialty badges. */
  datatype CardView = CardView(
    status: StatusInfo,
    highlighted: bool,
    overdueBadge: bool,
    daysSinceApplied: int,
    dueLine: Option<DueLine>,
    specialties: SpecialtyBadges)

  datatype DueLine = DueLine(due: Timestamp, overdueSuffix: bool)

  function RenderCard(a: Applicant, now: Timestamp): (card: CardView)
    ensures card.overdueBadge <==> IsOverdue(a.nextActionDue, now)
    ensures card.highlighted <==> card.overdueBadge
    ensures card.dueLine.Some? <==> a.nextActionDue.Some?
    ensures card.dueLine.Some? ==> (card.dueLine.value.overdueSuffix <==> card.overdueBadge)
    ensures card.overdueBadge ==> card.dueLine.Some? && card.dueLine.value.due < now
    ensures card.status == GetStatusInfo(a.status)
    ensures card.daysSinceApplied == DaysSinceApplied(a.createdAt, now)
    ensures card.specialties == SpecialtyBadgesFor(a.specialties, 3)
  {
    var overdue := IsOverdue(a.nextActionDue, now);
    CardView(
      GetStatusInfo(a.status),
      overdue,
      overdue,
      DaysSinceApplied(a.createdAt, now),
      match a.nextActionDue
      case None => None
      case Some(t) => Some(DueLine(t, overdue)),
      SpecialtyBadgesFor(a.specialties, 3))
  }
}
