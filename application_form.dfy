/** The five-step application wizard: the form data, per-step validation,
    step navigation, the specialty toggle, and the submission it hands to
    the dashboard. */
module ApplicationForm {
  import opened Applicants
  import opened Lists

  /** The form's fields, all starting empty or false. */
  datatype FormData = FormData(
    firstName: string, lastName: string, email: string, phone: string,
    address: string, city: string, state: string, zip: string,
    hasPaLicense: bool, licenseNumber: string, licenseState: string, licenseExpiry: string,
    hasBond: bool, bondNumber: string, bondAmount: string, bondExpiry: string,
    specialties: seq<string>, source: string, notes: string)

  const EmptyForm: FormData :=
    FormData("", "", "", "", "", "", "", "", false, "", "", "", false, "", "", "", [], "", "")

  /** The names `handleInputChange` is called with (`keyof FormData`). */
  datatype Field =
    | FirstName | LastName | Email | Phone
    | Address | City | State | Zip
    | HasPaLicense | LicenseNumber | LicenseState | LicenseExpiry
    | HasBond | BondNumber | BondAmount | BondExpiry
    | Specialties | Source | Notes

  /** A value stored in a field. */
  datatype FieldValue = Text(s: string) | Flag(b: bool) | Tags(items: seq<string>)

  /** The kind of value each field holds; every caller passes a value of that kind. */
  predicate Fits(f: Field, v: FieldValue)
  {
    match f
    case HasPaLicense | HasBond => v.Flag?
    case Specialties => v.Tags?
    case _ => v.Text?
  }

  function FieldOf(d: FormData, f: Field): (v: FieldValue)
    ensures Fits(f, v)
  {
    match f
    case FirstName => Text(d.firstName)
    case LastName => Text(d.lastName)
    case Email => Text(d.email)
    case Phone => Text(d.phone)
    case Address => Text(d.address)
    case City => Text(d.city)
    case State => Text(d.state)
    case Zip => Text(d.zip)
    case HasPaLicense => Flag(d.hasPaLicense)
    case LicenseNumber => Text(d.licenseNumber)
    case LicenseState => Text(d.licenseState)
    case LicenseExpiry => Text(d.licenseExpiry)
    case HasBond => Flag(d.hasBond)
    case BondNumber => Text(d.bondNumber)
    case BondAmount => Text(d.bondAmount)
    case BondExpiry => Text(d.bondExpiry)
    case Specialties => Tags(d.specialties)
    case Source => Text(d.source)
    case Notes => Text(d.notes)
  }

  /** `{ ...prev, [field]: value }`: the named field takes the value and no
      other field changes. */
  function WithField(d: FormData, f: Field, v: FieldValue): (r: FormData)
    requires Fits(f, v)
    ensures FieldOf(r, f) == v
    ensures forall g :: g != f ==> FieldOf(r, g) == FieldOf(d, g)
  {
    match f
    case FirstName => d.(firstName := v.s)
    case LastName => d.(lastName := v.s)
    case Email => d.(email := v.s)
    case Phone => d.(phone := v.s)
    case Address => d.(address := v.s)
    case City => d.(city := v.s)
    case State => d.(state := v.s)
    case Zip => d.(zip := v.s)
    case HasPaLicense => d.(hasPaLicense := v.b)
    case LicenseNumber => d.(licenseNumber := v.s)
    case LicenseState => d.(licenseState := v.s)
    case LicenseExpiry => d.(licenseExpiry := v.s)
    case HasBond => d.(hasBond := v.b)
    case BondNumber => d.(bondNumber := v.s)
    case BondAmount => d.(bondAmount := v.s)
    case BondExpiry => d.(bondExpiry := v.s)
    case Specialties => d.(specialties := v.items)
    case Source => d.(source := v.s)
    case Notes => d.(notes := v.s)
  }

  // ----- validation -----

  /** The step whose screen shows the input for a field. */
  function FieldStep(f: Field): (step: int)
    ensures 1 <= step <= 5
  {
    match f
    case FirstName | LastName | Email | Phone => 1
    case Address | City | State | Zip => 2
    case HasPaLicense | LicenseNumber | LicenseState | LicenseExpiry => 3
    case HasBond | BondNumber | BondAmount | BondExpiry => 4
    case Specialties | Source | Notes => 5
  }

  /** Whether a text field must be filled in: the personal and address fields
      always, the licence details only with a licence, the bond details only
      with a bond. */
  predicate Required(d: FormData, f: Field)
  {
    match f
    case FirstName | LastName | Email | Phone | Address | City | State | Zip => true
    case LicenseNumber | LicenseState | LicenseExpiry => d.hasPaLicense
    case BondNumber | BondAmount | BondExpiry => d.hasBond
    case _ => false
  }

  /** `validateStep(step)`, a JavaScript string being truthy when non-empty:
      a step validates exactly when every field required on its screen is
      filled in; steps with no required field (5, and any number outside
      1..4) always validate. */
  function ValidateStep(d: FormData, step: int): (ok: bool)
    ensures ok <==> forall f :: FieldStep(f) == step && Required(d, f) ==> FieldOf(d, f) != Text("")
  {
    match step
    case 1 => FilledIn(d, FirstName) && FilledIn(d, LastName) && FilledIn(d, Email) && FilledIn(d, Phone)
    case 2 => FilledIn(d, Address) && FilledIn(d, City) && FilledIn(d, State) && FilledIn(d, Zip)
    case 3 => !d.hasPaLicense ||
      (FilledIn(d, LicenseNumber) && FilledIn(d, LicenseState) && FilledIn(d, LicenseExpiry))
    case 4 => !d.hasBond ||
      (FilledIn(d, BondNumber) && FilledIn(d, BondAmount) && FilledIn(d, BondExpiry))
    case _ => true
  }

  /** A text field holds a non-empty string. */
  predicate FilledIn(d: FormData, f: Field)
  {
    FieldOf(d, f) != Text("")
  }

  /** Changing a field can change the verdict of its own step only. */
  lemma EditKeepsOtherSteps(d: FormData, f: Field, v: FieldValue, step: int)
    requires Fits(f, v) && step != FieldStep(f)
    ensures ValidateStep(WithField(d, f, v), step) == ValidateStep(d, step)
  {
  }

  // ----- specialties -----

  /** `handleSpecialtyToggle`: remove the specialty if it is listed, else
      append it. */
  function ToggleSpecialty(specialties: seq<string>, s: string): (r: seq<string>)
    ensures s in r <==> s !in specialties
    ensures forall t :: t != s ==> (t in r <==> t in specialties)
    ensures forall t {:trigger multiset(r)[t]} :: t != s ==> multiset(r)[t] == multiset(specialties)[t]
    ensures s !in specialties ==> r == specialties + [s]
    ensures s in specialties ==> IsSubsequence(r, specialties)
  {
    if s in specialties then
      RemoveAllIsSubsequence(specialties, s);
      RemoveAll(specialties, s)
    else specialties + [s]
  }

  /** Toggling a specialty that was not chosen, twice, restores the list. */
  lemma ToggleTwiceRestores(specialties: seq<string>, s: string)
    requires s !in specialties
    ensures ToggleSpecialty(ToggleSpecialty(specialties, s), s) == specialties
  {
    RemoveAllAppended(specialties, s);
  }

  // ----- submission -----

  /** The record handed to `onSubmit`: the form, the initial status and the creation time. */
  datatype Submission = Submission(form: FormData, status: string, createdAt: Timestamp)

  /** The initial status: `compliance_verification` with both a licence and a
      bond, `other_roles_review` otherwise. */
  function InitialStatus(d: FormData): (status: string)
    ensures status == "compliance_verification" <==> d.hasPaLicense && d.hasBond
    ensures status == "other_roles_review" <==> !(d.hasPaLicense && d.hasBond)
  {
    if d.hasPaLicense && d.hasBond then "compliance_verification" else "other_roles_review"
  }

  function BuildSubmission(d: FormData, now: Timestamp): (sub: Submission)
    ensures sub.form == d && sub.createdAt == now
    ensures sub.status == InitialStatus(d)
  {
    Submission(d, InitialStatus(d), now)
  }

  // ----- the wizard -----

  /** The wizard's state: the form data and the step on screen. */
  class Wizard {
    var formData: FormData
    var currentStep: int

    /** The step is within 1..5, and every step before it validates: the
        wizard moves forward only past a valid step, and a field can be
        edited only on its own step. */
    ghost predicate Valid()
      reads this
    {
      1 <= currentStep <= 5 &&
      forall k :: 1 <= k < currentStep ==> ValidateStep(formData, k)
    }

    constructor ()
      ensures Valid()
      ensures formData == EmptyForm && currentStep == 1
    {
      formData := EmptyForm;
      currentStep := 1;
    }

    /** `handleInputChange(field, value)`, from the input on the field's own step. */
    method HandleInputChange(f: Field, v: FieldValue)
      requires Valid() && Fits(f, v) && FieldStep(f) == currentStep
      modifies this
      ensures Valid()
      ensures formData == WithField(old(formData), f, v)
      ensures currentStep == old(currentStep)
    {
      forall k | 1 <= k < currentStep ensures ValidateStep(WithField(formData, f, v), k) {
        EditKeepsOtherSteps(formData, f, v, k);
      }
      formData := WithField(formData, f, v);
    }

    /** `handleSpecialtyToggle(specialty)`, from the last step. */
    method HandleSpecialtyToggle(s: string)
      requires Valid() && currentStep == 5
      modifies this
      ensures Valid()
      ensures formData == old(formData).(specialties := ToggleSpecialty(old(formData).specialties, s))
      ensures currentStep == old(currentStep)
    {
      var v := Tags(ToggleSpecialty(formData.specialties, s));
      forall k | 1 <= k < currentStep ensures ValidateStep(WithField(formData, Specialties, v), k) {
        EditKeepsOtherSteps(formData, Specialties, v, k);
      }
      formData := WithField(formData, Specialties, v);
    }

    /** `handleNext`, offered while the step is below 5: advance by one if
        the current step validates, else stay. */
    method HandleNext()
      requires Valid() && currentStep < 5
      modifies this
      ensures Valid()
      ensures formData == old(formData)
      ensures currentStep == if ValidateStep(formData, old(currentStep)) then old(currentStep) + 1 else old(currentStep)
    {
      if ValidateStep(formData, currentStep) {
        currentStep := currentStep + 1;
      }
    }

    /** The Previous button, disabled on step 1: go back one step. */
    method HandlePrevious()
      requires Valid() && currentStep > 1
      modifies this
      ensures Valid()
      ensures formData == old(formData)
      ensures currentStep == old(currentStep) - 1
    {
      currentStep := currentStep - 1;
    }

    /** `handleSubmit`, from the last step: the submission carries the form
        and its derived status, and every step of the form validates. */
    method HandleSubmit(now: Timestamp) returns (sub: Submission)
      requires Valid() && currentStep == 5
      ensures sub == BuildSubmission(formData, now)
      ensures forall k :: 1 <= k <= 4 ==> ValidateStep(sub.form, k)
    {
      sub := BuildSubmission(formData, now);
    }
  }
}
