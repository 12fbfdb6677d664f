/**
 * The four-step resume wizard (src/pages/Profile/ResumeWizard.tsx): a step
 * counter from 1 to 4 with Back and Next/Finish, and a form record updated
 * one field at a time by the inputs of the step on screen. Finishing hands
 * the form to `onComplete`, reported here as the result of `HandleNext`.
 */
module Wizard {
  import opened Optional

  const FirstStep := 1
  const LastStep := 4

  /** `educationOptions`: the choices offered on step 3. */
  const EducationOptions: seq<string> := [
    "High School", "Vocational", "Incomplete Higher", "Higher",
    "Bachelor's", "Master's", "PhD", "Doctor of Sciences"
  ]

  datatype FormData = FormData(
    name: string, surname: string, email: string, dateOfBirth: string,
    country: string, city: string, gender: string, phone: string,
    profession: string, experience: string,
    education: string, institutionName: string, graduationYear: string, specialization: string,
    skills: seq<string>, contacts: string)

  /** `initialFormData`: every text empty and no skills. */
  const InitialFormData := FormData("", "", "", "", "", "", "", "", "", "", "", "", "", "", [], "")

  /** The inputs wired to `handleChange`, by their `name` attribute. The
      skills input has no `onChange` and education is chosen by buttons, so
      neither is here. */
  datatype Field =
    | Name | Surname | Email | DateOfBirth | Country | City | Gender | Phone
    | Profession | Experience
    | InstitutionName | GraduationYear | Specialization
    | Contacts

  /** The step whose screen shows the input. */
  function StepOf(f: Field): (s: int)
    ensures FirstStep <= s <= LastStep
  {
    match f
    case Name | Surname | Email | DateOfBirth | Country | City | Gender | Phone => 1
    case Profession | Experience => 2
    case InstitutionName | GraduationYear | Specialization => 3
    case Contacts => 4
  }

  function Get(d: FormData, f: Field): string {
    match f
    case Name => d.name
    case Surname => d.surname
    case Email => d.email
    case DateOfBirth => d.dateOfBirth
    case Country => d.country
    case City => d.city
    case Gender => d.gender
    case Phone => d.phone
    case Profession => d.profession
    case Experience => d.experience
    case InstitutionName => d.institutionName
    case GraduationYear => d.graduationYear
    case Specialization => d.specialization
    case Contacts => d.contacts
  }

  /** `{ ...prev, [name]: value }`. */
  function Set(d: FormData, f: Field, value: string): (r: FormData)
    ensures Get(r, f) == value
    ensures forall g :: g != f ==> Get(r, g) == Get(d, g)
    ensures r.education == d.education && r.skills == d.skills
  {
    match f
    case Name => d.(name := value)
    case Surname => d.(surname := value)
    case Email => d.(email := value)
    case DateOfBirth => d.(dateOfBirth := value)
    case Country => d.(country := value)
    case City => d.(city := value)
    case Gender => d.(gender := value)
    case Phone => d.(phone := value)
    case Profession => d.(profession := value)
    case Experience => d.(experience := value)
    case InstitutionName => d.(institutionName := value)
    case GraduationYear => d.(graduationYear := value)
    case Specialization => d.(specialization := value)
    case Contacts => d.(contacts := value)
  }

  /** A record is determined by its fields: two records that agree on every
      input, on education and on skills are equal. */
  lemma FieldsDetermine(a: FormData, b: FormData)
    requires forall f :: Get(a, f) == Get(b, f)
    requires a.education == b.education && a.skills == b.skills
    ensures a == b
  {
    assert Get(a, Name) == Get(b, Name) && Get(a, Surname) == Get(b, Surname);
    assert Get(a, Email) == Get(b, Email) && Get(a, DateOfBirth) == Get(b, DateOfBirth);
    assert Get(a, Country) == Get(b, Country) && Get(a, City) == Get(b, City);
    assert Get(a, Gender) == Get(b, Gender) && Get(a, Phone) == Get(b, Phone);
    assert Get(a, Profession) == Get(b, Profession) && Get(a, Experience) == Get(b, Experience);
    assert Get(a, InstitutionName) == Get(b, InstitutionName) && Get(a, GraduationYear) == Get(b, GraduationYear);
    assert Get(a, Specialization) == Get(b, Specialization) && Get(a, Contacts) == Get(b, Contacts);
  }

  /** Typing the value a field already holds changes nothing, and the last of
      two edits to the same field wins. */
  lemma SetLaws(d: FormData, f: Field, v: string, w: string)
    ensures Set(d, f, Get(d, f)) == d
    ensures Set(Set(d, f, v), f, w) == Set(d, f, w)
  {
    FieldsDetermine(Set(d, f, Get(d, f)), d);
    FieldsDetermine(Set(Set(d, f, v), f, w), Set(d, f, w));
  }

  /** What Next does from `step`: the following step, or None when it calls
      `onComplete` instead. */
  function NextStep(step: int): (r: Option<int>)
    ensures r.None? <==> step >= LastStep
    ensures r.Some? ==> r.value == step + 1
  {
    if step < LastStep then Some(step + 1) else None
  }

  function BackStep(step: int): (r: int)
    ensures step > FirstStep ==> r == step - 1
    ensures step <= FirstStep ==> r == step
  {
    if step > FirstStep then step - 1 else step
  }

  /** Back undoes Next on steps 1 to 3, and Next undoes Back on steps 2 to 4. */
  lemma BackUndoesNext(step: int)
    requires FirstStep <= step <= LastStep
    ensures step < LastStep ==> BackStep(NextStep(step).value) == step
    ensures step > FirstStep ==> NextStep(BackStep(step)) == Some(step)
  {
  }

  class ResumeWizard {
    var step: int
    var formData: FormData

    ghost predicate Valid()
      reads this
    {
      FirstStep <= step <= LastStep && formData.skills == []
    }

    constructor ()
      ensures Valid() && step == FirstStep && formData == InitialFormData
    {
      step := FirstStep;
      formData := InitialFormData;
    }

    /** `handleChange` from the input `f`, which is on screen only on its
        own step. */
    method HandleChange(f: Field, value: string)
      requires Valid()
      modifies this
      ensures Valid() && step == old(step)
      ensures formData == if StepOf(f) == step then Set(old(formData), f, value) else old(formData)
    {
      if StepOf(f) == step {
        formData := Set(formData, f, value);
      }
    }

    /** `handleEducationSelect` from the option button `index` on step 3. */
    method HandleEducationSelect(index: int)
      requires Valid()
      modifies this
      ensures Valid() && step == old(step)
      ensures formData == if step == 3 && 0 <= index < |EducationOptions|
                          then old(formData).(education := EducationOptions[index])
                          else old(formData)
    {
      if step == 3 && 0 <= index < |EducationOptions| {
        formData := formData.(education := EducationOptions[index]);
      }
    }

    /** `handleNext`: the next step, or on the last step `onComplete(formData)`
        with the step left where it is. */
    method HandleNext() returns (completed: Option<FormData>)
      requires Valid()
      modifies this
      ensures Valid() && formData == old(formData)
      ensures completed.Some? <==> NextStep(old(step)).None?
      ensures completed.Some? ==> completed.value == formData && step == old(step) == LastStep
      ensures completed.None? ==> Some(step) == NextStep(old(step))
    {
      if step < LastStep {
        step := step + 1;
        completed := None;
      } else {
        completed := Some(formData);
      }
    }

    /** `handleBack`; the button is disabled on step 1, where the handler
        does nothing anyway. */
    method HandleBack()
      requires Valid()
      modifies this
      ensures Valid() && formData == old(formData)
      ensures step == BackStep(old(step))
    {
      if step > FirstStep {
        step := step - 1;
      }
    }
  }
}
