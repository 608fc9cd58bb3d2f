/** The client's form for editing a member: it is filled from the member it is opened for,
    validated by the same rules as the form for adding one, and hands the member's id and the
    edited data on only when the record stays empty. */
module EditMemberModal {
  import opened Wrappers
  import opened JsValues
  import opened AddMemberModal

  /** A member as the members page holds it. */
  datatype Member = Member(id: int, name: string, email: string, phone: string, status: MemberStatus)

  datatype EditForm = EditForm(data: MemberFormData, errors: FormErrors)

  const Opened := EditForm(EmptyForm, NoErrors)

  /** The data of a member as the form shows it. */
  function DataOf(m: Member): MemberFormData {
    MemberFormData(m.name, m.email, m.phone, m.status)
  }

  /** The effect run when the member changes: a member fills the four fields and leaves the
      record alone; no member leaves the form as it was. */
  function Prefill(form: EditForm, member: Option<Member>): (r: EditForm)
    ensures r.errors == form.errors
    ensures member.Some? ==> r.data.name == member.value.name && r.data.email == member.value.email
    ensures member.Some? ==> r.data.phone == member.value.phone && r.data.status == member.value.status
    ensures member.None? ==> r == form
  {
    if member.Some? then EditForm(DataOf(member.value), form.errors) else form
  }

  /** The form after a submit, the id and data handed to `onSubmit` if any, and whether the
      form closes. */
  datatype EditSubmit = EditSubmit(form: EditForm, submitted: Option<(int, MemberFormData)>, closed: bool)

  /** `handleSubmit`: the record is always replaced by the new validation, even with no
      member; the data is handed on with the member's id, and the form closes, only when it is
      valid and there is a member. The data is never reset. */
  function Submit(form: EditForm, member: Option<Member>): (r: EditSubmit)
    ensures r.form == EditForm(form.data, ValidateForm(form.data))
    ensures r.submitted.Some? <==> ValidateForm(form.data) == NoErrors && member.Some?
    ensures r.submitted.Some? ==> r.submitted.value == (member.value.id, form.data)
    ensures r.closed <==> r.submitted.Some?
  {
    var errors := ValidateForm(form.data);
    if errors == NoErrors && member.Some? then EditSubmit(EditForm(form.data, errors), Some((member.value.id, form.data)), true)
    else EditSubmit(EditForm(form.data, errors), None, false)
  }

  /** A member whose stored fields pass the rules is saved unchanged, under its own id, by a
      submit straight after the form is filled from it. */
  lemma PrefilledValidSubmits(form: EditForm, m: Member)
    requires !AllSpace(m.name) && EmailPattern(m.email) && !AllSpace(m.phone)
    ensures Submit(Prefill(form, Some(m)), Some(m)).submitted == Some((m.id, DataOf(m)))
    ensures Submit(Prefill(form, Some(m)), Some(m)).form.errors == NoErrors
  {
  }

  /** Unlike the form for adding a member, a submit that succeeds keeps the data, so a second
      submit for the same member hands the same data on again. */
  lemma SubmitKeepsData(form: EditForm, member: Option<Member>)
    requires Submit(form, member).submitted.Some?
    ensures Submit(Submit(form, member).form, member) == Submit(form, member)
  {
  }

  /** Editing validates as adding does: for the same data, the edit form reports the record
      the add form reports, and refuses exactly when the add form refuses. */
  lemma SameRulesAsAdd(data: MemberFormData, m: Member, errors: FormErrors)
    ensures Submit(EditForm(data, errors), Some(m)).form.errors == AddMemberModal.Submit(AddForm(data, errors)).form.errors
    ensures Submit(EditForm(data, errors), Some(m)).submitted.Some? <==>
      AddMemberModal.Submit(AddForm(data, errors)).submitted.Some?
  {
  }
}
