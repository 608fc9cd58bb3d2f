/** The client's form for adding a member: the rules that fill the error record, and the
    submit that hands the data on and empties the form only when the record stays empty. */
module AddMemberModal {
  import opened Wrappers
  import opened JsValues

  datatype MemberStatus = Active | Inactive

  datatype MemberFormData = MemberFormData(name: string, email: string, phone: string, status: MemberStatus)

  /** The error record: a message for each field that fails its rule. */
  datatype FormErrors = FormErrors(name: Option<string>, email: Option<string>, phone: Option<string>)

  const NoErrors := FormErrors(None, None, None)
  const EmptyForm := MemberFormData("", "", "", Active)

  /** `s[lo..hi]` is a non-empty run of characters that `\S` matches. */
  predicate NonBlankRun(s: string, lo: int, hi: int) {
    0 <= lo < hi <= |s| && forall k | lo <= k < hi :: !IsSpace(s[k])
  }

  /** `s[i..e]` is a match of `/\S+@\S+\.\S+/` with its '@' at `b` and its '.' at `c`. */
  predicate MatchAt(s: string, i: int, b: int, c: int, e: int) {
    && 0 <= i < b < c < e <= |s|
    && NonBlankRun(s, i, b) && s[b] == '@' && NonBlankRun(s, b + 1, c) && s[c] == '.' && NonBlankRun(s, c + 1, e)
  }

  /** `/\S+@\S+\.\S+/.test(s)`: some stretch of `s` is a non-blank run, an '@', a non-blank
      run, a '.' and a non-blank run. */
  predicate EmailPattern(s: string) {
    exists i, b, c, e | 0 <= i < b < c < e <= |s| :: MatchAt(s, i, b, c, e)
  }

  /** An '@' at `b` with a non-blank character just before it, then a non-blank run up to a
      '.' at `c` that is followed by a non-blank character. */
  predicate ShortestMatchAt(s: string, b: int, c: int) {
    && 0 < b && b + 1 < c && c + 1 < |s|
    && !IsSpace(s[b - 1]) && s[b] == '@' && NonBlankRun(s, b + 1, c) && s[c] == '.' && !IsSpace(s[c + 1])
  }

  /** Since the outer runs may shrink to one character, the pattern holds exactly when some
      '@' and '.' delimit a shortest match. */
  lemma EmailPatternAt(s: string)
    ensures EmailPattern(s) <==> exists b, c :: ShortestMatchAt(s, b, c)
  {
    if EmailPattern(s) {
      var i, b, c, e :| 0 <= i < b < c < e <= |s| && MatchAt(s, i, b, c, e);
      assert ShortestMatchAt(s, b, c);
    }
    if exists b, c :: ShortestMatchAt(s, b, c) {
      var b, c :| ShortestMatchAt(s, b, c);
      assert MatchAt(s, b - 1, b, c, c + 2);
    }
  }

  /** A string that matches holds an '@', so it is not blank. */
  lemma PatternIsNotBlank(s: string)
    ensures EmailPattern(s) ==> !AllSpace(s)
  {
    if EmailPattern(s) {
      var i, b, c, e :| 0 <= i < b < c < e <= |s| && MatchAt(s, i, b, c, e);
      assert !IsSpace(s[b]);
    }
  }

  /** `validateForm`: a blank name or phone is required; a blank e-mail is required, and any
      other e-mail must match the pattern. The form is valid when the record is empty. */
  function ValidateForm(f: MemberFormData): (r: FormErrors)
    ensures r.name.Some? <==> AllSpace(f.name)
    ensures r.email.Some? <==> !EmailPattern(f.email)
    ensures r.phone.Some? <==> AllSpace(f.phone)
    ensures r.name.Some? ==> r.name.value == "Name is required"
    ensures r.phone.Some? ==> r.phone.value == "Phone number is required"
    ensures AllSpace(f.email) ==> r.email == Some("Email is required")
    ensures !AllSpace(f.email) && !EmailPattern(f.email) ==> r.email == Some("Invalid email format")
    ensures r == NoErrors <==> !AllSpace(f.name) && EmailPattern(f.email) && !AllSpace(f.phone)
  {
    TrimEmptyIffBlank(f.name);
    TrimEmptyIffBlank(f.email);
    TrimEmptyIffBlank(f.phone);
    PatternIsNotBlank(f.email);
    FormErrors(
      if Trim(f.name) == "" then Some("Name is required") else None,
      if Trim(f.email) == "" then Some("Email is required")
      else if !EmailPattern(f.email) then Some("Invalid email format")
      else None,
      if Trim(f.phone) == "" then Some("Phone number is required") else None)
  }

  /** The form's state: the data typed so far and the record of the last validation. */
  datatype AddForm = AddForm(data: MemberFormData, errors: FormErrors)

  const Opened := AddForm(EmptyForm, NoErrors)

  /** The form after a submit, the data handed to `onSubmit` if any, and whether the form
      closes. */
  datatype AddSubmit = AddSubmit(form: AddForm, submitted: Option<MemberFormData>, closed: bool)

  /** `handleSubmit`: the record is always replaced by the new validation; a valid form is
      handed on, emptied and closed, an invalid one keeps its data and stays open. */
  function Submit(form: AddForm): (r: AddSubmit)
    ensures r.form.errors == ValidateForm(form.data)
    ensures r.submitted.Some? <==> ValidateForm(form.data) == NoErrors
    ensures r.submitted.Some? ==> r.submitted.value == form.data && r.form.data == EmptyForm && r.closed
    ensures r.submitted.None? ==> r.form.data == form.data && !r.closed
  {
    var errors := ValidateForm(form.data);
    if errors == NoErrors then AddSubmit(AddForm(EmptyForm, errors), Some(form.data), true)
    else AddSubmit(AddForm(form.data, errors), None, false)
  }

  /** Once a member is added the form is empty again, so submitting it once more hands
      nothing on and reports all three fields as required. */
  lemma ResubmitAfterReset(form: AddForm)
    requires Submit(form).submitted.Some?
    ensures Submit(Submit(form).form).submitted.None?
    ensures Submit(Submit(form).form).form.errors ==
      FormErrors(Some("Name is required"), Some("Email is required"), Some("Phone number is required"))
  {
    assert AllSpace("");
  }

  /** An address of the usual shape matches; one without a dot after the '@', or with a blank
      inside, does not. */
  lemma PatternExamples(good: string, noDot: string, spaced: string)
    requires good == "ada@club.ng" && noDot == "ada@club" && spaced == "ada@club .ng"
    ensures EmailPattern(good)
    ensures !EmailPattern(noDot)
    ensures !EmailPattern(spaced)
  {
    assert MatchAt(good, 0, 3, 8, 11);
    assert forall k | 0 <= k < |noDot| :: noDot[k] != '.';
    assert forall k | 0 <= k < |spaced| && spaced[k] == '.' :: k == 9;
    assert forall k | 0 <= k < |spaced| && spaced[k] == '@' :: k == 3;
    assert IsSpace(spaced[8]);
  }
}
