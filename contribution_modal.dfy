/** The client's form for recording a contribution: the amount, reference and date the user
    enters, the proof of payment they pick, and the three checks a submit makes, in order,
    before it hands the record on. */
module ContributionModal {
  import opened Wrappers
  import opened JsValues
  import opened Toasts
  import opened FilePolicy
  import opened FileUploadWidget
  import Validation

  /** The form's state: `amount` is the parsed content of the number field, `selected` the
      proof of payment picked so far. */
  datatype ContributionForm = ContributionForm(amount: Value, reference: string, date: string,
                                               selected: Option<PickedFile>)

  /** The smallest contribution, in naira. */
  const MinimumContribution := 5000

  /** The form as it opens: `today` is the date part of the clock's ISO text. */
  function Initial(today: string): (r: ContributionForm)
    ensures r.amount == Num(MinimumContribution) && r.reference == "" && r.date == today && r.selected.None?
  {
    ContributionForm(Num(MinimumContribution), "", today, None)
  }

  /** A change event: the number field, carrying what `parseFloat` made of its text (a whole
      number or `NaN`), or the reference or date field, carrying its text. */
  datatype Input = AmountTyped(parsed: Value) | ReferenceTyped(text: string) | DateTyped(text: string)

  /** `handleInputChange`: the named field takes the new value, verbatim for the text fields;
      the others and the picked file are kept. */
  function ApplyInput(f: ContributionForm, input: Input): (r: ContributionForm)
    ensures r.selected == f.selected
    ensures r.amount == (if input.AmountTyped? then input.parsed else f.amount)
    ensures r.reference == (if input.ReferenceTyped? then input.text else f.reference)
    ensures r.date == (if input.DateTyped? then input.text else f.date)
  {
    match input
    case AmountTyped(v) => f.(amount := v)
    case ReferenceTyped(t) => f.(reference := t)
    case DateTyped(t) => f.(date := t)
  }

  const FileTooLarge := "File size should be less than 5MB"

  /** The form after a file change, with the toast shown if any. */
  datatype Chosen = Chosen(form: ContributionForm, toast: Option<Toast>)

  /** `handleFileChange`: an empty selection changes nothing; a first file over 5 MB is
      refused with a toast and the earlier pick is kept; any other first file becomes the
      pick, whatever its type. */
  function FileChosen(f: ContributionForm, files: seq<PickedFile>): (r: Chosen)
    ensures files == [] ==> r == Chosen(f, None)
    ensures files != [] && files[0].size > 5 * MB ==> r == Chosen(f, Some(Error(FileTooLarge)))
    ensures files != [] && files[0].size <= 5 * MB ==> r == Chosen(f.(selected := Some(files[0])), None)
  {
    if files == [] then Chosen(f, None)
    else if files[0].size > 5 * MB then Chosen(f, Some(Error(FileTooLarge)))
    else Chosen(f.(selected := Some(files[0])), None)
  }

  /** The record handed to `onSubmit`. */
  datatype Payload = Payload(amount: Value, transactionReference: string, paymentProofUrl: string,
                             contributionDate: string)

  /** The outcome of a submit: the record handed on if any, the toast shown, and whether the
      form closes. */
  datatype Outcome = Outcome(sent: Option<Payload>, toast: Toast, closed: bool)

  const BelowMinimum := "Minimum contribution amount is ₦5,000"
  const ReferenceRequired := "Transaction reference is required"
  const ProofRequired := "Payment proof is required"
  const SentMessage := "Contribution submitted successfully"
  const FailedMessage := "Failed to submit contribution"

  /** The proof address every record carries: the picked file is never uploaded. */
  const PlaceholderUrl := "temporary_url"

  /** `handleSubmit`: the first failing check stops the submit, in the order amount below the
      minimum, empty reference, no file; a form passing all three hands on its fields with the
      placeholder proof address, and closes unless `onSubmit` fails (`onSubmitFails`). */
  function Submit(f: ContributionForm, onSubmitFails: bool): (r: Outcome)
    ensures r.sent.Some? <==> !Less(f.amount, Num(MinimumContribution)) && f.reference != "" && f.selected.Some?
    ensures r.sent.Some? ==> r.sent.value == Payload(f.amount, f.reference, PlaceholderUrl, f.date)
    ensures Less(f.amount, Num(MinimumContribution)) ==> r.toast == Error(BelowMinimum)
    ensures !Less(f.amount, Num(MinimumContribution)) && f.reference == "" ==> r.toast == Error(ReferenceRequired)
    ensures !Less(f.amount, Num(MinimumContribution)) && f.reference != "" && f.selected.None? ==>
      r.toast == Error(ProofRequired)
    ensures r.sent.Some? ==> r.toast == (if onSubmitFails then Error(FailedMessage) else Success(SentMessage))
    ensures r.closed <==> r.sent.Some? && !onSubmitFails
  {
    if Less(f.amount, Num(MinimumContribution)) then Outcome(None, Error(BelowMinimum), false)
    else if f.reference == "" then Outcome(None, Error(ReferenceRequired), false)
    else if f.selected.None? then Outcome(None, Error(ProofRequired), false)
    else
      var p := Payload(f.amount, f.reference, PlaceholderUrl, f.date);
      if onSubmitFails then Outcome(Some(p), Error(FailedMessage), false)
      else Outcome(Some(p), Success(SentMessage), true)
  }

  /** Whatever file was picked, and whatever was typed, a record handed on carries the
      placeholder and not an address of the file. */
  lemma ProofNeverUploaded(f: ContributionForm, files: seq<PickedFile>, onSubmitFails: bool)
    ensures var r := Submit(FileChosen(f, files).form, onSubmitFails);
      r.sent.Some? ==> r.sent.value.paymentProofUrl == PlaceholderUrl
    ensures var g := FileChosen(f, files).form;
      g.selected.Some? ==> g.selected == f.selected || (files != [] && g.selected == Some(files[0]))
  {
  }

  /** The form as it opens meets the minimum and is refused for its empty reference. */
  lemma InitialNeedsReference(today: string, onSubmitFails: bool)
    ensures Submit(Initial(today), onSubmitFails) == Outcome(None, Error(ReferenceRequired), false)
  {
    NumbersCompareAsIntegers(MinimumContribution, MinimumContribution);
  }

  /** A refused file never replaces an earlier pick: after a pick of `good`, trying `big`
      leaves `good` picked. */
  lemma LargeFileKeepsPick(f: ContributionForm, good: PickedFile, big: PickedFile)
    requires good.size <= 5 * MB && big.size > 5 * MB
    ensures FileChosen(FileChosen(f, [good]).form, [big]).form.selected == Some(good)
  {
  }

  /** For a whole-number amount, the client's minimum is the server's: the client refuses
      the amount exactly when the contribution validator reports an amount error for it. */
  lemma ClientFloorMatchesServer(f: ContributionForm, n: int, body: Validation.Body, env: Validation.DateEnv)
    requires f.amount == Num(n) && Validation.Field(body, "amount") == Num(n)
    ensures Less(f.amount, Num(MinimumContribution)) <==>
      Validation.HasErrorAt(Validation.ContributionCreate(body, env), "amount")
  {
    NumbersCompareAsIntegers(n, MinimumContribution);
    Validation.ContributionAmountFloor(body, env, n);
  }

  /** A cleared number field parses to `NaN`, which is not below the minimum, so a form with
      a reference and a file hands on a record with no amount. */
  lemma ClearedAmountPasses(f: ContributionForm)
    requires f.amount == NaN && f.reference != "" && f.selected.Some?
    ensures Submit(f, false).sent == Some(Payload(NaN, f.reference, PlaceholderUrl, f.date))
  {
  }

  /** The file size check is the picker's default ceiling, but it looks at the size only: a
      file of any type within 5 MB is picked. */
  lemma AnyTypeIsPicked(f: ContributionForm, file: PickedFile)
    requires file.size <= DefaultMaxSizeMB * MB
    ensures FileChosen(f, [file]).form.selected == Some(file)
  {
  }
}
