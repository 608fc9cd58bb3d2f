/** The client's form for joining an investment: the minimum read from the opportunity's
    display text, the amount and terms the user enters, and the two checks a submit makes
    before it hands the data on. */
module InvestmentParticipationModal {
  import opened Wrappers
  import opened JsValues
  import opened Toasts

  /** The opportunity the form is opened for; `minimumInvestment` is its display text. */
  datatype InvestmentCard = InvestmentCard(id: int, title: string, minimumInvestment: string)

  /** `s.replace(/[^0-9]/g, '')`: the decimal digits of `s`, in order. */
  function DigitsOf(s: string): (r: string)
    ensures AllDigits(r) && |r| <= |s|
  {
    if s == [] then []
    else if IsDigit(s[0]) then [s[0]] + DigitsOf(s[1..])
    else DigitsOf(s[1..])
  }

  /** Stripping the non-digits of two pieces is stripping them of the whole. */
  lemma {:induction false} DigitsOfConcat(a: string, b: string)
    ensures DigitsOf(a + b) == DigitsOf(a) + DigitsOf(b)
  {
    if a != [] {
      assert (a + b)[1..] == a[1..] + b;
      DigitsOfConcat(a[1..], b);
    } else {
      assert a + b == b;
    }
  }

  /** `parseInt` of a stripped text: NaN when it is empty, the digits' value otherwise. */
  lemma ParseStripped(d: string)
    requires AllDigits(d)
    ensures d == [] ==> ParseInt(d) == None
    ensures d != [] ==> ParseInt(d) == Some(DigitsValue(d))
  {
    if d != [] { ParseDigits(d); }
  }

  /** `minimumAmount`: `parseInt` of the digits of the display text, which is the number
      those digits spell, or `NaN` when the text has none. */
  function MinimumAmount(display: string): (r: Value)
    ensures DigitsOf(display) == [] <==> r == NaN
    ensures DigitsOf(display) != [] ==> r == Num(DigitsValue(DigitsOf(display)))
  {
    var digits := DigitsOf(display);
    ParseStripped(digits);
    var parsed := ParseInt(digits);
    if parsed.Some? then Num(parsed.value) else NaN
  }

  /** The form's record; `amount` is the parsed content of the number field. */
  datatype ParticipationData = ParticipationData(investmentId: int, amount: Value, agreedToTerms: bool)

  /** The record the form opens with. */
  function Initial(inv: InvestmentCard): (r: ParticipationData)
    ensures r.investmentId == inv.id && r.amount == MinimumAmount(inv.minimumInvestment) && !r.agreedToTerms
  {
    ParticipationData(inv.id, MinimumAmount(inv.minimumInvestment), false)
  }

  /** A change event: the number field, carrying what `parseFloat` made of its text (a whole
      number or `NaN`), or the terms checkbox. */
  datatype Input = AmountTyped(parsed: Value) | TermsToggled(checked: bool)

  /** `handleInputChange`: the named field takes the new value, the others are kept. */
  function ApplyInput(d: ParticipationData, input: Input): (r: ParticipationData)
    ensures r.investmentId == d.investmentId
    ensures input.AmountTyped? ==> r.amount == input.parsed && r.agreedToTerms == d.agreedToTerms
    ensures input.TermsToggled? ==> r.agreedToTerms == input.checked && r.amount == d.amount
  {
    match input
    case AmountTyped(v) => d.(amount := v)
    case TermsToggled(b) => d.(agreedToTerms := b)
  }

  /** The record after a run of change events. */
  function Apply(d: ParticipationData, inputs: seq<Input>): ParticipationData
    decreases |inputs|
  {
    if inputs == [] then d else Apply(ApplyInput(d, inputs[0]), inputs[1..])
  }

  /** No change event can move the form to another opportunity. */
  lemma {:induction false} InputsKeepInvestment(d: ParticipationData, inputs: seq<Input>)
    decreases |inputs|
    ensures Apply(d, inputs).investmentId == d.investmentId
  {
    if inputs != [] {
      InputsKeepInvestment(ApplyInput(d, inputs[0]), inputs[1..]);
    }
  }

  /** The outcome of a submit: the record handed to `onSubmit` if any, the toast shown, and
      whether the form closes. */
  datatype Outcome = Outcome(sent: Option<ParticipationData>, toast: Toast, closed: bool)

  const TermsMessage := "Please agree to the terms and conditions"
  const SentMessage := "Investment participation submitted successfully"
  const FailedMessage := "Failed to submit investment participation"

  function MinimumMessage(inv: InvestmentCard): string {
    "Minimum investment amount is " + inv.minimumInvestment
  }

  /** `handleSubmit`: an amount below the minimum is refused first, then unagreed terms; a
      record passing both is handed on, and the form closes unless `onSubmit` fails
      (`onSubmitFails`). */
  function Submit(inv: InvestmentCard, d: ParticipationData, onSubmitFails: bool): (r: Outcome)
    ensures r.sent.Some? <==> !Less(d.amount, MinimumAmount(inv.minimumInvestment)) && d.agreedToTerms
    ensures r.sent.Some? ==> r.sent.value == d
    ensures Less(d.amount, MinimumAmount(inv.minimumInvestment)) ==> r.toast == Error(MinimumMessage(inv))
    ensures !Less(d.amount, MinimumAmount(inv.minimumInvestment)) && !d.agreedToTerms ==> r.toast == Error(TermsMessage)
    ensures r.sent.Some? ==> r.toast == (if onSubmitFails then Error(FailedMessage) else Success(SentMessage))
    ensures r.closed <==> r.sent.Some? && !onSubmitFails
  {
    if Less(d.amount, MinimumAmount(inv.minimumInvestment)) then Outcome(None, Error(MinimumMessage(inv)), false)
    else if !d.agreedToTerms then Outcome(None, Error(TermsMessage), false)
    else if onSubmitFails then Outcome(Some(d), Error(FailedMessage), false)
    else Outcome(Some(d), Success(SentMessage), true)
  }

  /** A record that is handed on belongs to the opportunity the form was opened for, whatever
      was typed, and its amount is not below a numeric minimum when it is a number. */
  lemma SentIsForInvestment(inv: InvestmentCard, inputs: seq<Input>, onSubmitFails: bool)
    ensures var r := Submit(inv, Apply(Initial(inv), inputs), onSubmitFails);
      r.sent.Some? ==> r.sent.value.investmentId == inv.id
    ensures var d := Apply(Initial(inv), inputs);
      var min := MinimumAmount(inv.minimumInvestment);
      Submit(inv, d, onSubmitFails).sent.Some? && min.Num? && d.amount.Num? ==> d.amount.n >= min.n
  {
    InputsKeepInvestment(Initial(inv), inputs);
  }

  /** The form as it opens passes the minimum check, since its amount is the minimum itself,
      and is refused for the terms. */
  lemma InitialAsksForTerms(inv: InvestmentCard, onSubmitFails: bool)
    ensures Submit(inv, Initial(inv), onSubmitFails) == Outcome(None, Error(TermsMessage), false)
  {
    var min := MinimumAmount(inv.minimumInvestment);
    if min.Num? { NumbersCompareAsIntegers(min.n, min.n); }
  }

  /** A display text without digits gives no minimum at all: `NaN` is below nothing, so any
      amount passes the first check. */
  lemma NoDigitsNoMinimum(inv: InvestmentCard, amount: Value)
    requires DigitsOf(inv.minimumInvestment) == []
    ensures !Less(amount, MinimumAmount(inv.minimumInvestment))
  {
  }

  /** A cleared number field parses to `NaN`, which is not below the minimum, so with the
      terms agreed the record is handed on with no amount. */
  lemma ClearedAmountPasses(inv: InvestmentCard, d: ParticipationData)
    requires d.amount == NaN && d.agreedToTerms
    ensures Submit(inv, d, false).sent == Some(d)
  {
  }

  /** A text of digits is kept whole. */
  lemma {:induction false} DigitsOfDigits(s: string)
    requires AllDigits(s)
    ensures DigitsOf(s) == s
  {
    if s != [] {
      DigitsOfDigits(s[1..]);
    }
  }

  /** The digits of the naira display of a minimum: the sign and the separator go. */
  lemma NairaDigits(display: string)
    requires display == "₦100,000"
    ensures DigitsOf(display) == display[1..4] + display[5..]
  {
    var front, back := display[..4], display[4..];
    assert display == front + back;
    DigitsOfConcat(front, back);
    assert front == front[..1] + front[1..];
    DigitsOfConcat(front[..1], front[1..]);
    assert back == back[..1] + back[1..];
    DigitsOfConcat(back[..1], back[1..]);
    DigitsOfDigits(front[1..]);
    DigitsOfDigits(back[1..]);
    assert DigitsOf(front[..1]) == [] && DigitsOf(back[..1]) == [];
  }

  /** The value of the digits of the naira display, step by step from the left. */
  lemma HundredThousand(display: string, d: string)
    requires display == "₦100,000" && d == display[1..4] + display[5..]
    ensures AllDigits(d) && DigitsValue(d) == 100000
  {
    assert |d| == 6 && d[0] == '1' && forall k | 1 <= k < 6 :: d[k] == '0';
    assert DigitsValue(d[..1]) == 1;
    assert DigitsValue(d[..2]) == 10 by { assert d[..2][..1] == d[..1]; }
    assert DigitsValue(d[..3]) == 100 by { assert d[..3][..2] == d[..2]; }
    assert DigitsValue(d[..4]) == 1000 by { assert d[..4][..3] == d[..3]; }
    assert DigitsValue(d[..5]) == 10000 by { assert d[..5][..4] == d[..4]; }
    assert d[..6] == d;
  }

  /** The naira display of a minimum reads as the number its digits spell. */
  lemma NairaDisplay(display: string)
    requires display == "₦100,000"
    ensures MinimumAmount(display) == Num(100000)
  {
    NairaDigits(display);
    HundredThousand(display, DigitsOf(display));
  }
}
