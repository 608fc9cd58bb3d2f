/** The request rule sets of the validation middleware. Every chain of a rule set runs and
    every failing check of a chain reports an error, in the order the rule set lists them; a
    message attached with `withMessage` belongs to the check just before it, and a check
    without one reports "Invalid value". A value that is absent from the body is `undefined`;
    `optional()` skips its chain only for `undefined`. The custom checks that read the database
    take what they read as parameters. */
module Validation {
  import opened Wrappers
  import opened JsValues
  import opened Lex

  datatype Location = BodyField | PathParam

  /** One entry of the `errors` array of a 400 reply. */
  datatype FieldError = FieldError(location: Location, path: string, value: Value, msg: Message)

  /** The messages the rule sets attach to their errors; `Text` gives the words of each. */
  datatype Message =
    InvalidValue | ContributionBelowMinimum | UserIdRequired | ReferenceRequired
    | ContributionDateRequired | ContributionIdRequired | InvalidStatus | ValidatorIdRequired
    | RejectionReasonRequired | TitleRequired | TitleTooLong | DescriptionRequired
    | DescriptionTooLong | TargetTooLow | MinimumTooLow | ReturnsOutOfRange
    | DurationOutOfRange | RiskLevelRequired | StartDateRequired | StartDateInPast
    | EndDateRequired | EndDateNotAfterStart | InvestmentAmountRequired | InvestmentIdRequired
    | DatesRequiredToOpen | ReturnsRequired | ParticipationIdRequired | ReturnsAmountRequired
    | UpdateTitleTooLong | UpdateDescriptionTooLong | InvalidUpdateType | CreatorIdRequired
    | InvestmentNotFound | UserNotFound | MinimumAboveTarget | OpportunityNotFound | NotOpen
    | AmountBelowMinimum(minimum: Value) | ExceedsTarget | MissingRow

  /** The `msg` of an error as the 400 reply spells it. A check without a message of its own
      reports "Invalid value"; the message for an amount below the minimum names the
      minimum as `toLocaleString` prints it; a custom check that reads a column of a row that
      does not exist throws a `TypeError`, whose message becomes the error. */
  function Text(m: Message): string {
    match m
    case InvalidValue => "Invalid value"
    case ContributionBelowMinimum => "Minimum contribution amount is \U{20A6}5,000"
    case UserIdRequired => "Valid user ID is required"
    case ReferenceRequired => "Transaction reference is required"
    case ContributionDateRequired => "Valid contribution date is required"
    case ContributionIdRequired => "Valid contribution ID is required"
    case InvalidStatus => "Invalid status value"
    case ValidatorIdRequired => "Valid validator ID is required"
    case RejectionReasonRequired => "Rejection reason is required when rejecting a contribution"
    case TitleRequired => "Investment title is required"
    case TitleTooLong => "Title must be less than 100 characters"
    case DescriptionRequired => "Description is required"
    case DescriptionTooLong => "Description must be less than 1000 characters"
    case TargetTooLow => "Target amount must be at least \U{20A6}100,000"
    case MinimumTooLow => "Minimum investment must be at least \U{20A6}5,000"
    case ReturnsOutOfRange => "Expected returns must be between 0% and 100%"
    case DurationOutOfRange => "Duration must be between 1 and 120 months"
    case RiskLevelRequired => "Valid risk level is required"
    case StartDateRequired => "Valid start date is required"
    case StartDateInPast => "Start date cannot be in the past"
    case EndDateRequired => "Valid end date is required"
    case EndDateNotAfterStart => "End date must be after start date"
    case InvestmentAmountRequired => "Valid investment amount is required"
    case InvestmentIdRequired => "Valid investment ID is required"
    case DatesRequiredToOpen => "Start and end dates must be set before opening investment"
    case ReturnsRequired => "Returns amount is required when completing an investment"
    case ParticipationIdRequired => "Valid participation ID is required"
    case ReturnsAmountRequired => "Valid returns amount is required"
    case UpdateTitleTooLong => "Update title must be less than 100 characters"
    case UpdateDescriptionTooLong => "Update description must be less than 2000 characters"
    case InvalidUpdateType => "Invalid update type"
    case CreatorIdRequired => "Valid creator ID is required"
    case InvestmentNotFound => "Investment not found"
    case UserNotFound => "User not found"
    case MinimumAboveTarget => "Minimum investment cannot be greater than target amount"
    case OpportunityNotFound => "Investment opportunity not found"
    case NotOpen => "Investment is not open for participation"
    case AmountBelowMinimum(minimum) =>
      "Amount must be at least \U{20A6}" + (if minimum.Num? then LocaleString(minimum.n) else JsString(minimum))
    case ExceedsTarget => "This investment would exceed the target amount"
    case MissingRow => "Cannot read properties of undefined (reading 'start_date')"
  }

  type Body = map<string, Value>

  function Field(body: Body, name: string): Value {
    if name in body then body[name] else Undefined
  }


  /** Dates as the validator library and `new Date` read them. `isIso8601` and `isDate` are the
      library's format checks, `parse` the engine's date parser (milliseconds, `None` for an
      invalid date) and `now` the clock at the time of the request. */
  datatype DateEnv = DateEnv(isIso8601: string -> bool, isDate: string -> bool, parse: string -> Option<int>, now: int)

  /** `new Date(v).getTime()`; `None` is an invalid date. */
  function DateOf(v: Value, env: DateEnv): Option<int> {
    match v
    case Undefined => None
    case NaN => None
    case Null => Some(0)
    case Bool(b) => Some(if b then 1 else 0)
    case Num(n) => Some(n)
    case Str(s) => env.parse(s)
    case Obj(_) => env.parse("[object Object]")
  }

  // ---------------------------------------------------------------------------------------
  // The built-in checks, each on the string form of the value.

  predicate IsInt(v: Value) {
    Numeral(v).Some?
  }

  predicate IsIntBetween(v: Value, lo: int, hi: int) {
    Numeral(v).Some? && lo <= Numeral(v).value <= hi
  }

  predicate IsFloatAtLeast(v: Value, lo: int) {
    Numeral(v).Some? && lo <= Numeral(v).value
  }

  predicate IsFloatBetween(v: Value, lo: int, hi: int) {
    Numeral(v).Some? && lo <= Numeral(v).value <= hi
  }

  predicate NotEmpty(v: Value) {
    ValidatorString(v) != ""
  }

  /** The length `isLength` measures: code points, not counting the emoji presentation
      selectors U+FE0E and U+FE0F. */
  function TextLength(s: string): (n: nat)
    ensures n <= |s|
  {
    if s == [] then 0
    else (if s[0] == '\U{FE0E}' || s[0] == '\U{FE0F}' then 0 else 1) + TextLength(s[1..])
  }

  predicate IsLengthAtMost(v: Value, max: nat) {
    TextLength(ValidatorString(v)) <= max
  }

  predicate IsIn(v: Value, options: seq<string>) {
    ValidatorString(v) in options
  }

  /** Only a string prints as a lower-case word other than "true" and "false": no number,
      boolean or object does, so a value that passes `isIn` with a list of such words is a
      string. */
  lemma WordIsText(v: Value)
    requires |ValidatorString(v)| > 0 && 'a' <= ValidatorString(v)[0] <= 'z'
    requires ValidatorString(v) != "true" && ValidatorString(v) != "false"
    ensures v.Str?
  {
    if v.Num? { NumberTextStartsNumerically(v.n); }
  }

  predicate IsString(v: Value) {
    v.Str?
  }

  // ---------------------------------------------------------------------------------------
  // Building error lists.

  /** The error a failing body check adds, and none for a passing one. */
  function Check(ok: bool, body: Body, path: string, msg: Message): (r: seq<FieldError>)
    ensures r == [] <==> ok
    ensures forall i | 0 <= i < |r| :: r[i].path == path && r[i].location == BodyField
  {
    if ok then [] else [FieldError(BodyField, path, Field(body, path), msg)]
  }

  /** The error a failing path-parameter check adds. */
  function ParamCheck(ok: bool, path: string, param: string, msg: Message): (r: seq<FieldError>)
    ensures r == [] <==> ok
    ensures forall i | 0 <= i < |r| :: r[i].path == path && r[i].location == PathParam
  {
    if ok then [] else [FieldError(PathParam, path, Str(param), msg)]
  }

  /** A custom check: the message it throws, if it throws. */
  function Custom(thrown: Option<Message>, body: Body, path: string): (r: seq<FieldError>)
    ensures r == [] <==> thrown.None?
    ensures forall i | 0 <= i < |r| :: r[i].path == path && r[i].location == BodyField
  {
    match thrown
    case None => []
    case Some(m) => [FieldError(BodyField, path, Field(body, path), m)]
  }

  /** The request carries an error for `path`. */
  predicate HasErrorAt(errors: seq<FieldError>, path: string) {
    exists i | 0 <= i < |errors| :: errors[i].path == path
  }

  lemma HasErrorAtConcat(a: seq<FieldError>, b: seq<FieldError>, path: string)
    ensures HasErrorAt(a + b, path) <==> HasErrorAt(a, path) || HasErrorAt(b, path)
  {
    if HasErrorAt(a + b, path) {
      var i :| 0 <= i < |a + b| && (a + b)[i].path == path;
      if i >= |a| { assert b[i - |a|] == (a + b)[i]; } else { assert a[i] == (a + b)[i]; }
    }
    if HasErrorAt(a, path) {
      var i :| 0 <= i < |a| && a[i].path == path;
      assert (a + b)[i] == a[i];
    }
    if HasErrorAt(b, path) {
      var i :| 0 <= i < |b| && b[i].path == path;
      assert (a + b)[|a| + i] == b[i];
    }
  }

  /** Every error of the list is for `path`. */
  predicate AllAt(errors: seq<FieldError>, path: string) {
    forall i | 0 <= i < |errors| :: errors[i].path == path
  }

  lemma NoErrorAtOthers(errors: seq<FieldError>, path: string, other: string)
    requires AllAt(errors, path) && path != other
    ensures !HasErrorAt(errors, other)
  {
  }

  lemma HasErrorAtOwnChain(errors: seq<FieldError>, path: string)
    requires AllAt(errors, path)
    ensures HasErrorAt(errors, path) <==> errors != []
  {
    if errors != [] { assert errors[0].path == path; }
  }

  /** What the `validate` step decides: pass the request on, or answer 400 with every error. */
  datatype Gate = Proceed | Reject(errors: seq<FieldError>)

  function Validate(errors: seq<FieldError>): (g: Gate)
    ensures g.Proceed? <==> errors == []
    ensures g.Reject? ==> g.errors == errors
  {
    if errors == [] then Proceed else Reject(errors)
  }

  // ---------------------------------------------------------------------------------------
  // Contributions.

  const ContributionStatuses := ["pending", "validated", "rejected"]

  function ContributionAmountChain(body: Body): seq<FieldError> {
    Check(IsFloatAtLeast(Field(body, "amount"), 5000), body, "amount", ContributionBelowMinimum)
  }

  /** The rules for recording a contribution. */
  function ContributionCreate(body: Body, env: DateEnv): seq<FieldError> {
    var reference := Field(body, "transaction_reference");
    Check(IsInt(Field(body, "user_id")), body, "user_id", UserIdRequired)
    + ContributionAmountChain(body)
    + Check(IsString(reference), body, "transaction_reference", InvalidValue)
    + Check(NotEmpty(reference), body, "transaction_reference", ReferenceRequired)
    + Check(env.isDate(ValidatorString(Field(body, "contribution_date"))), body, "contribution_date", ContributionDateRequired)
  }

  /** A contribution passes exactly when the user id is an integer, the amount is at least
      5000, the reference is a non-empty string and the date is a date. */
  lemma ContributionCreateAccepts(body: Body, env: DateEnv)
    ensures ContributionCreate(body, env) == [] <==>
      && Numeral(Field(body, "user_id")).Some?
      && Numeral(Field(body, "amount")).Some? && Numeral(Field(body, "amount")).value >= 5000
      && Field(body, "transaction_reference").Str? && Field(body, "transaction_reference").s != []
      && env.isDate(ValidatorString(Field(body, "contribution_date")))
  {
  }

  /** A numeric amount draws an error exactly when it is below 5000: 4999 is refused and 5000
      accepted. */
  lemma ContributionAmountFloor(body: Body, env: DateEnv, n: int)
    requires Field(body, "amount") == Num(n)
    ensures HasErrorAt(ContributionCreate(body, env), "amount") <==> n < 5000
  {
    IntToStringRoundTrip(n);
    var errors := ContributionCreate(body, env);
    var a := Check(IsInt(Field(body, "user_id")), body, "user_id", UserIdRequired);
    var b := ContributionAmountChain(body);
    var rest := errors[|a| + |b|..];
    assert errors == a + b + rest;
    assert !HasErrorAt(a, "amount");
    assert !HasErrorAt(rest, "amount") by {
      forall i | 0 <= i < |rest| ensures rest[i].path != "amount" {
        assert rest[i].path in {"transaction_reference", "contribution_date"};
      }
    }
    assert Numeral(Num(n)) == Some(n);
    if n < 5000 { assert b[0].path == "amount"; }
    HasErrorAtConcat(a, b, "amount");
    HasErrorAtConcat(a + b, rest, "amount");
  }

  /** The rules for changing a contribution's status. */
  function ContributionUpdateStatus(id: string, body: Body): seq<FieldError> {
    var status := Field(body, "status");
    var validatedBy := Field(body, "validated_by");
    ParamCheck(IsIntLiteral(id), "id", id, ContributionIdRequired)
    + Check(IsIn(status, ContributionStatuses), body, "status", InvalidStatus)
    + (if validatedBy.Undefined? then [] else Check(IsInt(validatedBy), body, "validated_by", ValidatorIdRequired))
    + (if ValidatorString(status) == "rejected"
       then Check(NotEmpty(Field(body, "rejection_reason")), body, "rejection_reason", RejectionReasonRequired)
       else [])
  }

  /** A status change passes exactly when the id is an integer, the status is one of the three,
      a given validator id is an integer, and a rejection carries a non-empty reason. */
  lemma ContributionUpdateStatusAccepts(id: string, body: Body)
    ensures ContributionUpdateStatus(id, body) == [] <==>
      && IsIntLiteral(id)
      && ValidatorString(Field(body, "status")) in {"pending", "validated", "rejected"}
      && (Field(body, "validated_by") != Undefined ==> Numeral(Field(body, "validated_by")).Some?)
      && (ValidatorString(Field(body, "status")) == "rejected" ==> ValidatorString(Field(body, "rejection_reason")) != "")
  {
  }

  /** The reason is demanded for a rejection and for no other status. */
  lemma RejectionReasonOnlyForRejected(id: string, body: Body)
    requires ValidatorString(Field(body, "status")) != "rejected"
    ensures !HasErrorAt(ContributionUpdateStatus(id, body), "rejection_reason")
  {
    var e := ContributionUpdateStatus(id, body);
    forall i | 0 <= i < |e| ensures e[i].path != "rejection_reason" {
      assert e[i].path in {"id", "status", "validated_by"};
    }
  }

  // ---------------------------------------------------------------------------------------
  // Investment opportunities: one function per field chain, in the order of the rule set.

  const RiskLevels := ["low", "medium", "high"]
  const OpportunityStatuses := ["draft", "open", "closed", "completed"]

  function TitleChain(body: Body): (r: seq<FieldError>)
    ensures AllAt(r, "title")
    ensures r == [] <==> NotEmpty(Field(body, "title")) && IsLengthAtMost(Field(body, "title"), 100)
  {
    var title := Field(body, "title");
    Check(NotEmpty(title), body, "title", TitleRequired)
    + Check(IsLengthAtMost(title, 100), body, "title", TitleTooLong)
  }

  function DescriptionChain(body: Body): (r: seq<FieldError>)
    ensures AllAt(r, "description")
    ensures r == [] <==> NotEmpty(Field(body, "description")) && IsLengthAtMost(Field(body, "description"), 1000)
  {
    var description := Field(body, "description");
    Check(NotEmpty(description), body, "description", DescriptionRequired)
    + Check(IsLengthAtMost(description, 1000), body, "description", DescriptionTooLong)
  }

  function TargetChain(body: Body): (r: seq<FieldError>)
    ensures AllAt(r, "target_amount")
    ensures r == [] <==> IsFloatAtLeast(Field(body, "target_amount"), 100000)
  {
    Check(IsFloatAtLeast(Field(body, "target_amount"), 100000), body, "target_amount", TargetTooLow)
  }


  /** The minimum's chain as written: the custom check compares with `>` on the raw body
      values, so two strings compare in code-point order. */
  function MinimumChainAsWritten(body: Body): (r: seq<FieldError>)
    ensures AllAt(r, "minimum_investment")
  {
    var minimum, target := Field(body, "minimum_investment"), Field(body, "target_amount");
    Check(IsFloatAtLeast(minimum, 5000), body, "minimum_investment", MinimumTooLow)
    + Custom(if Less(target, minimum) then Some(MinimumAboveTarget) else None, body, "minimum_investment")
  }

  /** The minimum's chain comparing the numbers: `Number(value) > Number(req.body.target_amount)`. */
  function MinimumChain(body: Body): (r: seq<FieldError>)
    ensures AllAt(r, "minimum_investment")
  {
    var minimum, target := Field(body, "minimum_investment"), Field(body, "target_amount");
    Check(IsFloatAtLeast(minimum, 5000), body, "minimum_investment", MinimumTooLow)
    + Custom(if Less(NumberValue(target), NumberValue(minimum)) then Some(MinimumAboveTarget) else None, body, "minimum_investment")
  }

  /** Given a numeral target, the minimum passes exactly when it is a numeral of at least
      5000 and at most the target. */
  lemma MinimumChainAccepts(body: Body)
    requires Numeral(Field(body, "target_amount")).Some?
    ensures MinimumChain(body) == [] <==>
      var m := Numeral(Field(body, "minimum_investment"));
      m.Some? && 5000 <= m.value <= Numeral(Field(body, "target_amount")).value
  {
    var minimum, target := Field(body, "minimum_investment"), Field(body, "target_amount");
    NumeralIsNumber(target);
    if Numeral(minimum).Some? {
      NumeralIsNumber(minimum);
      NumbersCompareAsIntegers(Numeral(target).value, Numeral(minimum).value);
    }
  }

  function ReturnsChain(body: Body): (r: seq<FieldError>)
    ensures AllAt(r, "expected_returns")
    ensures r == [] <==> IsFloatBetween(Field(body, "expected_returns"), 0, 100)
  {
    Check(IsFloatBetween(Field(body, "expected_returns"), 0, 100), body, "expected_returns", ReturnsOutOfRange)
  }

  function DurationChain(body: Body): (r: seq<FieldError>)
    ensures AllAt(r, "duration")
    ensures r == [] <==> IsIntBetween(Field(body, "duration"), 1, 120)
  {
    Check(IsIntBetween(Field(body, "duration"), 1, 120), body, "duration", DurationOutOfRange)
  }

  function RiskChain(body: Body): (r: seq<FieldError>)
    ensures AllAt(r, "risk_level")
    ensures r == [] <==> IsIn(Field(body, "risk_level"), RiskLevels)
  {
    Check(IsIn(Field(body, "risk_level"), RiskLevels), body, "risk_level", RiskLevelRequired)
  }

  /** `new Date(value) < new Date()`. */
  function StartInPast(start: Value, env: DateEnv): Option<Message> {
    var d := DateOf(start, env);
    if d.Some? && d.value < env.now then Some(StartDateInPast) else None
  }

  function StartChain(body: Body, env: DateEnv): (r: seq<FieldError>)
    ensures AllAt(r, "start_date")
    ensures r == [] <==> var start := Field(body, "start_date");
      start != Undefined ==> env.isIso8601(ValidatorString(start)) && StartInPast(start, env).None?
  {
    var start := Field(body, "start_date");
    if start.Undefined? then []
    else Check(env.isIso8601(ValidatorString(start)), body, "start_date", StartDateRequired)
         + Custom(StartInPast(start, env), body, "start_date")
  }

  /** `req.body.start_date && new Date(value) <= new Date(req.body.start_date)`. */
  function EndNotAfterStart(end: Value, start: Value, env: DateEnv): Option<Message> {
    var e, s := DateOf(end, env), DateOf(start, env);
    if Truthy(start) && e.Some? && s.Some? && e.value <= s.value then Some(EndDateNotAfterStart) else None
  }

  function EndChain(body: Body, env: DateEnv): (r: seq<FieldError>)
    ensures AllAt(r, "end_date")
    ensures r == [] <==> var end := Field(body, "end_date");
      end != Undefined ==> env.isIso8601(ValidatorString(end)) && EndNotAfterStart(end, Field(body, "start_date"), env).None?
  {
    var end := Field(body, "end_date");
    if end.Undefined? then []
    else Check(env.isIso8601(ValidatorString(end)), body, "end_date", EndDateRequired)
         + Custom(EndNotAfterStart(end, Field(body, "start_date"), env), body, "end_date")
  }

  /** The chains that follow the minimum's. */
  function TermChains(body: Body, env: DateEnv): seq<FieldError> {
    ReturnsChain(body) + DurationChain(body) + RiskChain(body) + StartChain(body, env) + EndChain(body, env)
  }

  /** A validation chain: the errors it adds for a request body. */
  type Chain = (Body, DateEnv) -> seq<FieldError>

  /** A rule set runs every chain, in order, and collects the errors of all of them. */
  function RunChains(chains: seq<Chain>, body: Body, env: DateEnv): seq<FieldError> {
    if chains == [] then [] else chains[0](body, env) + RunChains(chains[1..], body, env)
  }

  /** The chains that follow the minimum's. */
  const TermRules: seq<Chain> := [
    (b, e) => ReturnsChain(b), (b, e) => DurationChain(b), (b, e) => RiskChain(b),
    (b, e) => StartChain(b, e), (b, e) => EndChain(b, e)]

  /** The rules for creating an opportunity, as written. */
  const CreationRulesAsWritten: seq<Chain> := [
    (b, e) => TitleChain(b), (b, e) => DescriptionChain(b), (b, e) => TargetChain(b),
    (b, e) => MinimumChainAsWritten(b)] + TermRules

  /** The rules for creating an opportunity, with the minimum compared to the target as numbers. */
  const CreationRules: seq<Chain> := [
    (b, e) => TitleChain(b), (b, e) => DescriptionChain(b), (b, e) => TargetChain(b),
    (b, e) => MinimumChain(b)] + TermRules

  function OpportunityCreateAsWritten(body: Body, env: DateEnv): seq<FieldError> {
    RunChains(CreationRulesAsWritten, body, env)
  }

  function OpportunityCreate(body: Body, env: DateEnv): seq<FieldError> {
    RunChains(CreationRules, body, env)
  }

  /** Running a rule set that starts with one chain adds that chain's errors in front. */
  lemma RunFirst(chains: seq<Chain>, body: Body, env: DateEnv)
    requires chains != []
    ensures RunChains(chains, body, env)
      == chains[0](body, env) + RunChains(chains[1..], body, env)
  {
  }

  /** A rule set of five chains, spelled out. */
  lemma RunFive(chains: seq<Chain>, body: Body, env: DateEnv)
    requires |chains| == 5
    ensures RunChains(chains, body, env)
      == chains[0](body, env) + chains[1](body, env)
         + chains[2](body, env) + chains[3](body, env)
         + chains[4](body, env)
  {
    assert chains[4..][1..] == [];
    assert chains[3..][1..] == chains[4..];
    assert chains[2..][1..] == chains[3..];
    assert chains[1..][1..] == chains[2..];
    RunFirst(chains[4..], body, env);
    RunFirst(chains[3..], body, env);
    RunFirst(chains[2..], body, env);
    RunFirst(chains[1..], body, env);
    RunFirst(chains, body, env);
  }

  /** A rule set of four leading chains and five more, spelled out. */
  lemma RunNine(chains: seq<Chain>, body: Body, env: DateEnv)
    requires |chains| == 9
    ensures RunChains(chains, body, env)
      == chains[0](body, env) + chains[1](body, env)
         + chains[2](body, env) + chains[3](body, env)
         + RunChains(chains[4..], body, env)
  {
    assert chains[3..][1..] == chains[4..];
    assert chains[2..][1..] == chains[3..];
    assert chains[1..][1..] == chains[2..];
    RunFirst(chains[3..], body, env);
    RunFirst(chains[2..], body, env);
    RunFirst(chains[1..], body, env);
    RunFirst(chains, body, env);
  }

  /** The last five chains, spelled out. */
  lemma TermChainsRun(body: Body, env: DateEnv)
    ensures RunChains(TermRules, body, env) == TermChains(body, env)
  {
    RunFive(TermRules, body, env);
  }

  /** The creation rules are the nine chains in order. */
  lemma OpportunityCreateChains(body: Body, env: DateEnv)
    ensures OpportunityCreate(body, env)
      == TitleChain(body) + DescriptionChain(body) + TargetChain(body) + MinimumChain(body) + TermChains(body, env)
  {
    RunNine(CreationRules, body, env);
    assert CreationRules[4..] == TermRules;
    TermChainsRun(body, env);
  }

  lemma OpportunityCreateAsWrittenChains(body: Body, env: DateEnv)
    ensures OpportunityCreateAsWritten(body, env)
      == TitleChain(body) + DescriptionChain(body) + TargetChain(body) + MinimumChainAsWritten(body) + TermChains(body, env)
  {
    RunNine(CreationRulesAsWritten, body, env);
    assert CreationRulesAsWritten[4..] == TermRules;
    TermChainsRun(body, env);
  }

  /** A body giving both amounts as strings, a minimum of 1,000,000 and a target of 200,000,
      passes the rules as written whenever its other fields pass: "200000" < "1000000" is
      false in code-point order. */
  lemma OpportunityCreateAsWrittenAdmitsMinimumAboveTarget(body: Body, env: DateEnv)
    requires Field(body, "target_amount") == Str("200000") && Field(body, "minimum_investment") == Str("1000000")
    requires TitleChain(body) == [] && DescriptionChain(body) == [] && TermChains(body, env) == []
    ensures OpportunityCreateAsWritten(body, env) == []
    ensures Numeral(Field(body, "minimum_investment")) == Some(1000000)
    ensures Numeral(Field(body, "target_amount")) == Some(200000)
  {
    OpportunityCreateAsWrittenChains(body, env);
    AmountLiterals();
    assert !StrLess("200000", "1000000");
    assert MinimumChainAsWritten(body) == [];
  }

  /** The values of the two literals of the lemma above. */
  lemma AmountLiterals()
    ensures Numeral(Str("200000")) == Some(200000)
    ensures Numeral(Str("1000000")) == Some(1000000)
  {
    NumeralOfDigits("200000");
    TwoHundredThousand();
    NumeralOfDigits("1000000");
    OneMillion();
  }

  lemma NumeralOfDigits(s: string)
    requires |s| > 0 && AllDigits(s)
    ensures Numeral(Str(s)) == Some(DigitsValue(s))
  {
    assert !HasSign(s);
  }

  lemma TwoHundredThousand()
    ensures DigitsValue("200000") == 200000
  {
    assert DigitsValue("2") == 2;
    assert "20"[..1] == "2";
    assert DigitsValue("20") == 20;
    assert "200"[..2] == "20";
    assert DigitsValue("200") == 200;
    assert "2000"[..3] == "200";
    assert DigitsValue("2000") == 2000;
    assert "20000"[..4] == "2000";
    assert DigitsValue("20000") == 20000;
    assert "200000"[..5] == "20000";
  }

  lemma OneMillion()
    ensures DigitsValue("1000000") == 1000000
  {
    assert DigitsValue("1") == 1;
    assert "10"[..1] == "1";
    assert DigitsValue("10") == 10;
    assert "100"[..2] == "10";
    assert DigitsValue("100") == 100;
    assert "1000"[..3] == "100";
    assert DigitsValue("1000") == 1000;
    assert "10000"[..4] == "1000";
    assert DigitsValue("10000") == 10000;
    assert "100000"[..5] == "10000";
    assert DigitsValue("100000") == 100000;
    assert "1000000"[..6] == "100000";
  }

  /** What the creation rules admit: a title of 1 to 100 characters, a description of 1 to
      1000, a target of at least 100,000, a minimum of at least 5,000 and no more than the
      target, returns between 0 and 100, a duration of 1 to 120 months, a known risk level,
      and dates that are well formed, a start that is not past and an end after the start. */
  predicate OpportunityAdmissible(body: Body, env: DateEnv) {
    var target, minimum := Field(body, "target_amount"), Field(body, "minimum_investment");
    var start, end := Field(body, "start_date"), Field(body, "end_date");
    && NotEmpty(Field(body, "title")) && IsLengthAtMost(Field(body, "title"), 100)
    && NotEmpty(Field(body, "description")) && IsLengthAtMost(Field(body, "description"), 1000)
    && IsFloatAtLeast(target, 100000)
    && IsFloatAtLeast(minimum, 5000) && Numeral(minimum).value <= Numeral(target).value
    && IsFloatBetween(Field(body, "expected_returns"), 0, 100)
    && IsIntBetween(Field(body, "duration"), 1, 120)
    && IsIn(Field(body, "risk_level"), RiskLevels)
    && (start != Undefined ==> env.isIso8601(ValidatorString(start)) && StartInPast(start, env).None?)
    && (end != Undefined ==> env.isIso8601(ValidatorString(end)) && EndNotAfterStart(end, start, env).None?)
  }

  /** The creation rules pass exactly on admissible bodies. */
  lemma OpportunityCreateAccepts(body: Body, env: DateEnv)
    ensures OpportunityCreate(body, env) == [] <==> OpportunityAdmissible(body, env)
  {
    OpportunityCreateChains(body, env);
    if Numeral(Field(body, "target_amount")).Some? {
      MinimumChainAccepts(body);
    }
  }

  /** With both dates given and valid, the end date is refused exactly when it is not strictly
      after the start date; an equal date is refused. */
  lemma EndDateStrictlyAfterStart(body: Body, env: DateEnv, s: int, e: int)
    requires Field(body, "start_date").Str? && Field(body, "start_date").s != []
    requires Field(body, "end_date").Str? && env.isIso8601(Field(body, "end_date").s)
    requires env.parse(Field(body, "start_date").s) == Some(s)
    requires env.parse(Field(body, "end_date").s) == Some(e)
    ensures HasErrorAt(OpportunityCreate(body, env), "end_date") <==> e <= s
  {
    var front := TitleChain(body) + DescriptionChain(body) + TargetChain(body) + MinimumChain(body);
    var middle := ReturnsChain(body) + DurationChain(body) + RiskChain(body) + StartChain(body, env);
    var end := EndChain(body, env);
    OpportunityCreateChains(body, env);
    assert OpportunityCreate(body, env) == front + (middle + end);
    FrontChainsNotAtEnd(body);
    MiddleChainsNotAtEnd(body, env);
    HasErrorAtConcat(front, middle + end, "end_date");
    HasErrorAtConcat(middle, end, "end_date");
    HasErrorAtOwnChain(end, "end_date");
    EndChainRefuses(body, env, s, e);
  }

  lemma EndChainRefuses(body: Body, env: DateEnv, s: int, e: int)
    requires Field(body, "start_date").Str? && Field(body, "start_date").s != []
    requires Field(body, "end_date").Str? && env.isIso8601(Field(body, "end_date").s)
    requires env.parse(Field(body, "start_date").s) == Some(s)
    requires env.parse(Field(body, "end_date").s) == Some(e)
    ensures EndChain(body, env) != [] <==> e <= s
  {
    assert Truthy(Field(body, "start_date"));
  }

  lemma FrontChainsNotAtEnd(body: Body)
    ensures !HasErrorAt(TitleChain(body) + DescriptionChain(body) + TargetChain(body) + MinimumChain(body), "end_date")
  {
    NoErrorAtOthers(TitleChain(body), "title", "end_date");
    NoErrorAtOthers(DescriptionChain(body), "description", "end_date");
    NoErrorAtOthers(TargetChain(body), "target_amount", "end_date");
    NoErrorAtOthers(MinimumChain(body), "minimum_investment", "end_date");
    HasErrorAtConcat(TitleChain(body), DescriptionChain(body), "end_date");
    HasErrorAtConcat(TitleChain(body) + DescriptionChain(body), TargetChain(body), "end_date");
    HasErrorAtConcat(TitleChain(body) + DescriptionChain(body) + TargetChain(body), MinimumChain(body), "end_date");
  }

  lemma MiddleChainsNotAtEnd(body: Body, env: DateEnv)
    ensures !HasErrorAt(ReturnsChain(body) + DurationChain(body) + RiskChain(body) + StartChain(body, env), "end_date")
  {
    NoErrorAtOthers(ReturnsChain(body), "expected_returns", "end_date");
    NoErrorAtOthers(DurationChain(body), "duration", "end_date");
    NoErrorAtOthers(RiskChain(body), "risk_level", "end_date");
    NoErrorAtOthers(StartChain(body, env), "start_date", "end_date");
    HasErrorAtConcat(ReturnsChain(body), DurationChain(body), "end_date");
    HasErrorAtConcat(ReturnsChain(body) + DurationChain(body), RiskChain(body), "end_date");
    HasErrorAtConcat(ReturnsChain(body) + DurationChain(body) + RiskChain(body), StartChain(body, env), "end_date");
  }

  // ---------------------------------------------------------------------------------------
  // Joining an opportunity.

  /** The columns of the opportunity row the custom check reads, as JavaScript values. */
  datatype OpportunityFacts = OpportunityFacts(minimum: Value, target: Value, status: Value)



  /** The admission chain as written: the running total is added to the raw body amount. */
  function JoinVerdictAsWritten(opportunity: Option<OpportunityFacts>, committed: int, amount: Value): Option<Message> {
    match opportunity
    case None => Some(OpportunityNotFound)
    case Some(o) =>
      if o.status != Str("open") then Some(NotOpen)
      else if Less(amount, o.minimum) then Some(AmountBelowMinimum(o.minimum))
      else if Less(o.target, Add(Num(committed), amount)) then Some(ExceedsTarget)
      else None
  }

  /** The admission chain with the ceiling checked on the number: `total + Number(amount)`. */
  function JoinVerdict(opportunity: Option<OpportunityFacts>, committed: int, amount: Value): Option<Message> {
    match opportunity
    case None => Some(OpportunityNotFound)
    case Some(o) =>
      if o.status != Str("open") then Some(NotOpen)
      else if Less(amount, o.minimum) then Some(AmountBelowMinimum(o.minimum))
      else if Less(o.target, Add(Num(committed), NumberValue(amount))) then Some(ExceedsTarget)
      else None
  }

  /** The checks run in a fixed order: a missing opportunity, then one that is not open, then
      an amount below the minimum, then a total above the target. */
  lemma JoinVerdictOrder(opportunity: Option<OpportunityFacts>, committed: int, amount: Value)
    ensures opportunity.None? ==> JoinVerdict(opportunity, committed, amount) == Some(OpportunityNotFound)
    ensures opportunity.Some? && opportunity.value.status != Str("open") ==>
      JoinVerdict(opportunity, committed, amount) == Some(NotOpen)
    ensures opportunity.Some? && opportunity.value.status == Str("open") && Less(amount, opportunity.value.minimum) ==>
      JoinVerdict(opportunity, committed, amount) == Some(AmountBelowMinimum(opportunity.value.minimum))
  {
  }

  /** For an open opportunity with numeric minimum and target, a numeral amount is admitted
      exactly when it reaches the minimum and the new total does not pass the target; a total
      that lands exactly on the target is admitted. */
  lemma JoinVerdictNumeric(minimum: int, target: int, committed: int, amount: Value)
    requires Numeral(amount).Some?
    ensures var a := Numeral(amount).value;
      JoinVerdict(Some(OpportunityFacts(Num(minimum), Num(target), Str("open"))), committed, amount) == None
      <==> minimum <= a && committed + a <= target
  {
    NumeralBelow(amount, minimum);
    JoinVerdictOfNumber(minimum, target, committed, amount, Numeral(amount).value);
  }

  lemma JoinVerdictOfNumber(minimum: int, target: int, committed: int, amount: Value, a: int)
    requires NumberValue(amount) == Num(a) && (Less(amount, Num(minimum)) <==> a < minimum)
    ensures JoinVerdict(Some(OpportunityFacts(Num(minimum), Num(target), Str("open"))), committed, amount) == None
      <==> minimum <= a && committed + a <= target
  {
    NumbersCompareAsIntegers(committed, a);
    NumbersCompareAsIntegers(target, committed + a);
  }

  /** A numeral compares with a number as its integer, and `Number` reads it as that integer. */
  lemma NumeralBelow(v: Value, x: int)
    requires Numeral(v).Some?
    ensures Less(v, Num(x)) <==> Numeral(v).value < x
    ensures NumberValue(v) == Num(Numeral(v).value)
  {
    NumeralIsNumber(v);
  }

  /** As written, a string amount is concatenated onto the running total: "+6000" after a
      total of 95,000 makes "95000+6000", which is not a number, so the amount is admitted
      to an open opportunity with any target and a minimum up to 6000; with a target of
      100,000 the total becomes 101,000. */
  lemma JoinVerdictAsWrittenOverfills(minimum: int, target: int, committed: nat)
    requires minimum <= 6000
    ensures JoinVerdictAsWritten(Some(OpportunityFacts(Num(minimum), Num(target), Str("open"))), committed, Str("+6000")) == None
    ensures Numeral(Str("+6000")) == Some(6000)
  {
    var o := OpportunityFacts(Num(minimum), Num(target), Str("open"));
    PlusSixThousandReachesMinimum(minimum);
    PlusSixThousandConcatenates(committed, target);
    JoinVerdictAsWrittenAdmits(o, committed, Str("+6000"));
    PlusSixThousand();
  }

  lemma PlusSixThousandReachesMinimum(minimum: int)
    requires minimum <= 6000
    ensures !Less(Str("+6000"), Num(minimum))
  {
    PlusSixThousand();
  }

  lemma PlusSixThousandConcatenates(committed: nat, target: int)
    ensures !Less(Num(target), Add(Num(committed), Str("+6000")))
  {
    assert "+6000"[1..] == "6000";
    SignedAmountConcatenates(committed, target, "+6000");
  }

  lemma JoinVerdictAsWrittenAdmits(o: OpportunityFacts, committed: int, amount: Value)
    requires o.status == Str("open") && !Less(amount, o.minimum) && !Less(o.target, Add(Num(committed), amount))
    ensures JoinVerdictAsWritten(Some(o), committed, amount) == None
  {
  }

  lemma PlusSixThousand()
    ensures ToNumber(Str("+6000")) == Some(6000) && Numeral(Str("+6000")) == Some(6000)
  {
    SixThousand();
    assert Unsigned("+6000") == "6000";
    TrimOfLiteral("+6000");
  }

  lemma FiveThousand(amount: string)
    requires amount == "5000"
    ensures AllDigits(amount) && DigitsValue(amount) == 5000 && IsIntLiteral(amount)
  {
    assert DigitsValue("5") == 5;
    assert "50"[..1] == "5";
    assert DigitsValue("50") == 50;
    assert "500"[..2] == "50";
    assert DigitsValue("500") == 500;
    assert amount[..3] == "500";
    assert !HasSign(amount) && Unsigned(amount) == amount;
  }

  lemma SixThousand()
    ensures DigitsValue("6000") == 6000
  {
    assert DigitsValue("6") == 6;
    assert "60"[..1] == "6";
    assert DigitsValue("60") == 60;
    assert "600"[..2] == "60";
    assert DigitsValue("600") == 600;
    assert "6000"[..3] == "600";
  }

  /** A non-negative running total followed by a signed numeral string is not a number, so
      the ceiling comparison is false whatever the target. */
  lemma SignedAmountConcatenates(committed: nat, target: int, amount: string)
    requires |amount| > 1 && amount[0] == '+' && AllDigits(amount[1..])
    ensures !Less(Num(target), Add(Num(committed), Str(amount)))
  {
    var total := NatToString(committed);
    assert amount == "+" + amount[1..];
    assert Add(Num(committed), Str(amount)) == Str(total + "+" + amount[1..]);
    InnerSignIsNaN(total, amount[1..]);
  }

  /** The other face of the same concatenation: a non-negative running total followed by a
      plain numeral string reads as at least ten times the total, so once ten times the total
      exceeds the target every plain amount is refused, even one that fits. */
  lemma PlainAmountConcatenates(committed: nat, target: int, amount: string)
    requires |amount| > 0 && AllDigits(amount) && target < committed * 10
    ensures Less(Num(target), Add(Num(committed), Str(amount)))
  {
    var total := NatToString(committed);
    var t := total + amount;
    assert JsString(Num(committed)) == total;
    assert Add(Num(committed), Str(amount)) == Str(t);
    TextOfDigits(t);
    NatToStringValue(committed);
    DigitsAppendGrows(total, amount);
    assert ToNumber(Str(t)) == Some(DigitsValue(t) as int);
  }

  /** A string of digits is a numeral, and `Number` reads it as their value. */
  lemma TextOfDigits(t: string)
    requires |t| > 0 && AllDigits(t)
    ensures StringToNumber(t) == Some(DigitsValue(t) as int)
  {
    assert !HasSign(t) && Unsigned(t) == t;
    assert IsIntLiteral(t);
    TrimOfLiteral(t);
  }

  lemma {:induction false} DigitsAppendGrows(u: string, v: string)
    requires AllDigits(u) && |v| > 0 && AllDigits(v)
    ensures DigitsValue(u + v) >= DigitsValue(u) * 10
    decreases |v|
  {
    var c := v[|v| - 1];
    var w := v[..|v| - 1];
    assert u + v == (u + w) + [c];
    DigitsValueSnoc(u + w, c);
    if w != [] {
      DigitsAppendGrows(u, w);
    } else {
      assert u + w == u;
    }
  }

  /** With 95,000 of a 100,000 target pledged and a minimum of 5000, the amount "5000" fits
      exactly: the numeric chain admits it, and the chain as written refuses it because
      "950005000" exceeds the target. */
  lemma JoinVerdictAsWrittenRefusesFit(amount: string)
    requires amount == "5000"
    ensures var o := Some(OpportunityFacts(Num(5000), Num(100000), Str("open")));
      JoinVerdictAsWritten(o, 95000, Str(amount)) == Some(ExceedsTarget) && JoinVerdict(o, 95000, Str(amount)) == None
  {
    FiveThousand(amount);
    assert Numeral(Str(amount)) == Some(5000);
    NumeralBelow(Str(amount), 5000);
    PlainAmountConcatenates(95000, 100000, amount);
    JoinVerdictNumeric(5000, 100000, 95000, Str(amount));
  }

  function JoinAmountChain(body: Body, opportunity: Option<OpportunityFacts>, committed: int): (r: seq<FieldError>)
    ensures AllAt(r, "amount")
  {
    var amount := Field(body, "amount");
    Check(IsFloatAtLeast(amount, 0), body, "amount", InvestmentAmountRequired)
    + Custom(JoinVerdict(opportunity, committed, amount), body, "amount")
  }

  function JoinAmountChainAsWritten(body: Body, opportunity: Option<OpportunityFacts>, committed: int): (r: seq<FieldError>)
    ensures AllAt(r, "amount")
  {
    var amount := Field(body, "amount");
    Check(IsFloatAtLeast(amount, 0), body, "amount", InvestmentAmountRequired)
    + Custom(JoinVerdictAsWritten(opportunity, committed, amount), body, "amount")
  }

  /** The rules for joining an opportunity. `opportunity` is the row the path id selects and
      `committed` the sum already pledged to it. */
  function Join(id: string, body: Body, opportunity: Option<OpportunityFacts>, committed: int): seq<FieldError> {
    ParamCheck(IsIntLiteral(id), "id", id, InvestmentIdRequired)
    + Check(IsInt(Field(body, "user_id")), body, "user_id", UserIdRequired)
    + JoinAmountChain(body, opportunity, committed)
  }

  /** The same rules with the admission chain as written. */
  function JoinAsWritten(id: string, body: Body, opportunity: Option<OpportunityFacts>, committed: int): seq<FieldError> {
    ParamCheck(IsIntLiteral(id), "id", id, InvestmentIdRequired)
    + Check(IsInt(Field(body, "user_id")), body, "user_id", UserIdRequired)
    + JoinAmountChainAsWritten(body, opportunity, committed)
  }

  /** A join that passes names an open opportunity and keeps its total within a numeric
      target: the amount is a non-negative numeral and the new total is at most the target. */
  lemma JoinAccepted(id: string, body: Body, opportunity: Option<OpportunityFacts>, committed: int)
    requires Join(id, body, opportunity, committed) == []
    ensures IsIntLiteral(id) && Numeral(Field(body, "user_id")).Some?
    ensures opportunity.Some? && opportunity.value.status == Str("open")
    ensures Numeral(Field(body, "amount")).Some? && Numeral(Field(body, "amount")).value >= 0
    ensures opportunity.value.target.Num? ==> committed + Numeral(Field(body, "amount")).value <= opportunity.value.target.n
  {
    var amount := Field(body, "amount");
    assert JoinAmountChain(body, opportunity, committed) == [];
    assert JoinVerdict(opportunity, committed, amount) == None;
    NumeralIsNumber(amount);
    var a := Numeral(amount).value;
    assert NumberValue(amount) == Num(a);
    NumbersCompareAsIntegers(committed, a);
    if opportunity.value.target.Num? {
      NumbersCompareAsIntegers(opportunity.value.target.n, committed + a);
    }
  }

  /** A join the rules as written let through names an open opportunity, a user id and a
      non-negative numeral amount, but nothing bounds the new total by the target. */
  lemma JoinAsWrittenAccepted(id: string, body: Body, opportunity: Option<OpportunityFacts>, committed: int)
    requires JoinAsWritten(id, body, opportunity, committed) == []
    ensures IsIntLiteral(id) && Numeral(Field(body, "user_id")).Some?
    ensures opportunity.Some? && opportunity.value.status == Str("open")
    ensures Numeral(Field(body, "amount")).Some? && Numeral(Field(body, "amount")).value >= 0
  {
    assert JoinAmountChainAsWritten(body, opportunity, committed) == [];
    assert JoinVerdictAsWritten(opportunity, committed, Field(body, "amount")) == None;
  }

  // ---------------------------------------------------------------------------------------
  // Editing opportunities and participations.

  /** The start and end dates stored on the row the path id selects, as JavaScript values. */
  datatype StoredDates = StoredDates(start: Value, end: Value)


  /** The custom check on a new status: opening needs both stored dates; without a row the
      property access throws a `TypeError`, whose message becomes the error. */
  function OpenCheck(status: Value, stored: Option<StoredDates>): Option<Message> {
    if status != Str("open") then None
    else match stored
      case None => Some(MissingRow)
      case Some(d) =>
        if !Truthy(d.start) || !Truthy(d.end) then Some(DatesRequiredToOpen) else None
  }

  /** The rules for editing an opportunity. */
  function OpportunityUpdate(id: string, body: Body, stored: Option<StoredDates>): seq<FieldError> {
    var status, title, description := Field(body, "status"), Field(body, "title"), Field(body, "description");
    ParamCheck(IsIntLiteral(id), "id", id, InvestmentIdRequired)
    + (if status.Undefined? then []
       else Check(IsIn(status, OpportunityStatuses), body, "status", InvalidStatus)
            + Custom(OpenCheck(status, stored), body, "status"))
    + (if title.Undefined? then []
       else Check(NotEmpty(title), body, "title", InvalidValue)
            + Check(IsLengthAtMost(title, 100), body, "title", TitleTooLong))
    + (if description.Undefined? then []
       else Check(NotEmpty(description), body, "description", InvalidValue)
            + Check(IsLengthAtMost(description, 1000), body, "description", DescriptionTooLong))
  }

  /** Opening is refused exactly when the stored row lacks a start or an end date, whatever
      dates the same request carries. */
  lemma OpeningNeedsStoredDates(id: string, body: Body, start: Value, end: Value)
    requires Field(body, "status") == Str("open")
    ensures var b := body["start_date" := start]["end_date" := end];
      OpportunityUpdate(id, b, None) == OpportunityUpdate(id, body, None)
      && (forall d: StoredDates {:trigger OpportunityUpdate(id, b, Some(d))} ::
            OpportunityUpdate(id, b, Some(d)) == OpportunityUpdate(id, body, Some(d)))
    ensures forall d: StoredDates {:trigger OpenCheck(Str("open"), Some(d))} ::
      OpenCheck(Str("open"), Some(d)).Some? <==> !Truthy(d.start) || !Truthy(d.end)
  {
    var b := body["start_date" := start]["end_date" := end];
    UpdateIgnoresDates(id, body, start, end, None);
    forall d: StoredDates ensures OpportunityUpdate(id, b, Some(d)) == OpportunityUpdate(id, body, Some(d)) {
      UpdateIgnoresDates(id, body, start, end, Some(d));
    }
  }

  /** The rules for editing an opportunity do not read the dates of the request. */
  lemma UpdateIgnoresDates(id: string, body: Body, start: Value, end: Value, stored: Option<StoredDates>)
    ensures OpportunityUpdate(id, body["start_date" := start]["end_date" := end], stored) ==
            OpportunityUpdate(id, body, stored)
  {
    var b := body["start_date" := start]["end_date" := end];
    assert Field(b, "status") == Field(body, "status");
    assert Field(b, "title") == Field(body, "title");
    assert Field(b, "description") == Field(body, "description");
  }

  const ParticipationStatuses := ["pending", "active", "completed"]

  /** `req.body.status === 'completed' && !returns`. */
  function ReturnsCheck(status: Value, earned: Value): Option<Message> {
    if status == Str("completed") && !Truthy(earned) then Some(ReturnsRequired) else None
  }

  /** The rules for changing a participation's status. */
  function ParticipationStatusUpdate(participationId: string, body: Body): seq<FieldError> {
    var status, earned := Field(body, "status"), Field(body, "returns_amount");
    ParamCheck(IsIntLiteral(participationId), "participationId", participationId, ParticipationIdRequired)
    + Check(IsIn(status, ParticipationStatuses), body, "status", InvalidStatus)
    + (if earned.Undefined? then []
       else Check(IsFloatAtLeast(earned, 0), body, "returns_amount", ReturnsAmountRequired)
            + Custom(ReturnsCheck(status, earned), body, "returns_amount"))
  }

  /** Completing with a falsy returns amount such as 0 is refused, but completing with no
      returns amount at all passes. */
  lemma CompletionReturns(participationId: string, body: Body)
    requires IsIntLiteral(participationId) && Field(body, "status") == Str("completed")
    ensures ParticipationStatusUpdate(participationId, body - {"returns_amount"}) == []
    ensures ParticipationStatusUpdate(participationId, body["returns_amount" := Num(0)]) != []
  {
    var b := body["returns_amount" := Num(0)];
    assert Field(b, "returns_amount") == Num(0);
    assert Field(body - {"returns_amount"}, "returns_amount") == Undefined;
    assert Field(body - {"returns_amount"}, "status") == Str("completed");
  }

  /** The rules for posting an update to an opportunity. */
  function UpdatePost(id: string, body: Body): seq<FieldError> {
    var title, description := Field(body, "title"), Field(body, "description");
    ParamCheck(IsIntLiteral(id), "id", id, InvestmentIdRequired)
    + Check(NotEmpty(title), body, "title", InvalidValue)
    + Check(IsLengthAtMost(title, 100), body, "title", UpdateTitleTooLong)
    + Check(NotEmpty(description), body, "description", InvalidValue)
    + Check(IsLengthAtMost(description, 2000), body, "description", UpdateDescriptionTooLong)
    + Check(IsIn(Field(body, "update_type"), ["progress", "returns", "completion"]), body, "update_type", InvalidUpdateType)
    + Check(IsInt(Field(body, "created_by")), body, "created_by", CreatorIdRequired)
  }

  /** An update passes exactly when its title and description are non-empty and short enough,
      its type is one of the three and its author id is an integer. */
  lemma UpdatePostAccepts(id: string, body: Body)
    ensures UpdatePost(id, body) == [] <==>
      && IsIntLiteral(id)
      && ValidatorString(Field(body, "title")) != "" && TextLength(ValidatorString(Field(body, "title"))) <= 100
      && ValidatorString(Field(body, "description")) != "" && TextLength(ValidatorString(Field(body, "description"))) <= 2000
      && ValidatorString(Field(body, "update_type")) in {"progress", "returns", "completion"}
      && Numeral(Field(body, "created_by")).Some?
  {
  }

  /** The rule guarding the routes keyed by an opportunity id: the id must be an integer and
      name an existing row. The look-up runs whatever the id is. */
  function OpportunityExists(id: string, found: bool): (r: seq<FieldError>)
    ensures r == [] <==> IsIntLiteral(id) && found
  {
    ParamCheck(IsIntLiteral(id), "id", id, InvestmentIdRequired)
    + (if found then [] else [FieldError(PathParam, "id", Str(id), InvestmentNotFound)])
  }

  /** The rule guarding a user's participation list. */
  function UserExists(userId: string, found: bool): (r: seq<FieldError>)
    ensures r == [] <==> IsIntLiteral(userId) && found
  {
    ParamCheck(IsIntLiteral(userId), "userId", userId, UserIdRequired)
    + (if found then [] else [FieldError(PathParam, "userId", Str(userId), UserNotFound)])
  }
}
