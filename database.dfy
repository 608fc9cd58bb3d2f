/** The club's SQLite database as the routes use it: the rows of every table the routes read
    or write, the conversions a JavaScript value undergoes on its way into a column, and the
    constraints of the schema (NOT NULL, CHECK, UNIQUE, and the foreign keys, which the
    connection enforces). A write that breaks a constraint is refused by the engine and
    leaves the tables as they were. */
module Database {
  import opened Wrappers
  import opened JsValues
  import opened Sql

  // ---------------------------------------------------------------------------------------
  // Enumerated columns: the text values their CHECK constraints admit.

  datatype Role = Admin | Member
  datatype UserStatus = ActiveUser | InactiveUser
  datatype ContributionStatus = PendingContribution | ValidatedContribution | RejectedContribution
  datatype RiskLevel = LowRisk | MediumRisk | HighRisk
  datatype OpportunityStatus = Draft | Open | Closed | Finished
  datatype ParticipationStatus = PendingParticipation | ActiveParticipation | CompletedParticipation
  datatype UpdateType = Progress | Returns | Completion

  function RoleName(x: Role): string {
    match x
    case Admin => "admin"
    case Member => "member"
  }

  function UserStatusName(x: UserStatus): string {
    match x
    case ActiveUser => "active"
    case InactiveUser => "inactive"
  }

  function ContributionStatusName(x: ContributionStatus): string {
    match x
    case PendingContribution => "pending"
    case ValidatedContribution => "validated"
    case RejectedContribution => "rejected"
  }

  function RiskName(x: RiskLevel): string {
    match x
    case LowRisk => "low"
    case MediumRisk => "medium"
    case HighRisk => "high"
  }

  function OpportunityStatusName(x: OpportunityStatus): string {
    match x
    case Draft => "draft"
    case Open => "open"
    case Closed => "closed"
    case Finished => "completed"
  }

  function ParticipationStatusName(x: ParticipationStatus): string {
    match x
    case PendingParticipation => "pending"
    case ActiveParticipation => "active"
    case CompletedParticipation => "completed"
  }

  function UpdateTypeName(x: UpdateType): string {
    match x
    case Progress => "progress"
    case Returns => "returns"
    case Completion => "completion"
  }

  /** `CHECK(role IN ('admin', 'member'))` on the stored text; `None` is a refused value. */
  function RoleOf(v: SqlValue): (r: Option<Role>)
    ensures r.Some? ==> v == SqlText(RoleName(r.value))
    ensures forall x: Role :: v == SqlText(RoleName(x)) ==> r == Some(x)
  {
    if v == SqlText("admin") then Some(Admin)
    else if v == SqlText("member") then Some(Member)
    else None
  }

  function UserStatusOf(v: SqlValue): (r: Option<UserStatus>)
    ensures r.Some? ==> v == SqlText(UserStatusName(r.value))
    ensures forall x: UserStatus :: v == SqlText(UserStatusName(x)) ==> r == Some(x)
  {
    if v == SqlText("active") then Some(ActiveUser)
    else if v == SqlText("inactive") then Some(InactiveUser)
    else None
  }

  function ContributionStatusOf(v: SqlValue): (r: Option<ContributionStatus>)
    ensures r.Some? ==> v == SqlText(ContributionStatusName(r.value))
    ensures forall x: ContributionStatus :: v == SqlText(ContributionStatusName(x)) ==> r == Some(x)
  {
    if v == SqlText("pending") then Some(PendingContribution)
    else if v == SqlText("validated") then Some(ValidatedContribution)
    else if v == SqlText("rejected") then Some(RejectedContribution)
    else None
  }

  function RiskOf(v: SqlValue): (r: Option<RiskLevel>)
    ensures r.Some? ==> v == SqlText(RiskName(r.value))
    ensures forall x: RiskLevel :: v == SqlText(RiskName(x)) ==> r == Some(x)
  {
    if v == SqlText("low") then Some(LowRisk)
    else if v == SqlText("medium") then Some(MediumRisk)
    else if v == SqlText("high") then Some(HighRisk)
    else None
  }

  function OpportunityStatusOf(v: SqlValue): (r: Option<OpportunityStatus>)
    ensures r.Some? ==> v == SqlText(OpportunityStatusName(r.value))
    ensures forall x: OpportunityStatus :: v == SqlText(OpportunityStatusName(x)) ==> r == Some(x)
  {
    if v == SqlText("draft") then Some(Draft)
    else if v == SqlText("open") then Some(Open)
    else if v == SqlText("closed") then Some(Closed)
    else if v == SqlText("completed") then Some(Finished)
    else None
  }

  function ParticipationStatusOf(v: SqlValue): (r: Option<ParticipationStatus>)
    ensures r.Some? ==> v == SqlText(ParticipationStatusName(r.value))
    ensures forall x: ParticipationStatus :: v == SqlText(ParticipationStatusName(x)) ==> r == Some(x)
  {
    if v == SqlText("pending") then Some(PendingParticipation)
    else if v == SqlText("active") then Some(ActiveParticipation)
    else if v == SqlText("completed") then Some(CompletedParticipation)
    else None
  }

  function UpdateTypeOf(v: SqlValue): (r: Option<UpdateType>)
    ensures r.Some? ==> v == SqlText(UpdateTypeName(r.value))
    ensures forall x: UpdateType :: v == SqlText(UpdateTypeName(x)) ==> r == Some(x)
  {
    if v == SqlText("progress") then Some(Progress)
    else if v == SqlText("returns") then Some(Returns)
    else if v == SqlText("completion") then Some(Completion)
    else None
  }

  // ---------------------------------------------------------------------------------------
  // From a JavaScript value to a column.

  /** A value bound into a TEXT column. */
  function TextColumn(v: Value): (r: SqlValue)
    ensures r.SqlNull? <==> (v.Undefined? || v.Null? || v.NaN?)
    ensures v.Str? ==> r == SqlText(v.s)
    ensures !r.SqlInt?
  {
    TextAffinity(Bind(v))
  }

  /** A value bound into an INTEGER or DECIMAL column. */
  function NumericColumn(v: Value): (r: SqlValue)
    ensures r.SqlNull? <==> (v.Undefined? || v.Null? || v.NaN?)
  {
    NumericAffinity(Bind(v))
  }

  /** A value the request validators read as an integer numeral is stored as that integer. */
  lemma NumeralColumn(v: Value)
    requires Numeral(v).Some?
    ensures NumericColumn(v) == SqlInt(Numeral(v).value)
  {
    match v
    case Num(n) => IntToStringRoundTrip(n);
    case Str(s) => TrimOfLiteral(s);
  }

  /** A NOT NULL TEXT column: the stored text, or `None` when the engine refuses the value. */
  function RequiredText(v: Value): (r: Option<string>)
    ensures r.None? <==> (v.Undefined? || v.Null? || v.NaN?)
    ensures v.Str? ==> r == Some(v.s)
  {
    var c := TextColumn(v);
    if c.SqlText? then Some(c.t) else None
  }

  /** The row a `WHERE id = ?` with a path parameter selects: the parameter meets an INTEGER
      key, whose affinity reads text that names an integral number as that integer. So an
      integer literal ("7", "007", "+7") names that row, and so do "7.0", "7e0" and " 7 "; any
      other text ("7.5", "0x7", "seven") names none. */
  function PathKey(param: string): (r: Option<int>)
    ensures IsIntLiteral(param) ==> r == Some(IntLiteralValue(param))
    ensures r.Some? ==> NumericAffinity(SqlText(param)) == SqlInt(r.value)
    ensures r.None? ==> NumericAffinity(SqlText(param)).SqlText?
  {
    IntegralText(param)
  }

  // ---------------------------------------------------------------------------------------
  // Rows.

  /** A row of `users`; `profile_picture_url` is written by no modelled route and left out. */
  datatype User = User(id: int, name: string, email: string, role: Role, status: UserStatus,
                       createdAt: string, updatedAt: string)

  /** A row of `user_settings`; both preferences are JSON text. */
  datatype Settings = Settings(id: int, userId: int, notifications: string, communications: string,
                               updatedAt: string)

  /** A row of `contributions`. `validation_date` and `rejection_reason` are written by no
      route and left out. */
  datatype Contribution = Contribution(id: int, userId: int, amount: SqlValue, reference: string,
                                       proofUrl: SqlValue, date: SqlValue, status: ContributionStatus,
                                       validatedBy: Option<int>, createdAt: string, updatedAt: string)

  /** A row of `investment_opportunities`. The numeric columns keep `SqlValue`: only creation
      validates them, and an edit may store any value, text included. */
  datatype Opportunity = Opportunity(id: int, title: string, description: string,
                                     target: SqlValue, minimum: SqlValue, expectedReturns: SqlValue,
                                     duration: SqlValue, risk: RiskLevel, status: OpportunityStatus,
                                     startDate: SqlValue, endDate: SqlValue, createdBy: int,
                                     createdAt: string, updatedAt: string)

  /** A row of `investment_participants`. */
  datatype Participant = Participant(id: int, investmentId: int, userId: int, amount: int,
                                     status: ParticipationStatus, joinedAt: string,
                                     completedAt: Option<string>, returnsAmount: SqlValue)

  /** A row of `investment_updates`. */
  datatype InvestmentUpdate = InvestmentUpdate(id: int, investmentId: int, title: string,
                                               description: string, kind: UpdateType, createdBy: int,
                                               createdAt: string)

  /** The sum pledged to opportunity `id`: `COALESCE(SUM(amount), 0)` over its participants. */
  function Committed(ps: seq<Participant>, id: int): int {
    if ps == [] then 0
    else (if ps[0].investmentId == id then ps[0].amount else 0) + Committed(ps[1..], id)
  }

  lemma {:induction false} CommittedAppend(ps: seq<Participant>, p: Participant, id: int)
    ensures Committed(ps + [p], id) == Committed(ps, id) + (if p.investmentId == id then p.amount else 0)
  {
    if ps == [] {
      assert [p][1..] == [];
    } else {
      assert (ps + [p])[1..] == ps[1..] + [p];
      CommittedAppend(ps[1..], p, id);
    }
  }

  /** Participants of other opportunities do not count towards `id`. */
  lemma {:induction false} CommittedNone(ps: seq<Participant>, id: int)
    requires forall i | 0 <= i < |ps| :: ps[i].investmentId != id
    ensures Committed(ps, id) == 0
  {
    if ps != [] {
      CommittedNone(ps[1..], id);
    }
  }

  /** `WHERE investment_id = ?` on the participants. */
  function OfOpportunity(ps: seq<Participant>, k: int): (r: seq<Participant>)
    ensures |r| <= |ps|
    ensures forall i | 0 <= i < |r| :: r[i] in ps && r[i].investmentId == k
    ensures forall i | 0 <= i < |ps| && ps[i].investmentId == k :: ps[i] in r
  {
    if ps == [] then []
    else if ps[0].investmentId == k then [ps[0]] + OfOpportunity(ps[1..], k)
    else OfOpportunity(ps[1..], k)
  }

  /** `WHERE user_id = ?` on the participants. */
  function OfUser(ps: seq<Participant>, user: int): (r: seq<Participant>)
    ensures |r| <= |ps|
    ensures forall i | 0 <= i < |r| :: r[i] in ps && r[i].userId == user
    ensures forall i | 0 <= i < |ps| && ps[i].userId == user :: ps[i] in r
  {
    if ps == [] then []
    else if ps[0].userId == user then [ps[0]] + OfUser(ps[1..], user)
    else OfUser(ps[1..], user)
  }

  /** The participants an `ON DELETE CASCADE` from opportunity `k` leaves. */
  function NotOfOpportunity(ps: seq<Participant>, k: int): (r: seq<Participant>)
    ensures |r| <= |ps|
    ensures forall i | 0 <= i < |r| :: r[i] in ps && r[i].investmentId != k
    ensures forall i | 0 <= i < |ps| && ps[i].investmentId != k :: ps[i] in r
  {
    if ps == [] then []
    else if ps[0].investmentId != k then [ps[0]] + NotOfOpportunity(ps[1..], k)
    else NotOfOpportunity(ps[1..], k)
  }

  /** The sum pledged to `id` is the sum over its own participants. */
  lemma {:induction false} CommittedOf(ps: seq<Participant>, id: int)
    ensures Committed(OfOpportunity(ps, id), id) == Committed(ps, id)
  {
    if ps != [] {
      CommittedOf(ps[1..], id);
      if ps[0].investmentId == id {
        assert ([ps[0]] + OfOpportunity(ps[1..], id))[1..] == OfOpportunity(ps[1..], id);
      }
    }
  }

  /** Removing the participants of `k` leaves the sums of every other opportunity. */
  lemma {:induction false} CommittedCascade(ps: seq<Participant>, k: int, id: int)
    requires k != id
    ensures Committed(NotOfOpportunity(ps, k), id) == Committed(ps, id)
  {
    if ps != [] {
      CommittedCascade(ps[1..], k, id);
      if ps[0].investmentId != k {
        assert ([ps[0]] + NotOfOpportunity(ps[1..], k))[1..] == NotOfOpportunity(ps[1..], k);
      }
    }
  }

  /** The ledger: no opportunity with a numeric target has more pledged than the target. */
  predicate WithinTargetsOf(ops: map<int, Opportunity>, ps: seq<Participant>) {
    forall k | k in ops && ops[k].target.SqlInt? :: Committed(ps, k) <= ops[k].target.i
  }

  /** A pledge that fits its opportunity's target keeps the ledger. */
  lemma PledgeKeepsTargets(ops: map<int, Opportunity>, ps: seq<Participant>, p: Participant)
    requires WithinTargetsOf(ops, ps)
    requires p.investmentId in ops
    requires ops[p.investmentId].target.SqlInt? ==>
               Committed(ps, p.investmentId) + p.amount <= ops[p.investmentId].target.i
    ensures WithinTargetsOf(ops, ps + [p])
  {
    forall k | k in ops && ops[k].target.SqlInt?
      ensures Committed(ps + [p], k) <= ops[k].target.i
    {
      CommittedAppend(ps, p, k);
    }
  }

  /** A new opportunity has no participants, so it keeps the ledger. */
  lemma NewOpportunityKeepsTargets(ops: map<int, Opportunity>, ps: seq<Participant>, o: Opportunity)
    requires WithinTargetsOf(ops, ps)
    requires forall i | 0 <= i < |ps| :: ps[i].investmentId != o.id
    requires o.target.SqlInt? ==> 0 <= o.target.i
    ensures WithinTargetsOf(ops[o.id := o], ps)
  {
    CommittedNone(ps, o.id);
  }

  /** Deleting an opportunity with its participants keeps the ledger of the others. */
  lemma CascadeKeepsTargets(ops: map<int, Opportunity>, ps: seq<Participant>, k: int)
    requires WithinTargetsOf(ops, ps)
    ensures WithinTargetsOf(ops - {k}, NotOfOpportunity(ps, k))
  {
    forall j | j in ops - {k} && ops[j].target.SqlInt?
      ensures Committed(NotOfOpportunity(ps, k), j) <= ops[j].target.i
    {
      CommittedCascade(ps, k, j);
    }
  }

  /** `WHERE investment_id = ?` on the updates. */
  function UpdatesOf(us: seq<InvestmentUpdate>, k: int): (r: seq<InvestmentUpdate>)
    ensures forall i | 0 <= i < |r| :: r[i] in us && r[i].investmentId == k
    ensures forall i | 0 <= i < |us| && us[i].investmentId == k :: us[i] in r
    ensures forall u :: multiset(r)[u] == if u.investmentId == k then multiset(us)[u] else 0
  {
    if us == [] then []
    else
      assert us == [us[0]] + us[1..];
      if us[0].investmentId == k then [us[0]] + UpdatesOf(us[1..], k)
      else UpdatesOf(us[1..], k)
  }

  /** The updates an `ON DELETE CASCADE` from opportunity `k` leaves. */
  function UpdatesNotOf(us: seq<InvestmentUpdate>, k: int): (r: seq<InvestmentUpdate>)
    ensures forall i | 0 <= i < |r| :: r[i] in us && r[i].investmentId != k
    ensures forall i | 0 <= i < |us| && us[i].investmentId != k :: us[i] in r
  {
    if us == [] then []
    else if us[0].investmentId != k then [us[0]] + UpdatesNotOf(us[1..], k)
    else UpdatesNotOf(us[1..], k)
  }

  /** The UPDATE of every participant row with id `key`: status and returns amount are
      overwritten, `completed_at` becomes `now` when the new status is 'completed' and is kept
      otherwise. */
  function Restatus(ps: seq<Participant>, key: int, status: ParticipationStatus, earned: SqlValue, now: string): (r: seq<Participant>)
    ensures |r| == |ps|
    ensures forall i | 0 <= i < |ps| :: r[i] == if ps[i].id != key then ps[i] else
      ps[i].(status := status, returnsAmount := earned,
             completedAt := if status == CompletedParticipation then Some(now) else ps[i].completedAt)
  {
    if ps == [] then []
    else
      var p := ps[0];
      var q := if p.id != key then p else
        p.(status := status, returnsAmount := earned,
           completedAt := if status == CompletedParticipation then Some(now) else p.completedAt);
      [q] + Restatus(ps[1..], key, status, earned, now)
  }

  /** A status change moves no money: every opportunity's sum is unchanged. */
  lemma {:induction false} RestatusKeepsCommitted(ps: seq<Participant>, key: int, status: ParticipationStatus, earned: SqlValue, now: string, id: int)
    ensures Committed(Restatus(ps, key, status, earned, now), id) == Committed(ps, id)
  {
    if ps != [] {
      var r := Restatus(ps, key, status, earned, now);
      assert r[1..] == Restatus(ps[1..], key, status, earned, now);
      RestatusKeepsCommitted(ps[1..], key, status, earned, now, id);
    }
  }

  // ---------------------------------------------------------------------------------------
  // The constraints of each table; `top` is its AUTOINCREMENT counter.

  /** Ids are keys, every id is at most the counter, and e-mails are UNIQUE. */
  predicate UserRows(users: map<int, User>, top: int) {
    && (forall k | k in users :: users[k].id == k && k <= top)
    && UniqueEmails(users)
  }

  predicate UniqueEmails(users: map<int, User>) {
    forall a, b | a in users && b in users && a != b :: users[a].email != users[b].email
  }

  /** Every settings row names a user. */
  predicate SettingsRows(ss: seq<Settings>, users: map<int, User>) {
    forall i | 0 <= i < |ss| :: ss[i].userId in users
  }

  /** A new user under the next id with an e-mail no user holds keeps the table valid. */
  lemma UserAdded(users: map<int, User>, top: int, u: User)
    requires UserRows(users, top) && u.id == top + 1
    requires forall k | k in users :: users[k].email != u.email
    ensures u.id !in users && UserRows(users[u.id := u], u.id)
  {
  }

  /** Rewriting a user in place under an e-mail no other user holds keeps the table valid. */
  lemma UserReplaced(users: map<int, User>, top: int, u: User)
    requires UserRows(users, top) && u.id in users
    requires forall k | k in users && k != u.id :: users[k].email != u.email
    ensures UserRows(users[u.id := u], top)
  {
  }

  /** Ids are distinct and at most the counter, references are UNIQUE, NOT NULL columns hold
      values, and `user_id` and `validated_by` name users. */
  predicate ContributionRows(cs: seq<Contribution>, users: map<int, User>, top: int) {
    && (forall i | 0 <= i < |cs| :: cs[i].id <= top && ContributionRow(cs[i], users))
    && (forall i, j | 0 <= i < j < |cs| :: cs[i].id != cs[j].id && cs[i].reference != cs[j].reference)
  }

  /** One contribution row: NOT NULL columns hold values, the proof URL is text or NULL, and
      `user_id` and `validated_by` name users. */
  predicate ContributionRow(c: Contribution, users: map<int, User>) {
    && c.userId in users
    && !c.amount.SqlNull? && !c.date.SqlNull? && !c.proofUrl.SqlInt?
    && (c.validatedBy.Some? ==> c.validatedBy.value in users)
  }

  /** No row holds this transaction reference yet. */
  predicate FreshReference(cs: seq<Contribution>, reference: string) {
    forall i | 0 <= i < |cs| :: cs[i].reference != reference
  }

  /** A new well-formed contribution under the next id with a fresh reference keeps the table
      valid. */
  lemma ContributionAdded(cs: seq<Contribution>, users: map<int, User>, top: int, c: Contribution)
    requires ContributionRows(cs, users, top) && c.id == top + 1 && ContributionRow(c, users)
    requires FreshReference(cs, c.reference)
    ensures ContributionRows(cs + [c], users, c.id)
  {
  }

  /** Rewriting one row in place, keeping its id and reference, keeps the table valid. */
  lemma ContributionReplaced(cs: seq<Contribution>, users: map<int, User>, top: int, i: nat, c: Contribution)
    requires ContributionRows(cs, users, top) && i < |cs| && ContributionRow(c, users)
    requires c.id == cs[i].id && c.reference == cs[i].reference
    ensures ContributionRows(cs[i := c], users, top)
  {
  }

  /** One opportunity row: NOT NULL columns hold values and the creator is a user. */
  predicate OpportunityRow(o: Opportunity, users: map<int, User>) {
    && o.createdBy in users
    && !o.target.SqlNull? && !o.minimum.SqlNull? && !o.expectedReturns.SqlNull? && !o.duration.SqlNull?
  }

  /** Ids are keys, from 1 up to the counter, and every row is well formed. */
  predicate OpportunityRows(ops: map<int, Opportunity>, users: map<int, User>, top: int) {
    && 0 <= top
    && forall k | k in ops :: ops[k].id == k && 1 <= k <= top && OpportunityRow(ops[k], users)
  }

  /** Ids are at most the counter; every participant names an opportunity and a user. */
  predicate ParticipantRows(ps: seq<Participant>, ops: map<int, Opportunity>, users: map<int, User>, top: int) {
    forall i | 0 <= i < |ps| :: ps[i].id <= top && ps[i].investmentId in ops && ps[i].userId in users
  }

  /** Ids are at most the counter; every update names an opportunity and a user. */
  predicate UpdateRows(us: seq<InvestmentUpdate>, ops: map<int, Opportunity>, users: map<int, User>, top: int) {
    forall i | 0 <= i < |us| :: us[i].id <= top && us[i].investmentId in ops && us[i].createdBy in users
  }

  /** Removing an opportunity keeps the table valid. */
  lemma OpportunityRemoved(ops: map<int, Opportunity>, users: map<int, User>, top: int, k: int)
    requires OpportunityRows(ops, users, top)
    ensures OpportunityRows(ops - {k}, users, top)
  {
  }

  /** A new well-formed opportunity under the next id keeps the table valid. */
  lemma OpportunityAdded(ops: map<int, Opportunity>, users: map<int, User>, top: int, o: Opportunity)
    requires OpportunityRows(ops, users, top) && o.id == top + 1 && OpportunityRow(o, users)
    ensures o.id !in ops && OpportunityRows(ops[o.id := o], users, o.id)
  {
  }

  /** A new participant under the next id that names an opportunity and a user keeps the
      table valid. */
  lemma ParticipantAdded(ps: seq<Participant>, ops: map<int, Opportunity>, users: map<int, User>, top: int, p: Participant)
    requires ParticipantRows(ps, ops, users, top)
    requires p.id == top + 1 && p.investmentId in ops && p.userId in users
    ensures ParticipantRows(ps + [p], ops, users, p.id)
  {
  }

  /** A new update under the next id that names an opportunity and a user keeps the table
      valid. */
  lemma UpdateAdded(us: seq<InvestmentUpdate>, ops: map<int, Opportunity>, users: map<int, User>, top: int, u: InvestmentUpdate)
    requires UpdateRows(us, ops, users, top)
    requires u.id == top + 1 && u.investmentId in ops && u.createdBy in users
    ensures UpdateRows(us + [u], ops, users, u.id)
  {
  }

  /** Rows that name opportunities still name them when opportunities are added. */
  lemma OpportunitiesWidened(ps: seq<Participant>, us: seq<InvestmentUpdate>, ops: map<int, Opportunity>,
                             ops': map<int, Opportunity>, users: map<int, User>, pTop: int, uTop: int)
    requires ops.Keys <= ops'.Keys
    requires ParticipantRows(ps, ops, users, pTop) && UpdateRows(us, ops, users, uTop)
    ensures ParticipantRows(ps, ops', users, pTop) && UpdateRows(us, ops', users, uTop)
  {
  }

  /** The cascade from opportunity `k` leaves rows that name the remaining opportunities. */
  lemma CascadeKeepsRows(ps: seq<Participant>, us: seq<InvestmentUpdate>, ops: map<int, Opportunity>,
                         users: map<int, User>, pTop: int, uTop: int, k: int)
    requires ParticipantRows(ps, ops, users, pTop) && UpdateRows(us, ops, users, uTop)
    ensures ParticipantRows(NotOfOpportunity(ps, k), ops - {k}, users, pTop)
    ensures UpdateRows(UpdatesNotOf(us, k), ops - {k}, users, uTop)
  {
    var ps', us' := NotOfOpportunity(ps, k), UpdatesNotOf(us, k);
    forall i | 0 <= i < |ps'|
      ensures ps'[i].id <= pTop && ps'[i].investmentId in ops - {k} && ps'[i].userId in users
    {
      var j :| 0 <= j < |ps| && ps[j] == ps'[i];
    }
    forall i | 0 <= i < |us'|
      ensures us'[i].id <= uTop && us'[i].investmentId in ops - {k} && us'[i].createdBy in users
    {
      var j :| 0 <= j < |us| && us[j] == us'[i];
    }
  }

  /** A status change keeps the ledger. */
  lemma RestatusKeepsTargets(ops: map<int, Opportunity>, ps: seq<Participant>, key: int,
                             status: ParticipationStatus, earned: SqlValue, now: string)
    ensures WithinTargetsOf(ops, ps) ==> WithinTargetsOf(ops, Restatus(ps, key, status, earned, now))
  {
    forall k | k in ops
      ensures Committed(Restatus(ps, key, status, earned, now), k) == Committed(ps, k)
    {
      RestatusKeepsCommitted(ps, key, status, earned, now, k);
    }
  }

  /** The engine's store. Each field is one table; the `...Seq` fields are the AUTOINCREMENT
      counters of `sqlite_sequence`, the largest id each table has handed out. */
  class Db {
    var users: map<int, User>
    var settings: seq<Settings>
    var contributions: seq<Contribution>
    var opportunities: map<int, Opportunity>
    var participants: seq<Participant>
    var updates: seq<InvestmentUpdate>
    var userSeq: int
    var contributionSeq: int
    var opportunitySeq: int
    var participantSeq: int
    var updateSeq: int

    /** The constraints of the schema, as every committed state satisfies them. */
    predicate Valid()
      reads this
    {
      && UserRows(users, userSeq)
      && ContributionRows(contributions, users, contributionSeq)
      && OpportunityRows(opportunities, users, opportunitySeq)
      && ParticipantRows(participants, opportunities, users, participantSeq)
      && UpdateRows(updates, opportunities, users, updateSeq)
      && SettingsRows(settings, users)
    }

    predicate WithinTargets()
      reads this
    {
      WithinTargetsOf(opportunities, participants)
    }

    /** A pledge of `amount` to opportunity `key` keeps its sum within a numeric target. */
    predicate PledgeFits(key: int, amount: int)
      reads this
      requires key in opportunities
    {
      opportunities[key].target.SqlInt? ==> Committed(participants, key) + amount <= opportunities[key].target.i
    }

    /** `INSERT INTO investment_opportunities`: the row takes the next id. */
    method InsertOpportunity(o: Opportunity)
      requires Valid() && o.id == opportunitySeq + 1 && OpportunityRow(o, users)
      requires o.target.SqlInt? ==> 0 <= o.target.i
      modifies this`opportunities, this`opportunitySeq
      ensures Valid()
      ensures old(WithinTargets()) ==> WithinTargets()
      ensures o.id !in old(opportunities)
      ensures opportunities == old(opportunities)[o.id := o] && opportunitySeq == o.id
    {
      OpportunityAdded(opportunities, users, opportunitySeq, o);
      OpportunitiesWidened(participants, updates, opportunities, opportunities[o.id := o], users, participantSeq, updateSeq);
      if WithinTargets() {
        NewOpportunityKeepsTargets(opportunities, participants, o);
      }
      opportunities := opportunities[o.id := o];
      opportunitySeq := o.id;
    }

    /** `UPDATE investment_opportunities ... WHERE id = ?` on an existing row. The ledger is
        kept when the target stays. */
    method ReplaceOpportunity(o: Opportunity)
      requires Valid() && o.id in opportunities && OpportunityRow(o, users)
      modifies this`opportunities
      ensures Valid()
      ensures old(WithinTargets()) && o.target == old(opportunities[o.id].target) ==> WithinTargets()
      ensures opportunities == old(opportunities)[o.id := o]
    {
      OpportunitiesWidened(participants, updates, opportunities, opportunities[o.id := o], users, participantSeq, updateSeq);
      opportunities := opportunities[o.id := o];
    }

    /** `DELETE FROM investment_opportunities WHERE id = ?`, with the foreign keys' cascade to
        the participants and the updates of the row. */
    method DeleteOpportunity(k: int)
      requires Valid()
      modifies this`opportunities, this`participants, this`updates
      ensures Valid()
      ensures old(WithinTargets()) ==> WithinTargets()
      ensures opportunities == old(opportunities) - {k}
      ensures participants == NotOfOpportunity(old(participants), k)
      ensures updates == UpdatesNotOf(old(updates), k)
    {
      if WithinTargets() {
        CascadeKeepsTargets(opportunities, participants, k);
      }
      CascadeKeepsRows(participants, updates, opportunities, users, participantSeq, updateSeq, k);
      OpportunityRemoved(opportunities, users, opportunitySeq, k);
      opportunities := opportunities - {k};
      participants := NotOfOpportunity(participants, k);
      updates := UpdatesNotOf(updates, k);
    }

    /** `UPDATE investment_participants ... WHERE id = ?`: no money moves. */
    method RestatusParticipants(key: int, status: ParticipationStatus, earned: SqlValue, now: string)
      requires Valid()
      modifies this`participants
      ensures Valid()
      ensures old(WithinTargets()) ==> WithinTargets()
      ensures participants == Restatus(old(participants), key, status, earned, now)
    {
      RestatusKeepsTargets(opportunities, participants, key, status, earned, now);
      participants := Restatus(participants, key, status, earned, now);
    }

    /** `INSERT INTO investment_participants`: the row takes the next id. */
    method InsertParticipant(p: Participant)
      requires Valid() && p.id == participantSeq + 1 && p.investmentId in opportunities && p.userId in users
      modifies this`participants, this`participantSeq
      ensures Valid()
      ensures old(WithinTargets() && PledgeFits(p.investmentId, p.amount)) ==> WithinTargets()
      ensures participants == old(participants) + [p] && participantSeq == p.id
    {
      ParticipantAdded(participants, opportunities, users, participantSeq, p);
      if WithinTargets() && PledgeFits(p.investmentId, p.amount) {
        PledgeKeepsTargets(opportunities, participants, p);
      }
      participants := participants + [p];
      participantSeq := p.id;
    }

    /** `INSERT INTO users`: the row takes the next id. */
    method InsertUser(u: User)
      requires Valid() && u.id == userSeq + 1
      requires forall k | k in users :: users[k].email != u.email
      modifies this`users, this`userSeq
      ensures Valid()
      ensures u.id !in old(users) && users == old(users)[u.id := u] && userSeq == u.id
    {
      UserAdded(users, userSeq, u);
      users := users[u.id := u];
      userSeq := u.id;
    }

    /** `UPDATE users ... WHERE id = ?` on an existing row. */
    method ReplaceUser(u: User)
      requires Valid() && u.id in users
      requires forall k | k in users && k != u.id :: users[k].email != u.email
      modifies this`users
      ensures Valid()
      ensures users == old(users)[u.id := u]
    {
      UserReplaced(users, userSeq, u);
      users := users[u.id := u];
    }

    /** `UPDATE user_settings ...`: rows keep their owners. */
    method ReplaceSettings(ss: seq<Settings>)
      requires Valid() && |ss| == |settings|
      requires forall i | 0 <= i < |ss| :: ss[i].userId == settings[i].userId
      modifies this`settings
      ensures Valid()
      ensures settings == ss
    {
      settings := ss;
    }

    /** `INSERT INTO contributions`: the row takes the next id. */
    method InsertContribution(c: Contribution)
      requires Valid() && c.id == contributionSeq + 1 && ContributionRow(c, users)
      requires FreshReference(contributions, c.reference)
      modifies this`contributions, this`contributionSeq
      ensures Valid()
      ensures contributions == old(contributions) + [c] && contributionSeq == c.id
    {
      ContributionAdded(contributions, users, contributionSeq, c);
      contributions := contributions + [c];
      contributionSeq := c.id;
    }

    /** `UPDATE contributions ... WHERE id = ?` on the row at position `i`. */
    method ReplaceContribution(i: nat, c: Contribution)
      requires Valid() && i < |contributions| && ContributionRow(c, users)
      requires c.id == contributions[i].id && c.reference == contributions[i].reference
      modifies this`contributions
      ensures Valid()
      ensures contributions == old(contributions)[i := c]
    {
      ContributionReplaced(contributions, users, contributionSeq, i, c);
      contributions := contributions[i := c];
    }

    /** `INSERT INTO investment_updates`: the row takes the next id. */
    method InsertUpdate(u: InvestmentUpdate)
      requires Valid() && u.id == updateSeq + 1 && u.investmentId in opportunities && u.createdBy in users
      modifies this`updates, this`updateSeq
      ensures Valid()
      ensures updates == old(updates) + [u] && updateSeq == u.id
    {
      UpdateAdded(updates, opportunities, users, updateSeq, u);
      updates := updates + [u];
      updateSeq := u.id;
    }
  }

  /** The user a `WHERE email = ?` with this value matches, under the column's TEXT
      affinity; e-mails are UNIQUE, so there is at most one. */
  function EmailHolder(users: map<int, User>, email: SqlValue): (r: Option<int>)
    requires UniqueEmails(users)
    ensures r.Some? ==> r.value in users && SqlText(users[r.value].email) == email
    ensures r.None? ==> forall k | k in users :: SqlText(users[k].email) != email
  {
    if exists k | k in users :: SqlText(users[k].email) == email
    then Some(var k :| k in users && SqlText(users[k].email) == email; k)
    else None
  }
}
