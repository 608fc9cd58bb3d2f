/** The contribution routes: recording a member's contribution, an administrator's change of
    its status, a member's own list, and the two summaries. This router installs none of the
    request rules of module Validation, so every body reaches its handler as sent and only the
    schema's constraints refuse a value. `now` is the engine's `datetime('now')` at the time
    of the request. */
module Contributions {
  import opened Wrappers
  import opened JsValues
  import opened Sql
  import opened Collections
  import opened Validation
  import opened Database
  import opened Http

  // ---------------------------------------------------------------------------------------
  // Recording a contribution.

  /** The row `POST /` inserts under `id`: the body's columns, status 'pending' and no
      validator whatever the body says. `None` when the engine refuses the row: an amount, a
      reference or a date that binds as NULL, a `user_id` that names no user, or a reference
      that is already taken. */
  function NewContribution(users: map<int, User>, cs: seq<Contribution>, body: Body, id: int, now: string): (r: Option<Contribution>)
    ensures r.Some? <==>
      && NumericColumn(Field(body, "user_id")).SqlInt? && NumericColumn(Field(body, "user_id")).i in users
      && !NumericColumn(Field(body, "amount")).SqlNull?
      && RequiredText(Field(body, "transaction_reference")).Some?
      && FreshReference(cs, RequiredText(Field(body, "transaction_reference")).value)
      && !NumericColumn(Field(body, "contribution_date")).SqlNull?
    ensures r.Some? ==> var c := r.value;
      && c.id == id && c.status == PendingContribution && c.validatedBy.None?
      && SqlInt(c.userId) == NumericColumn(Field(body, "user_id"))
      && c.amount == NumericColumn(Field(body, "amount"))
      && Some(c.reference) == RequiredText(Field(body, "transaction_reference"))
      && c.proofUrl == TextColumn(Field(body, "payment_proof_url"))
      && c.date == NumericColumn(Field(body, "contribution_date"))
      && c.createdAt == now && c.updatedAt == now
      && ContributionRow(c, users) && FreshReference(cs, c.reference)
  {
    var user := NumericColumn(Field(body, "user_id"));
    var amount := NumericColumn(Field(body, "amount"));
    var reference := RequiredText(Field(body, "transaction_reference"));
    var date := NumericColumn(Field(body, "contribution_date"));
    if !user.SqlInt? || user.i !in users || amount.SqlNull? || reference.None? || date.SqlNull?
       || !FreshReference(cs, reference.value)
    then None
    else Some(Contribution(id, user.i, amount, reference.value, TextColumn(Field(body, "payment_proof_url")),
                           date, PendingContribution, None, now, now))
  }

  /** `POST /`: the new row under the next id with 201, or a 500 when the engine refuses it. */
  method Create(db: Db, body: Body, now: string) returns (r: Reply<Contribution>)
    requires db.Valid()
    modifies db`contributions, db`contributionSeq
    ensures db.Valid()
    ensures var row := NewContribution(db.users, old(db.contributions), body, old(db.contributionSeq) + 1, now);
      if row.Some? then
        r == Success(201, row.value) && db.contributions == old(db.contributions) + [row.value]
        && db.contributionSeq == row.value.id
      else
        r == ServerError && db.contributions == old(db.contributions) && db.contributionSeq == old(db.contributionSeq)
  {
    var row := NewContribution(db.users, db.contributions, body, db.contributionSeq + 1, now);
    if row.None? {
      return ServerError;
    }
    db.InsertContribution(row.value);
    r := Success(201, row.value);
  }

  /** A body the contribution rules admit, from an existing user with an unused reference, is
      stored with the amount the rules read, which is at least 5,000. */
  lemma AdmittedContributionStored(users: map<int, User>, cs: seq<Contribution>, body: Body, env: DateEnv,
                                   id: int, now: string)
    requires ContributionCreate(body, env) == []
    requires Numeral(Field(body, "user_id")).Some? && Numeral(Field(body, "user_id")).value in users
    requires Field(body, "transaction_reference").Str? && FreshReference(cs, Field(body, "transaction_reference").s)
    requires Field(body, "contribution_date").Str?
    ensures var r := NewContribution(users, cs, body, id, now);
      && r.Some? && r.value.amount.SqlInt? && r.value.amount.i >= 5000
      && Some(r.value.amount.i) == Numeral(Field(body, "amount"))
  {
    ContributionCreateAccepts(body, env);
    NumeralColumn(Field(body, "user_id"));
    NumeralColumn(Field(body, "amount"));
  }

  /** The router skips the rules: a contribution of 4,999, which the rules refuse, is stored. */
  lemma BelowFloorStored(users: map<int, User>, cs: seq<Contribution>, body: Body, env: DateEnv, id: int, now: string)
    requires Field(body, "user_id") == Num(1) && 1 in users
    requires Field(body, "amount") == Num(4999)
    requires Field(body, "transaction_reference") == Str("TX1") && FreshReference(cs, "TX1")
    requires Field(body, "contribution_date") == Str("2024-01-31")
    ensures HasErrorAt(ContributionCreate(body, env), "amount")
    ensures NewContribution(users, cs, body, id, now).Some?
    ensures NewContribution(users, cs, body, id, now).value.amount == SqlInt(4999)
  {
    ContributionAmountFloor(body, env, 4999);
  }

  // ---------------------------------------------------------------------------------------
  // Changing a contribution's status.

  /** The position of the row with id `key`; ids are distinct, so it is the only one. */
  function Position(cs: seq<Contribution>, key: int): (r: Option<nat>)
    ensures r.Some? ==> r.value < |cs| && cs[r.value].id == key
    ensures r.None? ==> forall i | 0 <= i < |cs| :: cs[i].id != key
    decreases |cs|
  {
    if cs == [] then None
    else if cs[|cs| - 1].id == key then Some(|cs| - 1)
    else Position(cs[..|cs| - 1], key)
  }

  /** The `validated_by` column a value makes: `Some(None)` for NULL, `Some(Some(k))` for the
      id of a user, `None` when the foreign key refuses it. */
  function ValidatorColumn(users: map<int, User>, v: Value): (r: Option<Option<int>>)
    ensures r == Some(None) <==> NumericColumn(v).SqlNull?
    ensures (exists k :: r == Some(Some(k))) <==> NumericColumn(v).SqlInt? && NumericColumn(v).i in users
    ensures r.Some? && r.value.Some? ==> NumericColumn(v) == SqlInt(r.value.value)
  {
    var c := NumericColumn(v);
    if c.SqlNull? then Some(None)
    else if c.SqlInt? && c.i in users then Some(Some(c.i))
    else None
  }

  /** The row `UPDATE contributions SET status = ?, validated_by = ?, updated_at = ?` makes of
      `c`: the given status and validator whatever `c` held before, with nothing else changed.
      `None` when the engine refuses the values: a status outside the CHECK (NULL included) or
      a validator that names no user. */
  function Restamped(users: map<int, User>, c: Contribution, body: Body, now: string): (r: Option<Contribution>)
    ensures r.Some? <==>
      ContributionStatusOf(TextColumn(Field(body, "status"))).Some? && ValidatorColumn(users, Field(body, "validated_by")).Some?
    ensures r.Some? ==>
      && r.value == c.(status := r.value.status, validatedBy := r.value.validatedBy, updatedAt := now)
      && TextColumn(Field(body, "status")) == SqlText(ContributionStatusName(r.value.status))
      && Some(r.value.validatedBy) == ValidatorColumn(users, Field(body, "validated_by"))
  {
    var status := ContributionStatusOf(TextColumn(Field(body, "status")));
    var validator := ValidatorColumn(users, Field(body, "validated_by"));
    if status.None? || validator.None? then None
    else Some(c.(status := status.value, validatedBy := validator.value, updatedAt := now))
  }

  /** `PUT /:id/status`. An id that names no row updates nothing and draws a 404, whatever the
      body holds; otherwise the row takes the new values and is returned with 200, or the
      engine refuses them with a 500. */
  method SetStatus(db: Db, id: string, body: Body, now: string) returns (r: Reply<Contribution>)
    requires db.Valid()
    modifies db`contributions
    ensures db.Valid()
    ensures var pos := if PathKey(id).Some? then Position(old(db.contributions), PathKey(id).value) else None;
      if pos.None? then
        r == Refused(404, "Contribution not found") && db.contributions == old(db.contributions)
      else
        var row := Restamped(db.users, old(db.contributions)[pos.value], body, now);
        if row.None? then r == ServerError && db.contributions == old(db.contributions)
        else r == Success(200, row.value) && db.contributions == old(db.contributions)[pos.value := row.value]
  {
    var key := PathKey(id);
    var pos := if key.Some? then Position(db.contributions, key.value) else None;
    if pos.None? {
      return Refused(404, "Contribution not found");
    }
    var row := Restamped(db.users, db.contributions[pos.value], body, now);
    if row.None? {
      return ServerError;
    }
    db.ReplaceContribution(pos.value, row.value);
    r := Success(200, row.value);
  }

  /** There is no transition check: a row of any status, a validated or rejected one included,
      takes any of the three statuses. A body without `validated_by` clears the validator. */
  lemma AnyTransition(users: map<int, User>, c: Contribution, s: ContributionStatus, now: string)
    ensures var row := Restamped(users, c, map["status" := Str(ContributionStatusName(s))], now);
      row.Some? && row.value.status == s && row.value.validatedBy.None?
  {
    var body := map["status" := Str(ContributionStatusName(s))];
    assert Field(body, "validated_by") == Undefined;
    assert ContributionStatusOf(SqlText(ContributionStatusName(s))) == Some(s);
  }

  // ---------------------------------------------------------------------------------------
  // A member's contributions.

  function DateKey(c: Contribution): SqlValue {
    c.date
  }

  /** `WHERE user_id = ?`. */
  function ByUser(cs: seq<Contribution>, user: int): (r: seq<Contribution>)
    ensures forall c :: c in r <==> c in cs && c.userId == user
    ensures forall c :: multiset(r)[c] == if c.userId == user then multiset(cs)[c] else 0
  {
    if cs == [] then []
    else
      assert forall c :: c in cs <==> c == cs[0] || c in cs[1..];
      assert cs == [cs[0]] + cs[1..];
      if cs[0].userId == user then [cs[0]] + ByUser(cs[1..], user) else ByUser(cs[1..], user)
  }

  /** `GET /user/:userId`: exactly the rows of that user, latest contribution date first. The
      parameter meets the INTEGER column, so text that is no integer literal matches nothing
      and the list is empty. */
  function UserContributions(cs: seq<Contribution>, userId: string): (r: seq<Contribution>)
    ensures forall c :: c in r <==> c in cs && PathKey(userId) == Some(c.userId)
    ensures forall c :: multiset(r)[c] == if PathKey(userId) == Some(c.userId) then multiset(cs)[c] else 0
    ensures PathKey(userId).Some? ==> |r| == |ByUser(cs, PathKey(userId).value)|
    ensures SortedBy(r, DateKey, true)
  {
    if PathKey(userId).None? then []
    else
      var mine := ByUser(cs, PathKey(userId).value);
      SortBySorted(mine, DateKey, true);
      SortByMembers(mine, DateKey, true);
      SortBy(mine, DateKey, true)
  }

  /** No rule guards the id, so "1.0" lists user 1's contributions as "1" does: the INTEGER
      column reads it as 1. */
  lemma UserContributionsIntegralId(cs: seq<Contribution>, one: string)
    requires one == "1.0"
    ensures UserContributions(cs, one) == UserContributions(cs, "1")
  {
    IntegralTextForms(one, "1e0", " 1");
    assert IsIntLiteral("1") && PathKey("1") == Some(1);
  }

  // ---------------------------------------------------------------------------------------
  // The summary.

  /** The amounts of the rows with status `st`, as SQLite's arithmetic reads them. */
  function AmountWith(cs: seq<Contribution>, st: ContributionStatus): int {
    if cs == [] then 0 else (if cs[0].status == st then Arith(cs[0].amount) else 0) + AmountWith(cs[1..], st)
  }

  /** How many rows have status `st`. */
  function CountWith(cs: seq<Contribution>, st: ContributionStatus): nat {
    if cs == [] then 0 else (if cs[0].status == st then 1 else 0) + CountWith(cs[1..], st)
  }

  /** The column `CASE WHEN status = st THEN amount ELSE other END`, row by row. */
  function StatusCase(cs: seq<Contribution>, st: ContributionStatus, other: SqlValue): (r: seq<SqlValue>)
    ensures |r| == |cs|
    ensures forall i | 0 <= i < |cs| :: r[i] == if cs[i].status == st then cs[i].amount else other
  {
    if cs == [] then [] else [if cs[0].status == st then cs[0].amount else other] + StatusCase(cs[1..], st, other)
  }

  lemma {:induction false} CaseTotal(cs: seq<Contribution>, st: ContributionStatus, other: SqlValue)
    requires Arith(other) == 0
    ensures Total(StatusCase(cs, st, other)) == AmountWith(cs, st)
  {
    if cs != [] {
      assert StatusCase(cs, st, other)[1..] == StatusCase(cs[1..], st, other);
      CaseTotal(cs[1..], st, other);
    }
  }

  lemma {:induction false} CaseCount(cs: seq<Contribution>, st: ContributionStatus)
    requires forall i | 0 <= i < |cs| :: !cs[i].amount.SqlNull?
    ensures |NonNull(StatusCase(cs, st, SqlNull))| == CountWith(cs, st)
  {
    if cs != [] {
      assert StatusCase(cs, st, SqlNull)[1..] == StatusCase(cs[1..], st, SqlNull);
      CaseCount(cs[1..], st);
    }
  }

  predicate AmountsPresent(cs: seq<Contribution>) {
    forall i | 0 <= i < |cs| :: !cs[i].amount.SqlNull?
  }

  datatype Summary = Summary(totalContributions: nat, totalValidated: SqlValue, totalPending: SqlValue,
                             averageContribution: Option<Ratio>)

  /** `GET /stats/summary`: the number of rows; the sums of the validated and of the pending
      amounts, which are NULL only when the table is empty (other rows add 0); and the mean of
      the validated amounts, NULL when none is validated. Rejected rows count in the number
      and in neither sum. */
  function SummaryOf(cs: seq<Contribution>): (s: Summary)
    requires AmountsPresent(cs)
    ensures s.totalContributions == |cs|
    ensures s.totalValidated.SqlNull? <==> cs == []
    ensures s.totalPending.SqlNull? <==> cs == []
    ensures s.totalValidated.SqlInt? ==> s.totalValidated.i == AmountWith(cs, ValidatedContribution)
    ensures s.totalPending.SqlInt? ==> s.totalPending.i == AmountWith(cs, PendingContribution)
    ensures !s.totalValidated.SqlText? && !s.totalPending.SqlText?
    ensures s.averageContribution.Some? <==> CountWith(cs, ValidatedContribution) > 0
    ensures s.averageContribution.Some? ==>
      s.averageContribution.value == Ratio(AmountWith(cs, ValidatedContribution), CountWith(cs, ValidatedContribution))
  {
    var validated := StatusCase(cs, ValidatedContribution, SqlInt(0));
    var pending := StatusCase(cs, PendingContribution, SqlInt(0));
    var average := StatusCase(cs, ValidatedContribution, SqlNull);
    CaseTotal(cs, ValidatedContribution, SqlInt(0));
    CaseTotal(cs, PendingContribution, SqlInt(0));
    CaseTotal(cs, ValidatedContribution, SqlNull);
    CaseCount(cs, ValidatedContribution);
    assert cs != [] ==> !validated[0].SqlNull? && !pending[0].SqlNull?;
    Summary(|cs|, Sum(validated), Sum(pending), Avg(average))
  }

  /** Every row has exactly one of the three statuses, so the counts per status add up to the
      number of rows and the amounts per status to the total amount. */
  lemma {:induction false} StatusesPartition(cs: seq<Contribution>)
    ensures CountWith(cs, PendingContribution) + CountWith(cs, ValidatedContribution)
            + CountWith(cs, RejectedContribution) == |cs|
    ensures AmountWith(cs, PendingContribution) + AmountWith(cs, ValidatedContribution)
            + AmountWith(cs, RejectedContribution) == Total(Amounts(cs))
  {
    if cs != [] {
      assert Amounts(cs)[1..] == Amounts(cs[1..]);
      StatusesPartition(cs[1..]);
    }
  }

  // ---------------------------------------------------------------------------------------
  // The monthly summary.

  /** The `amount` column of some rows. */
  function Amounts(cs: seq<Contribution>): (r: seq<SqlValue>)
    ensures |r| == |cs|
    ensures forall i | 0 <= i < |cs| :: r[i] == cs[i].amount
  {
    if cs == [] then [] else [cs[0].amount] + Amounts(cs[1..])
  }

  /** `WHERE status = 'validated'`. */
  function Validated(cs: seq<Contribution>): (r: seq<Contribution>)
    ensures forall c :: c in r <==> c in cs && c.status == ValidatedContribution
  {
    if cs == [] then []
    else
      assert forall c :: c in cs <==> c == cs[0] || c in cs[1..];
      if cs[0].status == ValidatedContribution then [cs[0]] + Validated(cs[1..]) else Validated(cs[1..])
  }

  /** The month of every row, in order. `monthOf` is `strftime('%Y-%m', ...)`, which gives
      NULL for a value that is no date; the NULLs form a group of their own. */
  function AllMonths(vs: seq<Contribution>, monthOf: SqlValue -> SqlValue): (r: seq<SqlValue>)
    ensures |r| == |vs|
    ensures forall i | 0 <= i < |vs| :: r[i] == monthOf(vs[i].date)
  {
    if vs == [] then [] else [monthOf(vs[0].date)] + AllMonths(vs[1..], monthOf)
  }

  /** The month of a row is among the months. */
  lemma MonthListed(vs: seq<Contribution>, monthOf: SqlValue -> SqlValue, c: Contribution)
    requires c in vs
    ensures monthOf(c.date) in AllMonths(vs, monthOf)
  {
    var i :| 0 <= i < |vs| && vs[i] == c;
    assert AllMonths(vs, monthOf)[i] == monthOf(c.date);
  }

  /** The group of month `m`: the rows whose date falls in it, in order. */
  function Group(vs: seq<Contribution>, monthOf: SqlValue -> SqlValue, m: SqlValue): (r: seq<Contribution>)
    ensures forall c :: c in r <==> c in vs && monthOf(c.date) == m
    ensures |r| <= |vs|
  {
    if vs == [] then []
    else
      assert forall c :: c in vs <==> c == vs[0] || c in vs[1..];
      if monthOf(vs[0].date) == m then [vs[0]] + Group(vs[1..], monthOf, m) else Group(vs[1..], monthOf, m)
  }

  /** A month that is listed has a non-empty group. */
  lemma GroupOfListed(vs: seq<Contribution>, monthOf: SqlValue -> SqlValue, m: SqlValue)
    requires m in AllMonths(vs, monthOf)
    ensures Group(vs, monthOf, m) != []
  {
    var i :| 0 <= i < |vs| && AllMonths(vs, monthOf)[i] == m;
    assert vs[i] in Group(vs, monthOf, m);
  }

  /** A month that is not listed has an empty group. */
  lemma GroupOfUnlisted(vs: seq<Contribution>, monthOf: SqlValue -> SqlValue, m: SqlValue)
    requires m !in AllMonths(vs, monthOf)
    ensures Group(vs, monthOf, m) == []
  {
    var g := Group(vs, monthOf, m);
    if g != [] {
      assert g[0] in vs;
      MonthListed(vs, monthOf, g[0]);
    }
  }

  /** The distinct months of some rows, in order of first appearance. */
  function Months(vs: seq<Contribution>, monthOf: SqlValue -> SqlValue): (r: seq<SqlValue>)
    ensures forall m :: m in r <==> m in AllMonths(vs, monthOf)
    ensures forall i, j | 0 <= i < j < |r| :: r[i] != r[j]
  {
    if vs == [] then []
    else
      var rest := Months(vs[1..], monthOf);
      assert AllMonths(vs, monthOf) == [monthOf(vs[0].date)] + AllMonths(vs[1..], monthOf);
      if monthOf(vs[0].date) in rest then rest else [monthOf(vs[0].date)] + rest
  }

  datatype MonthRow = MonthRow(month: SqlValue, contributionCount: nat, totalAmount: SqlValue,
                               averageAmount: Option<Ratio>)

  /** `row` summarises the group of its month: the group is not empty, and the row holds its
      size, the sum of its amounts and their mean. */
  predicate Summarises(row: MonthRow, vs: seq<Contribution>, monthOf: SqlValue -> SqlValue) {
    var g := Group(vs, monthOf, row.month);
    && g != [] && row.contributionCount == |g|
    && row.totalAmount == SqlInt(Total(Amounts(g)))
    && row.averageAmount == Some(Ratio(Total(Amounts(g)), |g|))
  }

  /** The summary row of the group of month `m`. */
  function MonthRowOf(vs: seq<Contribution>, monthOf: SqlValue -> SqlValue, m: SqlValue): (row: MonthRow)
    requires AmountsPresent(vs)
    requires m in AllMonths(vs, monthOf)
    ensures row.month == m && Summarises(row, vs, monthOf)
  {
    var g := Group(vs, monthOf, m);
    GroupOfListed(vs, monthOf, m);
    assert AmountsPresent(g) by {
      forall i | 0 <= i < |g| ensures !g[i].amount.SqlNull? {
        assert g[i] in vs;
      }
    }
    NonNullKeepsAll(Amounts(g));
    MonthRow(m, |g|, Sum(Amounts(g)), Avg(Amounts(g)))
  }

  /** One summary row per month, in the order of the months. */
  function MonthRows(vs: seq<Contribution>, monthOf: SqlValue -> SqlValue, ms: seq<SqlValue>): (r: seq<MonthRow>)
    requires AmountsPresent(vs)
    requires forall m | m in ms :: m in AllMonths(vs, monthOf)
    ensures |r| == |ms|
    ensures forall i | 0 <= i < |ms| :: r[i].month == ms[i] && Summarises(r[i], vs, monthOf)
  {
    if ms == [] then [] else [MonthRowOf(vs, monthOf, ms[0])] + MonthRows(vs, monthOf, ms[1..])
  }

  function MonthKey(row: MonthRow): SqlValue {
    row.month
  }

  /** A validated row's amount is one of the stored amounts. */
  lemma ValidatedAmountsPresent(cs: seq<Contribution>)
    requires AmountsPresent(cs)
    ensures AmountsPresent(Validated(cs))
  {
    var vs := Validated(cs);
    forall i | 0 <= i < |vs| ensures !vs[i].amount.SqlNull? {
      assert vs[i] in cs;
    }
  }

  /** The validated rows grouped by month, each group summarised once: its month, how many
      rows it has, their sum and their mean. */
  function Grouped(cs: seq<Contribution>, monthOf: SqlValue -> SqlValue): (r: seq<MonthRow>)
    requires AmountsPresent(cs)
    ensures forall i, j | 0 <= i < j < |r| :: r[i].month != r[j].month
    ensures forall i | 0 <= i < |r| :: r[i].month in AllMonths(Validated(cs), monthOf)
    ensures forall m | m in AllMonths(Validated(cs), monthOf) :: exists i :: 0 <= i < |r| && r[i].month == m
    ensures forall i | 0 <= i < |r| :: Summarises(r[i], Validated(cs), monthOf)
  {
    var vs := Validated(cs);
    ValidatedAmountsPresent(cs);
    var ms := Months(vs, monthOf);
    var r := MonthRows(vs, monthOf, ms);
    forall m | m in AllMonths(vs, monthOf) ensures exists i :: 0 <= i < |r| && r[i].month == m {
      var i :| 0 <= i < |ms| && ms[i] == m;
      assert r[i].month == m;
    }
    r
  }

  /** `GET /stats/monthly`: the groups of the validated rows, latest month first. */
  function MonthlySummary(cs: seq<Contribution>, monthOf: SqlValue -> SqlValue): (r: seq<MonthRow>)
    requires AmountsPresent(cs)
    ensures forall row :: row in r <==> row in Grouped(cs, monthOf)
    ensures |r| == |Grouped(cs, monthOf)|
    ensures SortedBy(r, MonthKey, true)
    ensures forall i, j | 0 <= i < j < |r| :: r[i].month != r[j].month
  {
    var rows := Grouped(cs, monthOf);
    SortBySorted(rows, MonthKey, true);
    SortByMembers(rows, MonthKey, true);
    PermutationKeepsKeysDistinct(rows, SortBy(rows, MonthKey, true), MonthKey);
    SortBy(rows, MonthKey, true)
  }

  function CountsOf(rows: seq<MonthRow>): nat {
    if rows == [] then 0 else rows[0].contributionCount + CountsOf(rows[1..])
  }

  /** The groups cover the validated rows exactly once: their counts add up to the number of
      validated rows. */
  lemma GroupedCounts(cs: seq<Contribution>, monthOf: SqlValue -> SqlValue)
    requires AmountsPresent(cs)
    ensures CountsOf(Grouped(cs, monthOf)) == CountWith(cs, ValidatedContribution)
  {
    var vs := Validated(cs);
    ValidatedAmountsPresent(cs);
    ValidatedCount(cs);
    MonthsPartition(vs, monthOf);
    RowCounts(vs, monthOf, Months(vs, monthOf));
  }

  /** The sizes of the groups of some months. */
  function GroupSizes(vs: seq<Contribution>, monthOf: SqlValue -> SqlValue, ms: seq<SqlValue>): nat {
    if ms == [] then 0 else |Group(vs, monthOf, ms[0])| + GroupSizes(vs, monthOf, ms[1..])
  }

  lemma {:induction false} RowCounts(vs: seq<Contribution>, monthOf: SqlValue -> SqlValue, ms: seq<SqlValue>)
    requires AmountsPresent(vs)
    requires forall m | m in ms :: m in AllMonths(vs, monthOf)
    ensures CountsOf(MonthRows(vs, monthOf, ms)) == GroupSizes(vs, monthOf, ms)
  {
    if ms != [] {
      assert MonthRows(vs, monthOf, ms)[1..] == MonthRows(vs, monthOf, ms[1..]);
      RowCounts(vs, monthOf, ms[1..]);
    }
  }

  lemma {:induction false} ValidatedCount(cs: seq<Contribution>)
    ensures |Validated(cs)| == CountWith(cs, ValidatedContribution)
  {
    if cs != [] {
      ValidatedCount(cs[1..]);
    }
  }

  /** Each row lies in the group of exactly one of the distinct months. */
  lemma {:induction false} MonthsPartition(vs: seq<Contribution>, monthOf: SqlValue -> SqlValue)
    ensures GroupSizes(vs, monthOf, Months(vs, monthOf)) == |vs|
  {
    if vs != [] {
      var c, rest := vs[0], vs[1..];
      assert vs == [c] + rest;
      var m, ms := monthOf(c.date), Months(rest, monthOf);
      MonthsPartition(rest, monthOf);
      GroupSizesStep(c, rest, monthOf, ms);
      if m !in ms {
        GroupOfUnlisted(rest, monthOf, m);
        assert Group(vs, monthOf, m) == [c] + Group(rest, monthOf, m);
        assert Months(vs, monthOf) == [m] + ms;
      }
    }
  }

  /** Adding row `c` in front grows the group of its month, when that month is listed, and no
      other. */
  lemma {:induction false} GroupSizesStep(c: Contribution, rest: seq<Contribution>, monthOf: SqlValue -> SqlValue, ms: seq<SqlValue>)
    requires forall i, j | 0 <= i < j < |ms| :: ms[i] != ms[j]
    ensures GroupSizes([c] + rest, monthOf, ms) == GroupSizes(rest, monthOf, ms) + (if monthOf(c.date) in ms then 1 else 0)
  {
    if ms != [] {
      assert ([c] + rest)[1..] == rest;
      GroupSizesStep(c, rest, monthOf, ms[1..]);
      assert monthOf(c.date) in ms <==> monthOf(c.date) == ms[0] || monthOf(c.date) in ms[1..];
      if monthOf(c.date) == ms[0] {
        assert monthOf(c.date) !in ms[1..];
      }
    }
  }

  // ---------------------------------------------------------------------------------------
  // The routes over the database.

  /** `GET /stats/summary` on the database. */
  function GetSummary(db: Db): (r: Reply<Summary>)
    reads db
    requires db.Valid()
    ensures r.Success? && r.code == 200
    ensures r.value.totalContributions == |db.contributions|
    ensures r.value.totalValidated.SqlNull? <==> db.contributions == []
    ensures r.value.totalPending.SqlNull? <==> db.contributions == []
    ensures r.value.totalValidated.SqlInt? ==> r.value.totalValidated.i == AmountWith(db.contributions, ValidatedContribution)
    ensures r.value.totalPending.SqlInt? ==> r.value.totalPending.i == AmountWith(db.contributions, PendingContribution)
    ensures r.value.averageContribution.Some? <==> CountWith(db.contributions, ValidatedContribution) > 0
    ensures r.value.averageContribution.Some? ==>
      r.value.averageContribution.value ==
        Ratio(AmountWith(db.contributions, ValidatedContribution), CountWith(db.contributions, ValidatedContribution))
  {
    StoredAmountsPresent(db.contributions, db.users, db.contributionSeq);
    Success(200, SummaryOf(db.contributions))
  }

  /** `GET /stats/monthly` on the database. */
  function GetMonthly(db: Db, monthOf: SqlValue -> SqlValue): (r: Reply<seq<MonthRow>>)
    reads db
    requires db.Valid()
    ensures r.Success? && r.code == 200
    ensures forall row | row in r.value :: Summarises(row, Validated(db.contributions), monthOf)
    ensures forall m | m in AllMonths(Validated(db.contributions), monthOf) :: exists row :: row in r.value && row.month == m
    ensures SortedBy(r.value, MonthKey, true)
    ensures forall i, j | 0 <= i < j < |r.value| :: r.value[i].month != r.value[j].month
  {
    StoredAmountsPresent(db.contributions, db.users, db.contributionSeq);
    Success(200, MonthlySummary(db.contributions, monthOf))
  }

  /** Every stored row has an amount: the column is NOT NULL. */
  lemma StoredAmountsPresent(cs: seq<Contribution>, users: map<int, User>, top: int)
    requires ContributionRows(cs, users, top)
    ensures AmountsPresent(cs)
  {
    forall i | 0 <= i < |cs| ensures !cs[i].amount.SqlNull? {
      assert ContributionRow(cs[i], users);
    }
  }
}
