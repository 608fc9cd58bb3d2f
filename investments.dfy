/** The investment routes: opportunities, the participants pledged to them, and the updates
    posted about them. Each handler runs behind its rule set (module Validation); the
    look-ups those rules make are read from the database here. `now` is the engine's
    `datetime('now')` at the time of the request. */
module Investments {
  import opened Wrappers
  import opened JsValues
  import opened Sql
  import opened Collections
  import opened Validation
  import opened Database
  import opened Http

  /** The row a path id names. */
  function Lookup(opportunities: map<int, Opportunity>, id: string): (r: Option<Opportunity>)
    ensures r.Some? <==> PathKey(id).Some? && PathKey(id).value in opportunities
    ensures r.Some? ==> r.value == opportunities[PathKey(id).value]
  {
    var k := PathKey(id);
    if k.Some? && k.value in opportunities then Some(opportunities[k.value]) else None
  }

  /** The columns the admission check reads, as the driver hands them to JavaScript. */
  function Facts(o: Opportunity): (f: OpportunityFacts)
    ensures f.status == Str("open") <==> o.status == Open
    ensures o.target.SqlInt? ==> f.target == Num(o.target.i)
  {
    OpportunityFacts(ToJs(o.minimum), ToJs(o.target), Str(OpportunityStatusName(o.status)))
  }

  // ---------------------------------------------------------------------------------------
  // Creating an opportunity.

  /** The row an INSERT of the request's columns stores under `id`, with status 'draft'
      whatever the body says; `None` when a NOT NULL or CHECK constraint refuses a value.
      `creator` is the value bound to `created_by`: `None` when the INSERT does not name the
      column, which then takes NULL, as it has no default. */
  function NewOpportunity(body: Body, id: int, creator: Option<int>, now: string): (r: Option<Opportunity>)
    ensures creator.None? ==> r.None?
    ensures r.Some? ==> r.value.id == id && r.value.status == Draft && Some(r.value.createdBy) == creator
    ensures r.Some? ==> !r.value.target.SqlNull? && !r.value.minimum.SqlNull?
                        && !r.value.expectedReturns.SqlNull? && !r.value.duration.SqlNull?
  {
    var title, description := RequiredText(Field(body, "title")), RequiredText(Field(body, "description"));
    var target, minimum := NumericColumn(Field(body, "target_amount")), NumericColumn(Field(body, "minimum_investment"));
    var expected, duration := NumericColumn(Field(body, "expected_returns")), NumericColumn(Field(body, "duration"));
    var risk := RiskOf(TextColumn(Field(body, "risk_level")));
    if title.None? || description.None? || target.SqlNull? || minimum.SqlNull? || expected.SqlNull?
       || duration.SqlNull? || risk.None? || creator.None?
    then None
    else Some(Opportunity(id, title.value, description.value, target, minimum, expected, duration, risk.value, Draft,
                          NumericColumn(Field(body, "start_date")), NumericColumn(Field(body, "end_date")),
                          creator.value, now, now))
  }

  /** The columns a body the creation rules admit is stored with: the amounts, returns and
      duration as the integers the validators read, so the stored minimum is at least 5,000 and
      at most the stored target, which is at least 100,000, and the risk level as given. */
  predicate StoredAsAdmitted(body: Body, r: Option<Opportunity>) {
    && r.Some?
    && r.value.target.SqlInt? && Numeral(Field(body, "target_amount")) == Some(r.value.target.i)
    && r.value.minimum.SqlInt? && Numeral(Field(body, "minimum_investment")) == Some(r.value.minimum.i)
    && r.value.expectedReturns.SqlInt? && Numeral(Field(body, "expected_returns")) == Some(r.value.expectedReturns.i)
    && r.value.duration.SqlInt? && Numeral(Field(body, "duration")) == Some(r.value.duration.i)
    && 5000 <= r.value.minimum.i <= r.value.target.i && 100000 <= r.value.target.i
    && RiskName(r.value.risk) == ValidatorString(Field(body, "risk_level"))
  }

  /** A body the creation rules admit is stored whole. */
  lemma AdmittedOpportunityStored(body: Body, env: DateEnv, id: int, creator: int, now: string)
    requires OpportunityCreate(body, env) == []
    ensures StoredAsAdmitted(body, NewOpportunity(body, id, Some(creator), now))
  {
    OpportunityCreateAccepts(body, env);
    AdmissibleOpportunityStored(body, env, id, creator, now);
  }

  lemma AdmissibleOpportunityStored(body: Body, env: DateEnv, id: int, creator: int, now: string)
    requires OpportunityAdmissible(body, env)
    ensures StoredAsAdmitted(body, NewOpportunity(body, id, Some(creator), now))
  {
    StoredText(Field(body, "title"));
    StoredText(Field(body, "description"));
    NumeralColumn(Field(body, "target_amount"));
    NumeralColumn(Field(body, "minimum_investment"));
    NumeralColumn(Field(body, "expected_returns"));
    NumeralColumn(Field(body, "duration"));
    StoredRisk(Field(body, "risk_level"));
  }

  /** A risk level the rules admit is stored as itself. */
  lemma StoredRisk(v: Value)
    requires IsIn(v, RiskLevels)
    ensures RiskOf(TextColumn(v)).Some? && RiskName(RiskOf(TextColumn(v)).value) == ValidatorString(v)
  {
    var w := ValidatorString(v);
    assert w == "low" || w == "medium" || w == "high";
    WordIsText(v);
    if w == "low" { assert RiskOf(SqlText(w)) == Some(LowRisk); }
    else if w == "medium" { assert RiskOf(SqlText(w)) == Some(MediumRisk); }
    else { assert RiskOf(SqlText(w)) == Some(HighRisk); }
  }

  /** A participation status the rules admit is stored as itself. */
  lemma StoredParticipationStatus(v: Value)
    requires IsIn(v, ParticipationStatuses)
    ensures ParticipationStatusOf(TextColumn(v)).Some?
    ensures ParticipationStatusName(ParticipationStatusOf(TextColumn(v)).value) == ValidatorString(v)
  {
    var w := ValidatorString(v);
    assert w == "pending" || w == "active" || w == "completed";
    WordIsText(v);
    if w == "pending" { assert ParticipationStatusOf(SqlText(w)) == Some(PendingParticipation); }
    else if w == "active" { assert ParticipationStatusOf(SqlText(w)) == Some(ActiveParticipation); }
    else { assert ParticipationStatusOf(SqlText(w)) == Some(CompletedParticipation); }
  }

  /** An update type the rules admit is stored as itself. */
  lemma StoredUpdateType(v: Value)
    requires IsIn(v, ["progress", "returns", "completion"])
    ensures UpdateTypeOf(TextColumn(v)).Some? && UpdateTypeName(UpdateTypeOf(TextColumn(v)).value) == ValidatorString(v)
  {
    var w := ValidatorString(v);
    assert w == "progress" || w == "returns" || w == "completion";
    WordIsText(v);
    if w == "progress" { assert UpdateTypeOf(SqlText(w)) == Some(Progress); }
    else if w == "returns" { assert UpdateTypeOf(SqlText(w)) == Some(Returns); }
    else { assert UpdateTypeOf(SqlText(w)) == Some(Completion); }
  }

  /** A value `notEmpty` passes is stored in a NOT NULL TEXT column. */
  lemma StoredText(v: Value)
    requires NotEmpty(v)
    ensures RequiredText(v).Some?
  {
  }

  /** The creation handler as written, behind the rules as written: the INSERT names no
      `created_by`, so the row it would store under `id` binds NULL there. The engine refuses
      every such row, and every request the rules admit ends in a 500 with nothing stored. */
  function CreateAsWritten(body: Body, env: DateEnv, id: int, now: string): (r: Reply<Opportunity>)
    ensures !r.Success?
    ensures r.ServerError? <==> OpportunityCreateAsWritten(body, env) == []
  {
    var errors := OpportunityCreateAsWritten(body, env);
    if errors != [] then Invalid(errors)
    else
      match NewOpportunity(body, id, None, now)
      case None => ServerError
      case Some(row) => Success(201, row)
  }

  /** What creating an admitted opportunity leaves: a 500 when the creator is no user (the
      foreign key refuses the row), otherwise the new row under the next id, returned with
      201. */
  predicate Created(db: Db, body: Body, now: string, creator: int, r: Reply<Opportunity>,
                    before: map<int, Opportunity>, top: int)
    reads db
  {
    if creator !in db.users then
      r == ServerError && db.opportunities == before && db.opportunitySeq == top
    else
      var row := NewOpportunity(body, top + 1, Some(creator), now);
      && row.Some? && r == Success(201, row.value) && row.value.id !in before
      && db.opportunities == before[row.value.id := row.value] && db.opportunitySeq == row.value.id
  }

  /** The creation handler with `created_by` supplied: `creator` is the id of the user
      creating the opportunity. */
  method Create(db: Db, body: Body, env: DateEnv, now: string, creator: int) returns (r: Reply<Opportunity>)
    requires db.Valid()
    modifies db`opportunities, db`opportunitySeq
    ensures db.Valid()
    ensures old(db.WithinTargets()) ==> db.WithinTargets()
    ensures var errors := OpportunityCreate(body, env);
      if errors != [] then
        r == Invalid(errors) && db.opportunities == old(db.opportunities) && db.opportunitySeq == old(db.opportunitySeq)
      else
        Created(db, body, now, creator, r, old(db.opportunities), old(db.opportunitySeq))
  {
    var errors := OpportunityCreate(body, env);
    if errors != [] {
      return Invalid(errors);
    }
    AdmittedOpportunityStored(body, env, db.opportunitySeq + 1, creator, now);
    r := CreateAdmitted(db, body, now, creator);
  }

  /** The body of the creation handler, behind its rules. */
  method CreateAdmitted(db: Db, body: Body, now: string, creator: int) returns (r: Reply<Opportunity>)
    requires db.Valid() && StoredAsAdmitted(body, NewOpportunity(body, db.opportunitySeq + 1, Some(creator), now))
    modifies db`opportunities, db`opportunitySeq
    ensures db.Valid()
    ensures old(db.WithinTargets()) ==> db.WithinTargets()
    ensures Created(db, body, now, creator, r, old(db.opportunities), old(db.opportunitySeq))
  {
    if creator !in db.users {
      return ServerError;
    }
    var row := NewOpportunity(body, db.opportunitySeq + 1, Some(creator), now).value;
    db.InsertOpportunity(row);
    r := Success(201, row);
  }

  // ---------------------------------------------------------------------------------------
  // Editing an opportunity.

  /** The stored dates the rule on a new status reads. */
  function StoredDatesOf(o: Option<Opportunity>): Option<StoredDates> {
    if o.Some? then Some(StoredDates(ToJs(o.value.startDate), ToJs(o.value.endDate))) else None
  }

  /** A value COALESCE passes over: one that binds as NULL. */
  predicate Omitted(v: Value) {
    v.Undefined? || v.Null? || v.NaN?
  }

  /** `COALESCE(?, column)` for a TEXT column. */
  function KeepText(v: Value, stored: string): (r: string)
    ensures Omitted(v) ==> r == stored
    ensures v.Str? ==> r == v.s
  {
    var c := TextColumn(v);
    if c.SqlText? then c.t else stored
  }

  /** `COALESCE(?, column)` for a numeric column. */
  function KeepNumeric(v: Value, stored: SqlValue): (r: SqlValue)
    ensures Omitted(v) ==> r == stored
    ensures Numeral(v).Some? ==> r == SqlInt(Numeral(v).value)
    ensures !stored.SqlNull? ==> !r.SqlNull?
  {
    if Numeral(v).Some? then
      NumeralColumn(v);
      Coalesce(NumericColumn(v), stored)
    else Coalesce(NumericColumn(v), stored)
  }

  /** The row the UPDATE leaves: each column takes the supplied value when it binds to
      something other than NULL and keeps its own otherwise, `updated_at` becomes `now`, and
      the id, creator and creation time stay; `None` when the CHECK on the risk level or the
      status refuses the new value. */
  function Edited(o: Opportunity, body: Body, now: string): (r: Option<Opportunity>)
    ensures r.Some? ==> r.value.id == o.id && r.value.createdBy == o.createdBy && r.value.createdAt == o.createdAt
    ensures r.Some? ==> r.value.updatedAt == now
    ensures r.Some? ==> (Omitted(Field(body, "title")) ==> r.value.title == o.title)
                        && (Field(body, "title").Str? ==> r.value.title == Field(body, "title").s)
    ensures r.Some? ==> (Omitted(Field(body, "description")) ==> r.value.description == o.description)
                        && (Field(body, "description").Str? ==> r.value.description == Field(body, "description").s)
    ensures r.Some? ==> (Omitted(Field(body, "target_amount")) ==> r.value.target == o.target)
                        && (Numeral(Field(body, "target_amount")).Some? ==>
                              r.value.target == SqlInt(Numeral(Field(body, "target_amount")).value))
    ensures r.Some? ==> (Omitted(Field(body, "minimum_investment")) ==> r.value.minimum == o.minimum)
                        && (Numeral(Field(body, "minimum_investment")).Some? ==>
                              r.value.minimum == SqlInt(Numeral(Field(body, "minimum_investment")).value))
    ensures r.Some? ==> (Omitted(Field(body, "expected_returns")) ==> r.value.expectedReturns == o.expectedReturns)
                        && (Numeral(Field(body, "expected_returns")).Some? ==>
                              r.value.expectedReturns == SqlInt(Numeral(Field(body, "expected_returns")).value))
    ensures r.Some? ==> (Omitted(Field(body, "duration")) ==> r.value.duration == o.duration)
                        && (Numeral(Field(body, "duration")).Some? ==>
                              r.value.duration == SqlInt(Numeral(Field(body, "duration")).value))
    ensures r.Some? ==> (Omitted(Field(body, "risk_level")) ==> r.value.risk == o.risk)
                        && (Field(body, "risk_level").Str? ==> RiskName(r.value.risk) == Field(body, "risk_level").s)
    ensures r.Some? ==> (Omitted(Field(body, "status")) ==> r.value.status == o.status)
                        && (Field(body, "status").Str? ==> OpportunityStatusName(r.value.status) == Field(body, "status").s)
    ensures r.Some? ==> (Omitted(Field(body, "start_date")) ==> r.value.startDate == o.startDate)
                        && (!NumericColumn(Field(body, "start_date")).SqlNull? ==>
                              r.value.startDate == NumericColumn(Field(body, "start_date")))
    ensures r.Some? ==> (Omitted(Field(body, "end_date")) ==> r.value.endDate == o.endDate)
                        && (!NumericColumn(Field(body, "end_date")).SqlNull? ==>
                              r.value.endDate == NumericColumn(Field(body, "end_date")))
    ensures r.Some? ==> !r.value.target.SqlNull? || o.target.SqlNull?
    ensures r.Some? ==> (!o.minimum.SqlNull? ==> !r.value.minimum.SqlNull?)
                        && (!o.expectedReturns.SqlNull? ==> !r.value.expectedReturns.SqlNull?)
                        && (!o.duration.SqlNull? ==> !r.value.duration.SqlNull?)
    ensures r.None? <==> RiskOf(Coalesce(TextColumn(Field(body, "risk_level")), SqlText(RiskName(o.risk)))).None?
                         || OpportunityStatusOf(Coalesce(TextColumn(Field(body, "status")), SqlText(OpportunityStatusName(o.status)))).None?
  {
    var risk := RiskOf(Coalesce(TextColumn(Field(body, "risk_level")), SqlText(RiskName(o.risk))));
    var status := OpportunityStatusOf(Coalesce(TextColumn(Field(body, "status")), SqlText(OpportunityStatusName(o.status))));
    if risk.None? || status.None? then None
    else Some(o.(title := KeepText(Field(body, "title"), o.title),
                 description := KeepText(Field(body, "description"), o.description),
                 target := KeepNumeric(Field(body, "target_amount"), o.target),
                 minimum := KeepNumeric(Field(body, "minimum_investment"), o.minimum),
                 expectedReturns := KeepNumeric(Field(body, "expected_returns"), o.expectedReturns),
                 duration := KeepNumeric(Field(body, "duration"), o.duration),
                 risk := risk.value, status := status.value,
                 startDate := Coalesce(NumericColumn(Field(body, "start_date")), o.startDate),
                 endDate := Coalesce(NumericColumn(Field(body, "end_date")), o.endDate),
                 updatedAt := now))
  }

  /** A body that supplies none of the editable columns leaves the row as it was, apart from
      `updated_at`. */
  lemma EditNothing(o: Opportunity, body: Body, now: string)
    requires forall f | f in ["title", "description", "target_amount", "minimum_investment", "expected_returns",
                               "duration", "risk_level", "status", "start_date", "end_date"] :: Field(body, f).Undefined?
    ensures Edited(o, body, now) == Some(o.(updatedAt := now))
  {
    assert Field(body, "risk_level").Undefined? && Field(body, "status").Undefined?;
    assert Field(body, "start_date").Undefined? && Field(body, "end_date").Undefined?;
    assert Field(body, "target_amount").Undefined? && Field(body, "minimum_investment").Undefined?;
    assert Field(body, "expected_returns").Undefined? && Field(body, "duration").Undefined?;
    assert Field(body, "title").Undefined? && Field(body, "description").Undefined?;
  }

  /** What editing leaves once the rules pass: a 404 when the id names no row (the UPDATE
      changes nothing), a 500 when a CHECK refuses a value, otherwise the edited row. */
  predicate Edit(db: Db, found: Option<Opportunity>, body: Body, now: string, r: Reply<Opportunity>,
                 before: map<int, Opportunity>)
    reads db
  {
    if found.None? then r == Refused(404, "Investment not found") && db.opportunities == before
    else
      var e := Edited(found.value, body, now);
      if e.None? then r == ServerError && db.opportunities == before
      else r == Success(200, e.value) && db.opportunities == before[found.value.id := e.value]
  }

  /** The edit handler. The ledger is kept when the target is not edited; an edit of the
      target can put it below what is already pledged. */
  method Update(db: Db, id: string, body: Body, now: string) returns (r: Reply<Opportunity>)
    requires db.Valid()
    modifies db`opportunities
    ensures db.Valid()
    ensures Omitted(Field(body, "target_amount")) && old(db.WithinTargets()) ==> db.WithinTargets()
    ensures var found := Lookup(old(db.opportunities), id);
      var errors := OpportunityUpdate(id, body, StoredDatesOf(found));
      if errors != [] then r == Invalid(errors) && db.opportunities == old(db.opportunities)
      else Edit(db, found, body, now, r, old(db.opportunities))
  {
    var found := Lookup(db.opportunities, id);
    var errors := OpportunityUpdate(id, body, StoredDatesOf(found));
    if errors != [] {
      return Invalid(errors);
    }
    r := UpdateAdmitted(db, found, body, now);
  }

  /** The body of the edit handler, behind its rules. */
  method UpdateAdmitted(db: Db, found: Option<Opportunity>, body: Body, now: string) returns (r: Reply<Opportunity>)
    requires db.Valid()
    requires found.Some? ==> found.value.id in db.opportunities && db.opportunities[found.value.id] == found.value
    modifies db`opportunities
    ensures db.Valid()
    ensures Omitted(Field(body, "target_amount")) && old(db.WithinTargets()) ==> db.WithinTargets()
    ensures Edit(db, found, body, now, r, old(db.opportunities))
  {
    if found.None? {
      return Refused(404, "Investment not found");
    }
    var e := Edited(found.value, body, now);
    if e.None? {
      return ServerError;
    }
    db.ReplaceOpportunity(e.value);
    r := Success(200, e.value);
  }

  // ---------------------------------------------------------------------------------------
  // Deleting an opportunity.

  /** The delete handler. Its rule has already found the row, so the DELETE always removes
      one row and the handler's 404 branch cannot be reached; the foreign keys cascade to the
      participants and the updates of the opportunity. */
  method Delete(db: Db, id: string) returns (r: Reply<string>)
    requires db.Valid()
    modifies db`opportunities, db`participants, db`updates
    ensures db.Valid()
    ensures old(db.WithinTargets()) ==> db.WithinTargets()
    ensures var errors := OpportunityExists(id, Lookup(old(db.opportunities), id).Some?);
      if errors != [] then
        r == Invalid(errors) && db.opportunities == old(db.opportunities)
        && db.participants == old(db.participants) && db.updates == old(db.updates)
      else
        var k := PathKey(id).value;
        && r == Success(200, "Investment deleted successfully")
        && k in old(db.opportunities) && db.opportunities == old(db.opportunities) - {k}
        && db.participants == NotOfOpportunity(old(db.participants), k)
        && db.updates == UpdatesNotOf(old(db.updates), k)
  {
    var errors := OpportunityExists(id, Lookup(db.opportunities, id).Some?);
    if errors != [] {
      return Invalid(errors);
    }
    db.DeleteOpportunity(PathKey(id).value);
    r := Success(200, "Investment deleted successfully");
  }

  // ---------------------------------------------------------------------------------------
  // Joining an opportunity.

  /** The row the join rule reads for a path id, as the admission check sees it. */
  function FactsFor(ops: map<int, Opportunity>, id: string): Option<OpportunityFacts> {
    var o := Lookup(ops, id);
    if o.Some? then Some(Facts(o.value)) else None
  }

  /** The sum the admission check reads for a path id: no participant matches an id that
      names no row. */
  function CommittedFor(ops: map<int, Opportunity>, ps: seq<Participant>, id: string): int {
    var o := Lookup(ops, id);
    if o.Some? then Committed(ps, o.value.id) else 0
  }

  /** A join the rules admit fits the target it was checked against. */
  lemma AdmittedPledgeFits(ops: map<int, Opportunity>, ps: seq<Participant>, id: string, body: Body)
    requires Join(id, body, FactsFor(ops, id), CommittedFor(ops, ps, id)) == []
    ensures var o := Lookup(ops, id);
      && o.Some? && o.value.status == Open && Numeral(Field(body, "user_id")).Some?
      && Numeral(Field(body, "amount")).Some? && Numeral(Field(body, "amount")).value >= 0
      && (o.value.target.SqlInt? ==> Committed(ps, o.value.id) + Numeral(Field(body, "amount")).value <= o.value.target.i)
  {
    JoinAccepted(id, body, FactsFor(ops, id), CommittedFor(ops, ps, id));
  }

  /** What joining leaves once the rules pass: a 500 when the user is no user (the foreign
      key refuses the row), otherwise one participant more, pending, with the request's
      opportunity, user and amount. */
  predicate Joined(db: Db, key: int, user: int, amount: int, now: string, r: Reply<string>,
                   before: seq<Participant>, top: int)
    reads db
  {
    if user !in db.users then
      r == ServerError && db.participants == before && db.participantSeq == top
    else
      && r == Success(201, "Successfully joined investment")
      && db.participantSeq == top + 1
      && db.participants == before + [Participant(top + 1, key, user, amount, PendingParticipation, now, None, SqlNull)]
  }

  /** The participant handler. The ledger is kept: no opportunity's pledges pass its numeric
      target. */
  method Participate(db: Db, id: string, body: Body, now: string) returns (r: Reply<string>)
    requires db.Valid()
    modifies db`participants, db`participantSeq
    ensures db.Valid()
    ensures old(db.WithinTargets()) ==> db.WithinTargets()
    ensures var errors := Join(id, body, FactsFor(db.opportunities, id), CommittedFor(db.opportunities, old(db.participants), id));
      if errors != [] then
        r == Invalid(errors) && db.participants == old(db.participants) && db.participantSeq == old(db.participantSeq)
      else
        var o := Lookup(db.opportunities, id);
        var user, amount := Numeral(Field(body, "user_id")), Numeral(Field(body, "amount"));
        && o.Some? && o.value.status == Open && user.Some? && amount.Some? && amount.value >= 0
        && Joined(db, o.value.id, user.value, amount.value, now, r, old(db.participants), old(db.participantSeq))
  {
    var errors := Join(id, body, FactsFor(db.opportunities, id), CommittedFor(db.opportunities, db.participants, id));
    if errors != [] {
      return Invalid(errors);
    }
    AdmittedPledgeFits(db.opportunities, db.participants, id, body);
    r := JoinAdmitted(db, Lookup(db.opportunities, id).value.id, Numeral(Field(body, "user_id")).value,
                      Numeral(Field(body, "amount")).value, now);
  }

  /** The body of the participant handler, behind its rules. The ledger is kept when the
      pledge fits the opportunity's target; the rules decide whether it does. */
  method JoinAdmitted(db: Db, key: int, user: int, amount: int, now: string) returns (r: Reply<string>)
    requires db.Valid() && key in db.opportunities
    modifies db`participants, db`participantSeq
    ensures db.Valid()
    ensures old(db.WithinTargets() && db.PledgeFits(key, amount)) ==> db.WithinTargets()
    ensures Joined(db, key, user, amount, now, r, old(db.participants), old(db.participantSeq))
  {
    if user !in db.users {
      return ServerError;
    }
    db.InsertParticipant(Participant(db.participantSeq + 1, key, user, amount, PendingParticipation, now, None, SqlNull));
    r := Success(201, "Successfully joined investment");
  }

  /** The participant handler as investments.js wires it: behind the chain of
      validation.js:115-135 as written, whose ceiling a signed amount string slips past.
      Refusals change nothing; an admitted join is the same insert as the corrected
      handler's, with no promise about the ledger (see ParticipateAsWrittenOverfills). */
  method ParticipateAsWritten(db: Db, id: string, body: Body, now: string) returns (r: Reply<string>)
    requires db.Valid()
    modifies db`participants, db`participantSeq
    ensures db.Valid()
    ensures var errors := JoinAsWritten(id, body, FactsFor(db.opportunities, id), CommittedFor(db.opportunities, old(db.participants), id));
      if errors != [] then
        r == Invalid(errors) && db.participants == old(db.participants) && db.participantSeq == old(db.participantSeq)
      else
        var o := Lookup(db.opportunities, id);
        var user, amount := Numeral(Field(body, "user_id")), Numeral(Field(body, "amount"));
        && o.Some? && o.value.status == Open && user.Some? && amount.Some? && amount.value >= 0
        && Joined(db, o.value.id, user.value, amount.value, now, r, old(db.participants), old(db.participantSeq))
  {
    var errors := JoinAsWritten(id, body, FactsFor(db.opportunities, id), CommittedFor(db.opportunities, db.participants, id));
    if errors != [] {
      return Invalid(errors);
    }
    JoinAsWrittenAccepted(id, body, FactsFor(db.opportunities, id), CommittedFor(db.opportunities, db.participants, id));
    r := JoinAdmitted(db, Lookup(db.opportunities, id).value.id, Numeral(Field(body, "user_id")).value,
                      Numeral(Field(body, "amount")).value, now);
  }

  /** As written, the participant handler admits a pledge the ledger cannot hold: an open
      opportunity with minimum 5000 and target 100000 that already holds 95000 takes a
      "+6000" join (the rules concatenate instead of adding), and the row it inserts
      leaves the opportunity 1000 over its target. The corrected rules refuse the same
      request. */
  lemma ParticipateAsWrittenOverfills(ops: map<int, Opportunity>, ps: seq<Participant>, id: string, body: Body, p: Participant)
    requires IsIntLiteral(id) && PathKey(id).value in ops
    requires ops[PathKey(id).value].id == PathKey(id).value && ops[PathKey(id).value].status == Open
    requires ops[PathKey(id).value].minimum == SqlInt(5000) && ops[PathKey(id).value].target == SqlInt(100000)
    requires Committed(ps, ops[PathKey(id).value].id) == 95000
    requires IsInt(Field(body, "user_id")) && Field(body, "amount") == Str("+6000")
    requires p.investmentId == ops[PathKey(id).value].id && p.amount == 6000
    ensures JoinAsWritten(id, body, FactsFor(ops, id), CommittedFor(ops, ps, id)) == []
    ensures Numeral(Field(body, "amount")) == Some(p.amount)
    ensures Join(id, body, FactsFor(ops, id), CommittedFor(ops, ps, id)) != []
    ensures !WithinTargetsOf(ops, ps + [p])
  {
    var o := ops[PathKey(id).value];
    assert FactsFor(ops, id) == Some(OpportunityFacts(Num(5000), Num(100000), Str("open")));
    assert CommittedFor(ops, ps, id) == 95000;
    JoinVerdictAsWrittenOverfills(5000, 100000, 95000);
    assert JoinAmountChainAsWritten(body, FactsFor(ops, id), 95000) == [];
    JoinVerdictNumeric(5000, 100000, 95000, Str("+6000"));
    assert JoinAmountChain(body, FactsFor(ops, id), 95000) != [];
    CommittedAppend(ps, p, o.id);
  }

  // ---------------------------------------------------------------------------------------
  // Changing a participation's status.

  /** `SELECT * ... WHERE id = ?`: the first row with the id. */
  function FirstWithId(ps: seq<Participant>, key: int): (r: Option<Participant>)
    ensures r.Some? ==> r.value in ps && r.value.id == key
    ensures r.None? ==> forall i | 0 <= i < |ps| :: ps[i].id != key
  {
    if ps == [] then None else if ps[0].id == key then Some(ps[0]) else FirstWithId(ps[1..], key)
  }

  /** A status change the rules admit names a row by an integer id and stores the status
      as given. */
  lemma AdmittedStatusStored(participationId: string, body: Body)
    requires ParticipationStatusUpdate(participationId, body) == []
    ensures PathKey(participationId).Some?
    ensures ParticipationStatusOf(TextColumn(Field(body, "status"))).Some?
    ensures ParticipationStatusName(ParticipationStatusOf(TextColumn(Field(body, "status"))).value)
            == ValidatorString(Field(body, "status"))
  {
    assert IsIn(Field(body, "status"), ParticipationStatuses);
    StoredParticipationStatus(Field(body, "status"));
  }

  /** The participation-status handler. Omitting the returns amount stores NULL over the old
      one. A missing row is reported after the UPDATE, which changes nothing. */
  method SetParticipationStatus(db: Db, participationId: string, body: Body, now: string) returns (r: Reply<Participant>)
    requires db.Valid()
    modifies db`participants
    ensures db.Valid()
    ensures old(db.WithinTargets()) ==> db.WithinTargets()
    ensures var errors := ParticipationStatusUpdate(participationId, body);
      if errors != [] then r == Invalid(errors) && db.participants == old(db.participants)
      else
        var key, status := PathKey(participationId), ParticipationStatusOf(TextColumn(Field(body, "status")));
        && key.Some? && status.Some?
        && db.participants == Restatus(old(db.participants), key.value, status.value, NumericColumn(Field(body, "returns_amount")), now)
        && r == match FirstWithId(db.participants, key.value)
                case None => Refused(404, "Participation not found")
                case Some(p) => Success(200, p)
  {
    var errors := ParticipationStatusUpdate(participationId, body);
    if errors != [] {
      return Invalid(errors);
    }
    AdmittedStatusStored(participationId, body);
    var key := PathKey(participationId).value;
    var status := ParticipationStatusOf(TextColumn(Field(body, "status"))).value;
    db.RestatusParticipants(key, status, NumericColumn(Field(body, "returns_amount")), now);
    var p := FirstWithId(db.participants, key);
    if p.None? {
      return Refused(404, "Participation not found");
    }
    r := Success(200, p.value);
  }

  // ---------------------------------------------------------------------------------------
  // Posting an update.

  /** The row the INSERT of an update stores under id `n`; `None` when a NOT NULL or CHECK
      constraint refuses a value. */
  function NewUpdate(key: int, creator: int, body: Body, n: int, now: string): (r: Option<InvestmentUpdate>)
    ensures r.Some? ==> r.value.id == n && r.value.investmentId == key && r.value.createdBy == creator
    ensures r.Some? ==> r.value.createdAt == now
    ensures r.Some? <==> RequiredText(Field(body, "title")).Some? && RequiredText(Field(body, "description")).Some?
                         && UpdateTypeOf(TextColumn(Field(body, "update_type"))).Some?
  {
    var title, description := RequiredText(Field(body, "title")), RequiredText(Field(body, "description"));
    var kind := UpdateTypeOf(TextColumn(Field(body, "update_type")));
    if title.None? || description.None? || kind.None? then None
    else Some(InvestmentUpdate(n, key, title.value, description.value, kind.value, creator, now))
  }

  /** An update the rules admit names a row by an integer id and an author, and is stored
      with its title, description and type as given. */
  lemma AdmittedUpdateStored(id: string, body: Body, n: int, now: string)
    requires UpdatePost(id, body) == []
    ensures PathKey(id).Some? && Numeral(Field(body, "created_by")).Some?
    ensures var r := NewUpdate(PathKey(id).value, Numeral(Field(body, "created_by")).value, body, n, now);
      && r.Some?
      && (Field(body, "title").Str? ==> r.value.title == Field(body, "title").s)
      && (Field(body, "description").Str? ==> r.value.description == Field(body, "description").s)
      && UpdateTypeName(r.value.kind) == ValidatorString(Field(body, "update_type"))
  {
    UpdatePostAccepts(id, body);
    StoredText(Field(body, "title"));
    StoredText(Field(body, "description"));
    StoredUpdateType(Field(body, "update_type"));
  }

  /** An update row joined with its author's name. */
  datatype UpdateView = UpdateView(update: InvestmentUpdate, createdByName: string)

  /** The update handler. The rule does not look the opportunity up, so an id naming no row
      passes it and the foreign key refuses the INSERT; so does an unknown author. */
  method PostUpdate(db: Db, id: string, body: Body, now: string) returns (r: Reply<UpdateView>)
    requires db.Valid()
    modifies db`updates, db`updateSeq
    ensures db.Valid()
    ensures var errors := UpdatePost(id, body);
      if errors != [] then r == Invalid(errors) && db.updates == old(db.updates) && db.updateSeq == old(db.updateSeq)
      else
        && PathKey(id).Some? && Numeral(Field(body, "created_by")).Some?
        && Posted(db, PathKey(id).value, Numeral(Field(body, "created_by")).value, body, now, r, old(db.updates), old(db.updateSeq))
  {
    var errors := UpdatePost(id, body);
    if errors != [] {
      return Invalid(errors);
    }
    AdmittedUpdateStored(id, body, db.updateSeq + 1, now);
    r := PostAdmitted(db, PathKey(id).value, Numeral(Field(body, "created_by")).value, body, now);
  }

  /** What posting an admitted update leaves: the INSERT fails on a foreign key, or the row
      is appended and returned with its author's name. */
  predicate Posted(db: Db, key: int, creator: int, body: Body, now: string, r: Reply<UpdateView>,
                   before: seq<InvestmentUpdate>, top: int)
    reads db
  {
    if key !in db.opportunities || creator !in db.users then
      r == ServerError && db.updates == before && db.updateSeq == top
    else
      var row := NewUpdate(key, creator, body, top + 1, now);
      && row.Some? && db.updates == before + [row.value] && db.updateSeq == row.value.id
      && r == Success(201, UpdateView(row.value, db.users[creator].name))
  }

  method PostAdmitted(db: Db, key: int, creator: int, body: Body, now: string) returns (r: Reply<UpdateView>)
    requires db.Valid() && NewUpdate(key, creator, body, db.updateSeq + 1, now).Some?
    modifies db`updates, db`updateSeq
    ensures db.Valid()
    ensures Posted(db, key, creator, body, now, r, old(db.updates), old(db.updateSeq))
  {
    if key !in db.opportunities || creator !in db.users {
      return ServerError;
    }
    var row := NewUpdate(key, creator, body, db.updateSeq + 1, now).value;
    db.InsertUpdate(row);
    r := Success(201, UpdateView(row, db.users[creator].name));
  }

  // ---------------------------------------------------------------------------------------
  // Reading: the GET handlers.

  /** The opportunities with ids 1 to `n`, in id order: the order of a scan of the table. */
  function RowsUpTo(ops: map<int, Opportunity>, n: int): (r: seq<Opportunity>)
    requires forall k | k in ops :: ops[k].id == k
    ensures forall o :: o in r <==> 1 <= o.id <= n && o.id in ops && ops[o.id] == o
    decreases n
  {
    if n <= 0 then [] else RowsUpTo(ops, n - 1) + (if n in ops then [ops[n]] else [])
  }

  /** The ids 1 to `n` that name a row. */
  function KeysUpTo(ops: map<int, Opportunity>, n: int): set<int> {
    set k | k in ops && 1 <= k <= n
  }

  lemma KeysUpToStep(ops: map<int, Opportunity>, n: int)
    requires n >= 1
    ensures n in ops ==> KeysUpTo(ops, n) == KeysUpTo(ops, n - 1) + {n} && n !in KeysUpTo(ops, n - 1)
    ensures n !in ops ==> KeysUpTo(ops, n) == KeysUpTo(ops, n - 1)
  {
  }

  /** The scan meets each row once. */
  lemma {:induction false} RowsUpToCount(ops: map<int, Opportunity>, n: int)
    requires forall k | k in ops :: ops[k].id == k
    ensures |RowsUpTo(ops, n)| == |KeysUpTo(ops, n)|
    decreases n
  {
    if n <= 0 {
      assert KeysUpTo(ops, n) == {};
    } else {
      RowsUpToCount(ops, n - 1);
      KeysUpToStep(ops, n);
    }
  }

  function CreatedKey(o: Opportunity): SqlValue {
    SqlText(o.createdAt)
  }

  /** The opportunity table listed newest first: every row once. */
  function Listing(ops: map<int, Opportunity>, top: int): (r: seq<Opportunity>)
    requires forall k | k in ops :: ops[k].id == k && 1 <= k <= top
    ensures forall o :: o in r <==> o.id in ops && ops[o.id] == o
    ensures |r| == |ops|
    ensures SortedBy(r, CreatedKey, true)
  {
    var rows := RowsUpTo(ops, top);
    RowsUpToCount(ops, top);
    assert KeysUpTo(ops, top) == ops.Keys;
    SortBySorted(rows, CreatedKey, true);
    SortByMembers(rows, CreatedKey, true);
    SortBy(rows, CreatedKey, true)
  }

  /** `GET /`: every opportunity once, newest first. */
  function ListOpportunities(db: Db): (r: seq<Opportunity>)
    reads db
    requires db.Valid()
    ensures forall o :: o in r <==> o.id in db.opportunities && db.opportunities[o.id] == o
    ensures |r| == |db.opportunities|
    ensures SortedBy(r, CreatedKey, true)
  {
    Listing(db.opportunities, db.opportunitySeq)
  }

  /** `GET /:id`, behind the rule that the id is an integer naming a row. */
  function GetOpportunity(db: Db, id: string): (r: Reply<Opportunity>)
    reads db
    ensures r.Success? <==> IsIntLiteral(id) && PathKey(id).value in db.opportunities
    ensures r.Success? ==> r.code == 200 && r.value == db.opportunities[PathKey(id).value]
    ensures !r.Success? ==> r.Invalid? && r.errors != []
  {
    var found := Lookup(db.opportunities, id);
    var errors := OpportunityExists(id, found.Some?);
    if errors != [] then Invalid(errors) else Success(200, found.value)
  }

  /** A row of a user's participation list: the participant row with columns of its
      opportunity. */
  datatype ParticipationView = ParticipationView(participation: Participant, title: string, description: string,
                                                 expectedReturns: SqlValue, duration: SqlValue, risk: RiskLevel,
                                                 investmentStatus: OpportunityStatus)

  function ViewOf(p: Participant, o: Opportunity): ParticipationView {
    ParticipationView(p, o.title, o.description, o.expectedReturns, o.duration, o.risk, o.status)
  }

  /** The inner JOIN of participants with their opportunities; every participant names one. */
  function JoinOpportunities(ps: seq<Participant>, ops: map<int, Opportunity>): (r: seq<ParticipationView>)
    requires forall i | 0 <= i < |ps| :: ps[i].investmentId in ops
    ensures |r| == |ps|
    ensures forall i | 0 <= i < |ps| :: r[i] == ViewOf(ps[i], ops[ps[i].investmentId])
  {
    if ps == [] then [] else [ViewOf(ps[0], ops[ps[0].investmentId])] + JoinOpportunities(ps[1..], ops)
  }

  function JoinedKey(v: ParticipationView): SqlValue {
    SqlText(v.participation.joinedAt)
  }

  /** The views of a user's participations are the views of exactly the participant rows of
      that user. */
  lemma UserViews(ps: seq<Participant>, ops: map<int, Opportunity>, user: int)
    requires forall i | 0 <= i < |ps| :: ps[i].investmentId in ops
    ensures var rows := JoinOpportunities(OfUser(ps, user), ops);
      forall v: ParticipationView :: v in rows <==>
        && v.participation in ps && v.participation.userId == user && v.participation.investmentId in ops
        && v == ViewOf(v.participation, ops[v.participation.investmentId])
  {
    var mine := OfUser(ps, user);
    var rows := JoinOpportunities(mine, ops);
    forall v: ParticipationView | v.participation in ps && v.participation.userId == user && v.participation.investmentId in ops
                && v == ViewOf(v.participation, ops[v.participation.investmentId])
      ensures v in rows
    {
      var i :| 0 <= i < |ps| && ps[i] == v.participation;
      var j :| 0 <= j < |mine| && mine[j] == ps[i];
      assert rows[j] == v;
    }
  }

  /** The participation list of user `user`: exactly that user's participants, each with its
      opportunity's columns, most recently joined first. */
  function ParticipationList(ps: seq<Participant>, ops: map<int, Opportunity>, user: int): (r: seq<ParticipationView>)
    requires forall i | 0 <= i < |ps| :: ps[i].investmentId in ops
    ensures SortedBy(r, JoinedKey, true)
    ensures |r| == |OfUser(ps, user)|
    ensures forall v :: v in r <==>
      && v.participation in ps && v.participation.userId == user && v.participation.investmentId in ops
      && v == ViewOf(v.participation, ops[v.participation.investmentId])
  {
    var rows := JoinOpportunities(OfUser(ps, user), ops);
    UserViews(ps, ops, user);
    SortBySorted(rows, JoinedKey, true);
    SortByMembers(rows, JoinedKey, true);
    SortBy(rows, JoinedKey, true)
  }

  /** `GET /user/:userId/participations`, behind the rule that the id names a user. */
  function UserParticipations(db: Db, userId: string): (r: Reply<seq<ParticipationView>>)
    reads db
    requires db.Valid()
    ensures r.Success? <==> IsIntLiteral(userId) && PathKey(userId).value in db.users
    ensures !r.Success? ==> r.Invalid? && r.errors != []
    ensures r.Success? ==>
      r.code == 200 && r.value == ParticipationList(db.participants, db.opportunities, PathKey(userId).value)
  {
    var key := PathKey(userId);
    var errors := UserExists(userId, key.Some? && key.value in db.users);
    if errors != [] then Invalid(errors)
    else Success(200, ParticipationList(db.participants, db.opportunities, key.value))
  }


  /** A row of an opportunity's participant list: the user's id, name and e-mail with the
      amount and time of the pledge. */
  datatype ParticipantView = ParticipantView(userId: int, name: string, email: string, amount: int, joinedAt: string)

  function PledgeOf(p: Participant, u: User): ParticipantView {
    ParticipantView(u.id, u.name, u.email, p.amount, p.joinedAt)
  }

  /** The inner JOIN of participants with their users; every participant names one. */
  function WithUsers(ps: seq<Participant>, users: map<int, User>): (r: seq<ParticipantView>)
    requires forall i | 0 <= i < |ps| :: ps[i].userId in users
    ensures |r| == |ps|
    ensures forall i | 0 <= i < |ps| :: r[i] == PledgeOf(ps[i], users[ps[i].userId])
  {
    if ps == [] then [] else [PledgeOf(ps[0], users[ps[0].userId])] + WithUsers(ps[1..], users)
  }

  function PledgedKey(v: ParticipantView): SqlValue {
    SqlText(v.joinedAt)
  }

  /** `v` is the pledge of one of the rows of `ps` under opportunity `k`. */
  predicate PledgeIn(ps: seq<Participant>, users: map<int, User>, k: int, v: ParticipantView)
    requires forall i | 0 <= i < |ps| :: ps[i].userId in users
  {
    exists i | 0 <= i < |ps| :: ps[i].investmentId == k && v == PledgeOf(ps[i], users[ps[i].userId])
  }

  /** The joined rows of an opportunity are the pledges of exactly its participant rows. */
  lemma OpportunityPledges(ps: seq<Participant>, users: map<int, User>, k: int)
    requires forall i | 0 <= i < |ps| :: ps[i].userId in users
    ensures var rows := WithUsers(OfOpportunity(ps, k), users);
      forall v: ParticipantView :: v in rows <==> PledgeIn(ps, users, k, v)
  {
    var mine := OfOpportunity(ps, k);
    var rows := WithUsers(mine, users);
    forall v: ParticipantView | v in rows
      ensures PledgeIn(ps, users, k, v)
    {
      var j :| 0 <= j < |rows| && rows[j] == v;
      assert mine[j] in ps;
      var i :| 0 <= i < |ps| && ps[i] == mine[j];
    }
    forall v: ParticipantView | PledgeIn(ps, users, k, v)
      ensures v in rows
    {
      var i :| 0 <= i < |ps| && ps[i].investmentId == k && v == PledgeOf(ps[i], users[ps[i].userId]);
      var j :| 0 <= j < |mine| && mine[j] == ps[i];
      assert rows[j] == v;
    }
  }

  /** The participant list of opportunity `k`: one row for each of its participants, with the
      user's columns, most recent pledge first. */
  function ParticipantList(ps: seq<Participant>, users: map<int, User>, k: int): (r: seq<ParticipantView>)
    requires forall i | 0 <= i < |ps| :: ps[i].userId in users
    ensures SortedBy(r, PledgedKey, true)
    ensures |r| == |OfOpportunity(ps, k)|
    ensures forall v :: v in r <==> PledgeIn(ps, users, k, v)
    ensures multiset(r) == multiset(WithUsers(OfOpportunity(ps, k), users))
  {
    var rows := WithUsers(OfOpportunity(ps, k), users);
    OpportunityPledges(ps, users, k);
    SortBySorted(rows, PledgedKey, true);
    SortByMembers(rows, PledgedKey, true);
    SortBy(rows, PledgedKey, true)
  }

  /** `GET /:id/participants`, behind the rule that the id names a row. */
  function ListParticipants(db: Db, id: string): (r: Reply<seq<ParticipantView>>)
    reads db
    requires db.Valid()
    ensures r.Success? <==> IsIntLiteral(id) && PathKey(id).value in db.opportunities
    ensures !r.Success? ==> r.Invalid? && r.errors != []
    ensures r.Success? ==> r.code == 200 && r.value == ParticipantList(db.participants, db.users, PathKey(id).value)
  {
    var found := Lookup(db.opportunities, id);
    var errors := OpportunityExists(id, found.Some?);
    if errors != [] then Invalid(errors)
    else Success(200, ParticipantList(db.participants, db.users, PathKey(id).value))
  }

  /** The row of `GET /:id/performance`. The average and the percentage are exact quotients;
      `ROUND(..., 2)` is not modelled. */
  datatype Performance = Performance(totalParticipants: nat, totalInvested: SqlValue,
                                     minInvestment: SqlValue, maxInvestment: SqlValue,
                                     avgInvestment: Option<Ratio>, target: SqlValue,
                                     fundingPercentage: Option<Ratio>)

  function AmountsOf(ps: seq<Participant>): (r: seq<SqlValue>)
    ensures |r| == |ps|
    ensures forall i | 0 <= i < |ps| :: r[i] == SqlInt(ps[i].amount)
  {
    if ps == [] then [] else [SqlInt(ps[0].amount)] + AmountsOf(ps[1..])
  }

  /** The amounts of one opportunity's participants add up to what is pledged to it. */
  lemma {:induction false} AmountsTotal(ps: seq<Participant>, k: int)
    requires forall i | 0 <= i < |ps| :: ps[i].investmentId == k
    ensures Total(AmountsOf(ps)) == Committed(ps, k)
  {
    if ps != [] {
      assert AmountsOf(ps)[1..] == AmountsOf(ps[1..]);
      AmountsTotal(ps[1..], k);
    }
  }

  /** `MIN(amount)` over a group: NULL for no rows. */
  function MinAmount(ps: seq<Participant>): (r: SqlValue)
    ensures r.SqlNull? <==> ps == []
    ensures !r.SqlText?
    ensures r.SqlInt? ==> (exists i | 0 <= i < |ps| :: ps[i].amount == r.i)
                          && forall i | 0 <= i < |ps| :: r.i <= ps[i].amount
  {
    if ps == [] then SqlNull
    else
      var rest := MinAmount(ps[1..]);
      if rest.SqlNull? || ps[0].amount <= rest.i then SqlInt(ps[0].amount)
      else
        var i :| 0 <= i < |ps[1..]| && ps[1..][i].amount == rest.i;
        assert ps[i + 1].amount == rest.i;
        rest
  }

  /** `MAX(amount)` over a group: NULL for no rows. */
  function MaxAmount(ps: seq<Participant>): (r: SqlValue)
    ensures r.SqlNull? <==> ps == []
    ensures !r.SqlText?
    ensures r.SqlInt? ==> (exists i | 0 <= i < |ps| :: ps[i].amount == r.i)
                          && forall i | 0 <= i < |ps| :: ps[i].amount <= r.i
  {
    if ps == [] then SqlNull
    else
      var rest := MaxAmount(ps[1..]);
      if rest.SqlNull? || rest.i <= ps[0].amount then SqlInt(ps[0].amount)
      else
        var i :| 0 <= i < |ps[1..]| && ps[1..][i].amount == rest.i;
        assert ps[i + 1].amount == rest.i;
        rest
  }

  /** `SUM(amount) * 100.0 / target_amount`: NULL when the sum is NULL, and when the target
      reads as 0, since SQLite gives NULL for a division by zero. */
  function Funding(total: SqlValue, target: SqlValue): (r: Option<Ratio>)
    ensures r.Some? <==> total.SqlInt? && Arith(target) != 0
    ensures r.Some? ==> r.value == Ratio(total.i * 100, Arith(target))
  {
    if total.SqlInt? && Arith(target) != 0 then Some(Ratio(total.i * 100, Arith(target))) else None
  }

  /** The performance row of opportunity `o`, from the LEFT JOIN of it with its participants
      grouped by it: how many participants, the sum of their amounts (NULL when there are
      none), the smallest, the largest and the mean amount, the target and the share of it
      that is funded, in percent. */
  function PerformanceOf(ps: seq<Participant>, o: Opportunity): (p: Performance)
    ensures p.totalParticipants == |OfOpportunity(ps, o.id)|
    ensures p.totalParticipants == 0 <==> forall i | 0 <= i < |ps| :: ps[i].investmentId != o.id
    ensures p.totalInvested.SqlNull? <==> p.totalParticipants == 0
    ensures p.totalInvested.SqlInt? ==> p.totalInvested.i == Committed(ps, o.id)
    ensures !p.totalInvested.SqlText?
    ensures p.minInvestment == MinAmount(OfOpportunity(ps, o.id))
    ensures p.maxInvestment == MaxAmount(OfOpportunity(ps, o.id))
    ensures p.avgInvestment.Some? <==> p.totalParticipants > 0
    ensures p.avgInvestment.Some? ==> p.avgInvestment.value == Ratio(Committed(ps, o.id), p.totalParticipants)
    ensures p.target == o.target
    ensures p.fundingPercentage.Some? <==> p.totalInvested.SqlInt? && Arith(o.target) != 0
    ensures p.fundingPercentage.Some? ==> p.fundingPercentage.value == Ratio(p.totalInvested.i * 100, Arith(o.target))
  {
    var mine := OfOpportunity(ps, o.id);
    var amounts := AmountsOf(mine);
    var total := Sum(amounts);
    AmountsTotal(mine, o.id);
    CommittedOf(ps, o.id);
    PerformanceCount(ps, o.id);
    NonNullKeepsAll(amounts);
    Performance(|mine|, total, MinAmount(mine), MaxAmount(mine), Avg(amounts), o.target, Funding(total, o.target))
  }

  /** `GET /:id/performance`, behind the rule that the id names a row. The query finds the
      row the rule found, so the handler's own 404 is never sent. */
  function GetPerformance(db: Db, id: string): (r: Reply<Performance>)
    reads db
    ensures r.Success? <==> IsIntLiteral(id) && PathKey(id).value in db.opportunities
    ensures !r.Success? ==> r.Invalid? && r.errors != []
    ensures r.Success? ==>
      r.code == 200 && r.value == PerformanceOf(db.participants, db.opportunities[PathKey(id).value])
  {
    var found := Lookup(db.opportunities, id);
    var errors := OpportunityExists(id, found.Some?);
    if errors != [] then Invalid(errors) else Success(200, PerformanceOf(db.participants, found.value))
  }

  /** An opportunity's group is empty exactly when no participant names it, and its amounts
      then have no non-NULL value. */
  lemma PerformanceCount(ps: seq<Participant>, k: int)
    ensures OfOpportunity(ps, k) == [] <==> forall i | 0 <= i < |ps| :: ps[i].investmentId != k
    ensures NonNull(AmountsOf(OfOpportunity(ps, k))) == [] <==> OfOpportunity(ps, k) == []
  {
    var mine := OfOpportunity(ps, k);
    if mine != [] {
      assert !AmountsOf(mine)[0].SqlNull?;
    }
  }

  /** Under the ledger, an opportunity with a positive numeric target and at least one
      participant is reported at most 100% funded. */
  lemma FundingAtMostFull(ops: map<int, Opportunity>, ps: seq<Participant>, k: int)
    requires WithinTargetsOf(ops, ps)
    requires k in ops && ops[k].id == k && ops[k].target.SqlInt? && ops[k].target.i > 0
    ensures var p := PerformanceOf(ps, ops[k]);
      p.fundingPercentage.Some? <==> p.totalParticipants > 0
    ensures var p := PerformanceOf(ps, ops[k]);
      p.fundingPercentage.Some? ==> p.fundingPercentage.value.num <= 100 * p.fundingPercentage.value.den
  {
    var p := PerformanceOf(ps, ops[k]);
    if p.fundingPercentage.Some? {
      assert p.totalInvested.i == Committed(ps, k) <= ops[k].target.i;
    }
  }

  /** The inner JOIN of updates with their authors; every update names one. */
  function WithAuthors(us: seq<InvestmentUpdate>, users: map<int, User>): (r: seq<UpdateView>)
    requires forall i | 0 <= i < |us| :: us[i].createdBy in users
    ensures |r| == |us|
    ensures forall i | 0 <= i < |us| :: r[i] == UpdateView(us[i], users[us[i].createdBy].name)
  {
    if us == [] then [] else [UpdateView(us[0], users[us[0].createdBy].name)] + WithAuthors(us[1..], users)
  }

  function PostedKey(v: UpdateView): SqlValue {
    SqlText(v.update.createdAt)
  }

  lemma OpportunityViews(us: seq<InvestmentUpdate>, users: map<int, User>, k: int)
    requires forall i | 0 <= i < |us| :: us[i].createdBy in users
    ensures var rows := WithAuthors(UpdatesOf(us, k), users);
      forall v: UpdateView :: v in rows <==>
        v.update in us && v.update.investmentId == k && v.update.createdBy in users
        && v.createdByName == users[v.update.createdBy].name
  {
    var mine := UpdatesOf(us, k);
    var rows := WithAuthors(mine, users);
    forall v: UpdateView | v.update in us && v.update.investmentId == k && v.update.createdBy in users
               && v.createdByName == users[v.update.createdBy].name
      ensures v in rows
    {
      var i :| 0 <= i < |us| && us[i] == v.update;
      var j :| 0 <= j < |mine| && mine[j] == us[i];
      assert rows[j] == v;
    }
  }

  /** The update log of opportunity `k`: exactly the updates posted under it, each with its
      author's name, newest first. */
  function UpdateLog(us: seq<InvestmentUpdate>, users: map<int, User>, k: int): (r: seq<UpdateView>)
    requires forall i | 0 <= i < |us| :: us[i].createdBy in users
    ensures |r| == |UpdatesOf(us, k)|
    ensures SortedBy(r, PostedKey, true)
    ensures forall v :: v in r <==>
      && v.update in us && v.update.investmentId == k && v.update.createdBy in users
      && v.createdByName == users[v.update.createdBy].name
  {
    var rows := WithAuthors(UpdatesOf(us, k), users);
    OpportunityViews(us, users, k);
    SortBySorted(rows, PostedKey, true);
    SortByMembers(rows, PostedKey, true);
    SortBy(rows, PostedKey, true)
  }

  /** `GET /:id/updates`, behind the rule that the id names a row. */
  function ListUpdates(db: Db, id: string): (r: Reply<seq<UpdateView>>)
    reads db
    requires db.Valid()
    ensures r.Success? <==> IsIntLiteral(id) && PathKey(id).value in db.opportunities
    ensures !r.Success? ==> r.Invalid? && r.errors != []
    ensures r.Success? ==> r.code == 200 && r.value == UpdateLog(db.updates, db.users, PathKey(id).value)
  {
    var found := Lookup(db.opportunities, id);
    var errors := OpportunityExists(id, found.Some?);
    if errors != [] then Invalid(errors)
    else Success(200, UpdateLog(db.updates, db.users, PathKey(id).value))
  }

}
