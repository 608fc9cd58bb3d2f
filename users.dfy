/** The user routes: reading a user, registering one, editing one, a user's profile with its
    totals, and replacing a user's settings. E-mails are UNIQUE in the table, and both the
    registration and the edit look the e-mail up first, so that a taken one is refused with a
    400 before the engine would refuse it. `now` is the engine's `datetime('now')` at the
    time of the request. */
module Users {
  import opened Wrappers
  import opened JsValues
  import opened Sql
  import opened Database
  import opened Http
  import opened Validation
  import opened Contributions

  // ---------------------------------------------------------------------------------------
  // Reading a user.

  /** `GET /:id`: the user the id names, or a 404. */
  function GetUser(users: map<int, User>, id: string): (r: Reply<User>)
    ensures r.Success? <==> PathKey(id).Some? && PathKey(id).value in users
    ensures r.Success? ==> r.code == 200 && r.value == users[PathKey(id).value]
    ensures !r.Success? ==> r == Refused(404, "User not found")
  {
    var k := PathKey(id);
    if k.Some? && k.value in users then Success(200, users[k.value]) else Refused(404, "User not found")
  }

  /** No rule guards the id, so "1.0", "1e0" and " 1" find user 1 as "1" does: the INTEGER
      key reads them as 1. */
  lemma GetUserIntegralIds(users: map<int, User>, one: string, expo: string, spaced: string)
    requires one == "1.0" && expo == "1e0" && spaced == " 1"
    ensures GetUser(users, one) == GetUser(users, expo) == GetUser(users, spaced) == GetUser(users, "1")
    ensures 1 in users ==> GetUser(users, one) == Success(200, users[1])
  {
    IntegralTextForms(one, expo, spaced);
    assert IsIntLiteral("1") && PathKey("1") == Some(1);
  }

  // ---------------------------------------------------------------------------------------
  // Registering a user.

  /** The row `POST /` inserts under `id`: name, e-mail and role from the body, status
      'active' whatever the body says. `None` when the engine refuses it: a name or an e-mail
      that binds as NULL, or a role outside the CHECK (NULL included). */
  function NewUser(body: Body, id: int, now: string): (r: Option<User>)
    ensures r.Some? <==>
      && RequiredText(Field(body, "name")).Some? && RequiredText(Field(body, "email")).Some?
      && RoleOf(TextColumn(Field(body, "role"))).Some?
    ensures r.Some? ==> var u := r.value;
      && u.id == id && u.status == ActiveUser && u.createdAt == now && u.updatedAt == now
      && Some(u.name) == RequiredText(Field(body, "name"))
      && SqlText(u.email) == TextColumn(Field(body, "email"))
      && SqlText(RoleName(u.role)) == TextColumn(Field(body, "role"))
  {
    var name, email := RequiredText(Field(body, "name")), RequiredText(Field(body, "email"));
    var role := RoleOf(TextColumn(Field(body, "role")));
    if name.None? || email.None? || role.None? then None
    else Some(User(id, name.value, email.value, role.value, ActiveUser, now, now))
  }

  /** `POST /`: a 400 when a user holds the e-mail; otherwise the new row under the next id
      with 201, or a 500 when the engine refuses it. */
  method Create(db: Db, body: Body, now: string) returns (r: Reply<User>)
    requires db.Valid()
    modifies db`users, db`userSeq
    ensures db.Valid()
    ensures var row := NewUser(body, old(db.userSeq) + 1, now);
      if EmailHolder(old(db.users), TextColumn(Field(body, "email"))).Some? then
        r == Refused(400, "Email already registered") && db.users == old(db.users) && db.userSeq == old(db.userSeq)
      else if row.None? then
        r == ServerError && db.users == old(db.users) && db.userSeq == old(db.userSeq)
      else
        && r == Success(201, row.value) && row.value.id !in old(db.users)
        && db.users == old(db.users)[row.value.id := row.value] && db.userSeq == row.value.id
  {
    if EmailHolder(db.users, TextColumn(Field(body, "email"))).Some? {
      return Refused(400, "Email already registered");
    }
    var row := NewUser(body, db.userSeq + 1, now);
    if row.None? {
      return ServerError;
    }
    db.InsertUser(row.value);
    r := Success(201, row.value);
  }

  // ---------------------------------------------------------------------------------------
  // Editing a user.

  /** The e-mail check of `PUT /:id`: a truthy e-mail that a user other than the one the id
      names holds. The id meets the INTEGER key, so text that is no integer literal is unequal
      to every id. A falsy e-mail ("" or 0) is not looked up. */
  predicate HeldByAnother(users: map<int, User>, id: string, email: Value)
    requires UniqueEmails(users)
  {
    var holder := EmailHolder(users, TextColumn(email));
    Truthy(email) && holder.Some? && (PathKey(id).None? || holder.value != PathKey(id).value)
  }

  /** `COALESCE(?, column)` for a TEXT column. */
  function KeepOr(v: Value, current: string): (r: string)
    ensures TextColumn(v).SqlNull? ==> r == current
    ensures TextColumn(v).SqlText? ==> r == TextColumn(v).t
  {
    var c := TextColumn(v);
    if c.SqlNull? then current else c.t
  }

  /** The row the UPDATE makes of `u`: each of name, e-mail, role and status is replaced by
      the body's value when that binds to something other than NULL and kept otherwise.
      `None` when a given role or status is outside its CHECK. */
  function Edited(u: User, body: Body, now: string): (r: Option<User>)
    ensures var role, status := TextColumn(Field(body, "role")), TextColumn(Field(body, "status"));
      r.Some? <==> (role.SqlNull? || RoleOf(role).Some?) && (status.SqlNull? || UserStatusOf(status).Some?)
    ensures r.Some? ==> var e := r.value;
      && e.id == u.id && e.createdAt == u.createdAt && e.updatedAt == now
      && e.name == KeepOr(Field(body, "name"), u.name)
      && e.email == KeepOr(Field(body, "email"), u.email)
      && (TextColumn(Field(body, "role")).SqlNull? ==> e.role == u.role)
      && (!TextColumn(Field(body, "role")).SqlNull? ==> SqlText(RoleName(e.role)) == TextColumn(Field(body, "role")))
      && (TextColumn(Field(body, "status")).SqlNull? ==> e.status == u.status)
      && (!TextColumn(Field(body, "status")).SqlNull? ==> SqlText(UserStatusName(e.status)) == TextColumn(Field(body, "status")))
  {
    var role, status := TextColumn(Field(body, "role")), TextColumn(Field(body, "status"));
    var newRole := if role.SqlNull? then Some(u.role) else RoleOf(role);
    var newStatus := if status.SqlNull? then Some(u.status) else UserStatusOf(status);
    if newRole.None? || newStatus.None? then None
    else Some(u.(name := KeepOr(Field(body, "name"), u.name), email := KeepOr(Field(body, "email"), u.email),
                 role := newRole.value, status := newStatus.value, updatedAt := now))
  }

  /** No user other than `k` holds `email`. */
  predicate FreeFor(users: map<int, User>, k: int, email: string) {
    forall j | j in users && j != k :: users[j].email != email
  }

  /** `PUT /:id`: a 400 when another user holds the given e-mail; a 404 when the id names no
      user; otherwise the edited row with 200, or a 500 when the engine refuses it (a role or
      status outside its CHECK, or an e-mail another user holds, which only a falsy e-mail
      can reach). */
  method Update(db: Db, id: string, body: Body, now: string) returns (r: Reply<User>)
    requires db.Valid()
    modifies db`users
    ensures db.Valid()
    ensures
      if HeldByAnother(old(db.users), id, Field(body, "email")) then
        r == Refused(400, "Email already registered to another user") && db.users == old(db.users)
      else if PathKey(id).None? || PathKey(id).value !in old(db.users) then
        r == Refused(404, "User not found") && db.users == old(db.users)
      else
        var k := PathKey(id).value;
        var row := Edited(old(db.users)[k], body, now);
        if row.None? || !FreeFor(old(db.users), k, row.value.email) then
          r == ServerError && db.users == old(db.users)
        else
          r == Success(200, row.value) && db.users == old(db.users)[k := row.value]
  {
    if HeldByAnother(db.users, id, Field(body, "email")) {
      return Refused(400, "Email already registered to another user");
    }
    var key := PathKey(id);
    if key.None? || key.value !in db.users {
      return Refused(404, "User not found");
    }
    var row := Edited(db.users[key.value], body, now);
    if row.None? || !FreeFor(db.users, key.value, row.value.email) {
      return ServerError;
    }
    db.ReplaceUser(row.value);
    r := Success(200, row.value);
  }

  /** Submitting one's own e-mail again passes the check. */
  lemma OwnEmailAllowed(users: map<int, User>, id: string, k: int)
    requires UniqueEmails(users) && PathKey(id) == Some(k) && k in users
    ensures !HeldByAnother(users, id, Str(users[k].email))
  {
    var holder := EmailHolder(users, TextColumn(Str(users[k].email)));
    if holder.Some? {
      assert users[holder.value].email == users[k].email;
    }
  }

  /** A truthy e-mail the check passes is held by no other user, so the edit that stores it
      only fails on the CHECKs. */
  lemma CheckedEmailIsFree(users: map<int, User>, id: string, body: Body, now: string)
    requires UniqueEmails(users) && PathKey(id).Some? && PathKey(id).value in users
    requires Truthy(Field(body, "email")) && !HeldByAnother(users, id, Field(body, "email"))
    ensures var k := PathKey(id).value; var row := Edited(users[k], body, now);
      row.Some? ==> FreeFor(users, k, row.value.email)
  {
    var k := PathKey(id).value;
    var v := Field(body, "email");
    assert !TextColumn(v).SqlNull?;
    var holder := EmailHolder(users, TextColumn(v));
    var row := Edited(users[k], body, now);
    if row.Some? {
      forall j | j in users && j != k ensures users[j].email != row.value.email {
        assert SqlText(row.value.email) == TextColumn(v);
      }
    }
  }

  /** A body with none of the four fields changes only the time stamp. */
  lemma EmptyEditKeeps(u: User, now: string)
    ensures Edited(u, map[], now) == Some(u.(updatedAt := now))
  {
    assert Field(map[], "name") == Undefined;
  }

  /** An empty e-mail is falsy: it is not looked up, and the edit stores it. */
  lemma EmptyEmailUnchecked(users: map<int, User>, id: string, u: User, now: string)
    requires UniqueEmails(users)
    ensures !HeldByAnother(users, id, Str(""))
    ensures Edited(u, map["email" := Str("")], now).Some?
    ensures Edited(u, map["email" := Str("")], now).value.email == ""
  {
  }

  // ---------------------------------------------------------------------------------------
  // The profile.

  /** One row of `users u LEFT JOIN contributions c LEFT JOIN investment_participants ip`
      for a fixed user: a contribution or the NULL row, and a participation or the NULL row. */
  datatype JoinedRow = JoinedRow(contribution: Option<Contribution>, participation: Option<Participant>)

  function Somes<T(!new)>(xs: seq<T>): (r: seq<Option<T>>)
    ensures |r| == |xs|
    ensures forall x :: Some(x) in r <==> x in xs
    ensures None !in r
  {
    if xs == [] then []
    else
      assert forall x :: x in xs <==> x == xs[0] || x in xs[1..];
      [Some(xs[0])] + Somes(xs[1..])
  }

  /** One side of a LEFT JOIN: the matching rows, or a single NULL row when there are none. */
  function LeftSide<T(!new)>(xs: seq<T>): (r: seq<Option<T>>)
    ensures r != []
    ensures forall x :: Some(x) in r <==> x in xs
    ensures None in r <==> xs == []
  {
    if xs == [] then [None] else Somes(xs)
  }

  /** A row of the left side against every row of the right side. */
  function Pairs(l: Option<Contribution>, rs: seq<Option<Participant>>): (r: seq<JoinedRow>)
    ensures |r| == |rs|
    ensures forall i | 0 <= i < |rs| :: r[i] == JoinedRow(l, rs[i])
  {
    if rs == [] then [] else [JoinedRow(l, rs[0])] + Pairs(l, rs[1..])
  }

  /** The joined rows: every left row against every right row. */
  function Cross(ls: seq<Option<Contribution>>, rs: seq<Option<Participant>>): seq<JoinedRow> {
    if ls == [] then [] else Pairs(ls[0], rs) + Cross(ls[1..], rs)
  }

  /** A joined row is a left row beside a right row, and every such pair is joined. */
  lemma {:induction false} CrossMembers(ls: seq<Option<Contribution>>, rs: seq<Option<Participant>>)
    ensures forall row :: row in Cross(ls, rs) <==> row.contribution in ls && row.participation in rs
  {
    if ls != [] {
      var head := Pairs(ls[0], rs);
      forall row ensures row in head <==> row.contribution == ls[0] && row.participation in rs {
        if row.contribution == ls[0] && row.participation in rs {
          var i :| 0 <= i < |rs| && rs[i] == row.participation;
          assert head[i] == row;
        }
      }
      CrossMembers(ls[1..], rs);
      assert forall l :: l in ls <==> l == ls[0] || l in ls[1..];
    }
  }

  /** `CASE WHEN c.status = 'validated' THEN c.amount ELSE 0 END` on a joined row. */
  function CaseAmount(row: JoinedRow): SqlValue {
    var c := row.contribution;
    if c.Some? && c.value.status == ValidatedContribution then c.value.amount else SqlInt(0)
  }

  function CaseColumn(rows: seq<JoinedRow>): (r: seq<SqlValue>)
    ensures |r| == |rows|
    ensures forall i | 0 <= i < |rows| :: r[i] == CaseAmount(rows[i])
  {
    if rows == [] then [] else [CaseAmount(rows[0])] + CaseColumn(rows[1..])
  }

  /** The case amount of a left row alone. */
  function LeftAmount(l: Option<Contribution>): int {
    if l.Some? && l.value.status == ValidatedContribution then Arith(l.value.amount) else 0
  }

  function LeftAmounts(ls: seq<Option<Contribution>>): int {
    if ls == [] then 0 else LeftAmount(ls[0]) + LeftAmounts(ls[1..])
  }

  lemma {:induction false} PairsTotal(l: Option<Contribution>, rs: seq<Option<Participant>>)
    ensures Total(CaseColumn(Pairs(l, rs))) == |rs| * LeftAmount(l)
  {
    if rs != [] {
      assert Pairs(l, rs)[1..] == Pairs(l, rs[1..]);
      assert CaseColumn(Pairs(l, rs))[1..] == CaseColumn(Pairs(l, rs[1..]));
      PairsTotal(l, rs[1..]);
      SuccTimes(|rs| - 1, LeftAmount(l));
    }
  }

  lemma SuccTimes(n: int, x: int)
    ensures (n + 1) * x == x + n * x
  {
  }

  lemma CaseColumnAppend(a: seq<JoinedRow>, b: seq<JoinedRow>)
    ensures CaseColumn(a + b) == CaseColumn(a) + CaseColumn(b)
  {
  }

  lemma Distribute(a: int, b: int, c: int)
    ensures a * (b + c) == a * b + a * c
  {
  }

  /** Every left row is summed once per right row: the join multiplies the sum by the size of
      the right side. */
  lemma {:induction false} CrossTotal(ls: seq<Option<Contribution>>, rs: seq<Option<Participant>>)
    ensures Total(CaseColumn(Cross(ls, rs))) == |rs| * LeftAmounts(ls)
  {
    if ls != [] {
      var head := Pairs(ls[0], rs);
      CaseColumnAppend(head, Cross(ls[1..], rs));
      TotalAppend(CaseColumn(head), CaseColumn(Cross(ls[1..], rs)));
      assert Cross(ls, rs) == head + Cross(ls[1..], rs);
      PairsTotal(ls[0], rs);
      CrossTotal(ls[1..], rs);
      Distribute(|rs|, LeftAmount(ls[0]), LeftAmounts(ls[1..]));
    }
  }

  lemma {:induction false} LeftAmountsOfRows(cs: seq<Contribution>)
    ensures LeftAmounts(Somes(cs)) == AmountWith(cs, ValidatedContribution)
  {
    if cs != [] {
      assert Somes(cs)[1..] == Somes(cs[1..]);
      LeftAmountsOfRows(cs[1..]);
    }
  }

  lemma LeftSideAmounts(cs: seq<Contribution>)
    ensures LeftAmounts(LeftSide(cs)) == AmountWith(cs, ValidatedContribution)
  {
    if cs != [] {
      LeftAmountsOfRows(cs);
    }
  }

  /** The case column has no NULL when every contribution has an amount. */
  lemma CaseColumnPresent(rows: seq<JoinedRow>)
    requires forall row | row in rows && row.contribution.Some? :: !row.contribution.value.amount.SqlNull?
    ensures forall i | 0 <= i < |CaseColumn(rows)| :: !CaseColumn(rows)[i].SqlNull?
  {
    forall i | 0 <= i < |rows| ensures !CaseColumn(rows)[i].SqlNull? {
      assert rows[i] in rows;
    }
  }

  /** What a profile adds to the user's row. */
  datatype UserProfile = UserProfile(user: User, totalContributions: nat, totalContributionAmount: SqlValue,
                                     totalInvestments: nat)

  /** The ids of a user's contributions. */
  function ContributionIds(cs: seq<Contribution>, k: int): set<int> {
    set c | c in cs && c.userId == k :: c.id
  }

  /** The opportunities a user participates in. */
  function InvestedIn(ps: seq<Participant>, k: int): set<int> {
    set p | p in ps && p.userId == k :: p.investmentId
  }

  /** The participations of user `k`, in table order. */
  function ParticipationsOf(ps: seq<Participant>, k: int): (r: seq<Participant>)
    ensures forall p :: p in r <==> p in ps && p.userId == k
  {
    if ps == [] then []
    else
      assert forall p :: p in ps <==> p == ps[0] || p in ps[1..];
      if ps[0].userId == k then [ps[0]] + ParticipationsOf(ps[1..], k) else ParticipationsOf(ps[1..], k)
  }

  /** The joined rows of user `k`. */
  function JoinedRows(cs: seq<Contribution>, ps: seq<Participant>, k: int): seq<JoinedRow> {
    Cross(LeftSide(ByUser(cs, k)), LeftSide(ParticipationsOf(ps, k)))
  }

  /** The sets `COUNT(DISTINCT c.id)` and `COUNT(DISTINCT ip.investment_id)` count. */
  function DistinctContributions(rows: seq<JoinedRow>): set<int> {
    set row | row in rows && row.contribution.Some? :: row.contribution.value.id
  }

  function DistinctInvestments(rows: seq<JoinedRow>): set<int> {
    set row | row in rows && row.participation.Some? :: row.participation.value.investmentId
  }

  /** The join repeats rows but adds no ids: the distinct counts are the user's own. */
  lemma JoinedDistinct(cs: seq<Contribution>, ps: seq<Participant>, k: int)
    ensures DistinctContributions(JoinedRows(cs, ps, k)) == ContributionIds(cs, k)
    ensures DistinctInvestments(JoinedRows(cs, ps, k)) == InvestedIn(ps, k)
  {
    var ls, rs := LeftSide(ByUser(cs, k)), LeftSide(ParticipationsOf(ps, k));
    var rows := JoinedRows(cs, ps, k);
    CrossMembers(ls, rs);
    forall id | id in ContributionIds(cs, k) ensures id in DistinctContributions(rows) {
      var c :| c in cs && c.userId == k && c.id == id;
      assert JoinedRow(Some(c), rs[0]) in rows;
    }
    forall id | id in InvestedIn(ps, k) ensures id in DistinctInvestments(rows) {
      var p :| p in ps && p.userId == k && p.investmentId == id;
      assert JoinedRow(ls[0], Some(p)) in rows;
    }
  }

  /** Every joined contribution is a stored one, so it has an amount. */
  lemma JoinedAmountsPresent(cs: seq<Contribution>, ps: seq<Participant>, k: int)
    requires AmountsPresent(cs)
    ensures forall row | row in JoinedRows(cs, ps, k) && row.contribution.Some? ::
              !row.contribution.value.amount.SqlNull?
  {
    CrossMembers(LeftSide(ByUser(cs, k)), LeftSide(ParticipationsOf(ps, k)));
    forall row | row in JoinedRows(cs, ps, k) && row.contribution.Some?
      ensures !row.contribution.value.amount.SqlNull?
    {
      var c := row.contribution.value;
      assert c in cs;
      var i :| 0 <= i < |cs| && cs[i] == c;
    }
  }

  /** How many times the join repeats a contribution: once per participation, and once when
      there is none. */
  function Fanout(participations: nat): nat {
    if participations == 0 then 1 else participations
  }

  /** `GET /:id/profile` as written: the user's row with the aggregates of the double LEFT
      JOIN grouped by the user, or a 404. Each contribution meets every participation of the
      user, so the validated sum is multiplied by the number of participations when there is
      at least one; the distinct counts are unaffected. The sum is never NULL: the user's row
      joins at least once, and every CASE value is an amount or 0. */
  function ProfileAsWritten(users: map<int, User>, cs: seq<Contribution>, ps: seq<Participant>, id: string): (r: Reply<UserProfile>)
    requires AmountsPresent(cs)
    ensures r.Success? <==> PathKey(id).Some? && PathKey(id).value in users
    ensures !r.Success? ==> r == Refused(404, "User not found")
    ensures r.Success? ==> var k := PathKey(id).value;
      && r.code == 200 && r.value.user == users[k]
      && r.value.totalContributions == |ContributionIds(cs, k)|
      && r.value.totalInvestments == |InvestedIn(ps, k)|
      && r.value.totalContributionAmount ==
           SqlInt(AmountWith(ByUser(cs, k), ValidatedContribution) * Fanout(|ParticipationsOf(ps, k)|))
  {
    var key := PathKey(id);
    if key.None? || key.value !in users then Refused(404, "User not found")
    else
      var k := key.value;
      var ls, rs := LeftSide(ByUser(cs, k)), LeftSide(ParticipationsOf(ps, k));
      var rows := Cross(ls, rs);
      var column := CaseColumn(rows);
      JoinedDistinct(cs, ps, k);
      CrossTotal(ls, rs);
      LeftSideAmounts(ByUser(cs, k));
      assert |rs| == Fanout(|ParticipationsOf(ps, k)|);
      CrossMembers(ls, rs);
      assert JoinedRow(ls[0], rs[0]) in rows;
      JoinedAmountsPresent(cs, ps, k);
      CaseColumnPresent(rows);
      assert column != [] && !column[0].SqlNull?;
      Success(200, UserProfile(users[k], |DistinctContributions(rows)|, Sum(column), |DistinctInvestments(rows)|))
  }

  /** The profile as intended: the sum of the user's validated amounts, each counted once
      (0 when there is none), beside the same two distinct counts. */
  function Profile(users: map<int, User>, cs: seq<Contribution>, ps: seq<Participant>, id: string): (r: Reply<UserProfile>)
    ensures r.Success? <==> PathKey(id).Some? && PathKey(id).value in users
    ensures !r.Success? ==> r == Refused(404, "User not found")
    ensures r.Success? ==> var k := PathKey(id).value;
      && r.code == 200 && r.value.user == users[k]
      && r.value.totalContributions == |ContributionIds(cs, k)|
      && r.value.totalInvestments == |InvestedIn(ps, k)|
      && r.value.totalContributionAmount == SqlInt(AmountWith(ByUser(cs, k), ValidatedContribution))
  {
    var key := PathKey(id);
    if key.None? || key.value !in users then Refused(404, "User not found")
    else
      var k := key.value;
      Success(200, UserProfile(users[k], |ContributionIds(cs, k)|,
                               SqlInt(AmountWith(ByUser(cs, k), ValidatedContribution)), |InvestedIn(ps, k)|))
  }

  /** The query as written agrees with the intended profile except for the validated sum,
      which it multiplies by the fan-out. */
  lemma ProfileFanout(users: map<int, User>, cs: seq<Contribution>, ps: seq<Participant>, id: string)
    requires AmountsPresent(cs)
    ensures ProfileAsWritten(users, cs, ps, id).Success? <==> Profile(users, cs, ps, id).Success?
    ensures Profile(users, cs, ps, id).Success? ==>
      var k, p := PathKey(id).value, Profile(users, cs, ps, id).value;
      ProfileAsWritten(users, cs, ps, id).value ==
        p.(totalContributionAmount := SqlInt(Arith(p.totalContributionAmount) * Fanout(|ParticipationsOf(ps, k)|)))
  {
  }

  /** A member with one validated contribution of 5000 in two opportunities: the query as
      written reports 10000. */
  lemma DoubledProfile()
    ensures var users := map[1 := User(1, "Ada", "ada@example.org", Member, ActiveUser, "t", "t")];
      var cs := [Contribution(1, 1, SqlInt(5000), "TX1", SqlNull, SqlText("2024-01-31"), ValidatedContribution,
                              Some(1), "t", "t")];
      var ps := [Participant(1, 1, 1, 5000, ActiveParticipation, "t", None, SqlNull),
                 Participant(2, 2, 1, 7000, ActiveParticipation, "t", None, SqlNull)];
      && ProfileAsWritten(users, cs, ps, "1").value.totalContributionAmount == SqlInt(10000)
      && Profile(users, cs, ps, "1").value.totalContributionAmount == SqlInt(5000)
  {
    var users := map[1 := User(1, "Ada", "ada@example.org", Member, ActiveUser, "t", "t")];
    var cs := [Contribution(1, 1, SqlInt(5000), "TX1", SqlNull, SqlText("2024-01-31"), ValidatedContribution,
                            Some(1), "t", "t")];
    var ps := [Participant(1, 1, 1, 5000, ActiveParticipation, "t", None, SqlNull),
               Participant(2, 2, 1, 7000, ActiveParticipation, "t", None, SqlNull)];
    assert IsIntLiteral("1") && PathKey("1") == Some(1);
    assert ByUser(cs, 1) == cs;
    assert AmountWith(cs, ValidatedContribution) == 5000;
    assert ParticipationsOf(ps, 1) == ps;
    assert AmountsPresent(cs);
  }

  // ---------------------------------------------------------------------------------------
  // Settings.

  /** The rows `UPDATE user_settings ... WHERE user_id = k` leaves: each row of the user takes
      both preference texts and the time; the others are as they were. */
  function Reset(ss: seq<Settings>, k: int, notifications: string, communications: string, now: string): (r: seq<Settings>)
    ensures |r| == |ss|
    ensures forall i | 0 <= i < |ss| :: r[i].id == ss[i].id && r[i].userId == ss[i].userId
    ensures forall i | 0 <= i < |ss| && ss[i].userId == k ::
              r[i].notifications == notifications && r[i].communications == communications && r[i].updatedAt == now
    ensures forall i | 0 <= i < |ss| && ss[i].userId != k :: r[i] == ss[i]
  {
    if ss == [] then []
    else
      var head := if ss[0].userId == k
        then ss[0].(notifications := notifications, communications := communications, updatedAt := now)
        else ss[0];
      [head] + Reset(ss[1..], k, notifications, communications, now)
  }

  /** Where the rows of user `k` start: their first index, or `|ss|` when there is none. */
  function FirstIndex(ss: seq<Settings>, k: int): (r: nat)
    ensures r <= |ss|
    ensures r < |ss| ==> ss[r].userId == k
    ensures forall j | 0 <= j < r :: ss[j].userId != k
  {
    if ss == [] then 0 else if ss[0].userId == k then 0 else 1 + FirstIndex(ss[1..], k)
  }

  /** `SELECT * FROM user_settings WHERE user_id = ?` read with `db.get`: the first row of the
      user in table order, or nothing. */
  function FirstOf(ss: seq<Settings>, k: int): Option<Settings> {
    var i := FirstIndex(ss, k);
    if i < |ss| then Some(ss[i]) else None
  }

  /** `PUT /:id/settings`: both preferences are serialised with `JSON.stringify` and written
      into every settings row of the user, and the first of those rows is returned. The id
      meets the INTEGER column, so text that is no integer literal matches no row. When no row
      matches, the UPDATE checks nothing and the reply carries no row (`res.json(undefined)`);
      when one matches, an omitted preference serialises to `undefined`, binds as NULL and
      fails the NOT NULL constraint. */
  method PutSettings(db: Db, id: string, body: Body, now: string) returns (r: Reply<Option<Settings>>)
    requires db.Valid()
    modifies db`settings
    ensures db.Valid()
    ensures var key := PathKey(id);
      var n, c := Stringify(Field(body, "notification_preferences")), Stringify(Field(body, "communication_preferences"));
      if key.None? || FirstOf(old(db.settings), key.value).None? then
        r == Success(200, None) && db.settings == old(db.settings)
      else if n.None? || c.None? then
        r == ServerError && db.settings == old(db.settings)
      else
        && db.settings == Reset(old(db.settings), key.value, n.value, c.value, now)
        && r == Success(200, FirstOf(db.settings, key.value))
  {
    var key := PathKey(id);
    if key.None? || FirstOf(db.settings, key.value).None? {
      return Success(200, None);
    }
    var n := Stringify(Field(body, "notification_preferences"));
    var c := Stringify(Field(body, "communication_preferences"));
    if n.None? || c.None? {
      return ServerError;
    }
    db.ReplaceSettings(Reset(db.settings, key.value, n.value, c.value, now));
    r := Success(200, FirstOf(db.settings, key.value));
  }

  /** The row returned is the user's first row, now holding both serialised preferences;
      preferences sent as JSON strings read back as the same strings. */
  lemma SettingsRoundTrip(ss: seq<Settings>, k: int, notifications: string, communications: string, now: string)
    requires FirstOf(ss, k).Some?
    ensures var row := FirstOf(Reset(ss, k, Quote(notifications), Quote(communications), now), k);
      && row.Some? && row.value.userId == k && row.value.id == FirstOf(ss, k).value.id
      && ParseString(row.value.notifications) == Some(notifications)
      && ParseString(row.value.communications) == Some(communications)
      && row.value.updatedAt == now
  {
    var t := Reset(ss, k, Quote(notifications), Quote(communications), now);
    var i := FirstIndex(ss, k);
    FirstIndexKept(ss, t, k);
    StringifyParse(notifications);
    StringifyParse(communications);
  }

  /** Resetting keeps which rows belong to the user, so the first of them stays first. */
  lemma {:induction false} FirstIndexKept(ss: seq<Settings>, t: seq<Settings>, k: int)
    requires |t| == |ss| && forall i | 0 <= i < |ss| :: t[i].userId == ss[i].userId
    ensures FirstIndex(t, k) == FirstIndex(ss, k)
  {
    if ss != [] && ss[0].userId != k {
      FirstIndexKept(ss[1..], t[1..], k);
    }
  }
}
