# InvestClub server and client rules, modelled in Dafny

InvestClub is the back office of an investment club. Members record the contributions they
pay in, with a proof of payment. Administrators validate or reject those contributions,
publish investment opportunities, and post updates about them. Members pledge amounts to the
opportunities that are open. An Express server keeps everything in SQLite and stores uploaded
files in an object store. A React client offers forms for adding and editing members, for
joining an opportunity, for recording a contribution, and for picking a file.

This project models:

- the request rules of the validation middleware;
- the investment, contribution and user routes over one database;
- the file policy, and the upload route with its object store and `files` table;
- the migration runner;
- the client's file picker and its four forms.

Each module follows one source file:

| module | models |
|---|---|
| `Validation` | `server/src/middleware/validation.js` |
| `Investments` | `server/src/routes/investments.js` |
| `Contributions` | `server/src/routes/contributions.js` |
| `Users` | `server/src/routes/users.js` |
| `FilePolicy` | `server/src/middleware/fileValidation.ts` |
| `Upload` | `server/src/routes/upload.ts` |
| `Migrate` | `server/src/database/migrate.js` |
| `FileUploadWidget` | `client/src/components/common/FileUpload.tsx` |
| `AddMemberModal`, `EditMemberModal`, `InvestmentParticipationModal`, `ContributionModal` | the modals of the same names |
| `Database` | the schema of the migrations: enum columns, row constraints, and the `Db` class that holds the tables |
| `JsValues`, `Sql`, `Lex`, `Collections`, `Http`, `Toasts`, `Wrappers` | JavaScript values and coercions, SQLite values and aggregates, string order and stable sorting, replies, toasts, `Option` |

A request body is a map from field names to JavaScript values. Numbers are integers, because
amounts are whole naira. A numeric string is an integer literal.

The route handlers are methods on the `Db` class. Each method states its whole new state and
its reply, for every branch of the handler. Each one keeps `Db.Valid()`. That predicate holds:

- the UNIQUE, NOT NULL and CHECK constraints;
- the foreign keys, which `server/src/database/index.js:20` switches on.

The investment handlers, as corrected, also keep the ledger invariant `WithinTargets`: no
opportunity has more pledged than its numeric target. There are two exceptions:

- The participant handler as written can break it (`Investments.ParticipateAsWrittenOverfills`,
  see Findings).
- `Investments.Update` keeps it only when the body omits `target_amount`. The edit rules at
  `server/src/middleware/validation.js:138-169` do not compare a new target with the sum
  already pledged. So an edit that sets the target below that sum leaves the opportunity over
  its target.

The GET handlers are functions over the tables. For each one, the model proves:

- which rows it returns;
- the order it sorts them in;
- how its sums, counts and averages relate to the rows.

The clock, the object store's answers and the migration scripts' outcomes are parameters:

- `now`: the engine's `datetime('now')`;
- `DateEnv`: the date parser and format checks of the validator library;
- `answer`, `ok`: the object store's replies;
- `failing`: the migration scripts that throw.

Where the code is evidently wrong, the model has two members: one named `...AsWritten` that
does what the code does, and a corrected one that the rest of the model builds on. Findings
lists each pair. In the other places where the program's parts suggest different rules, the
model follows the route code:

- A contribution's status can be changed from any status to any status. The admin page offers
  Validate and Reject only for a pending contribution
  (`client/src/components/admin/AdminContributions.tsx:149`). But
  `server/src/routes/contributions.js:82-98` has no transition check
  (`Contributions.AnyTransition`).
- Completing a participation without a `returns_amount` passes. The custom check's message at
  `server/src/middleware/validation.js:181-183` asks for the amount on completion. But the
  chain is optional (line 177), so an absent amount never reaches that check
  (`Validation.CompletionReturns`).
- Deleting an opportunity also removes its participants and updates. Foreign keys are on, and
  the schema cascades (`server/src/database/migrations/004_create_investments.js:29,41`).
- The contribution router installs none of the rules of `validation.js`. A contribution of
  4,999 is stored, although the rules refuse it (`Contributions.BelowFloorStored`).
- The join rule at `server/src/middleware/validation.js:124-131` is meant to keep the sum
  pledged to an opportunity within its target, as its comment and message say. As written it
  can be bypassed: see Findings.

## Model

| member | source | states |
|---|---|---|
| Validation.Validate | server/src/middleware/validation.js:4-10 | the request proceeds exactly when the rule set reported no error, and is otherwise refused with the full error list |
| Validation.ContributionCreateAccepts | server/src/middleware/validation.js:13-27 | a contribution passes exactly when `user_id` is an integer, the amount is a numeral of at least 5000, the reference is a non-empty string and the date is a date |
| Validation.ContributionAmountFloor | server/src/middleware/validation.js:16-18 | a numeric amount draws an amount error exactly when it is below 5000, so 4999 is refused and 5000 accepted |
| Validation.ContributionUpdateStatusAccepts | server/src/middleware/validation.js:28-42 | a status change passes exactly when the id is an integer, the status is pending, validated or rejected, a given validator is an integer, and a rejection has a non-empty reason |
| Validation.RejectionReasonOnlyForRejected | server/src/middleware/validation.js:37-40 | no status other than rejected draws a `rejection_reason` error |
| Validation.TitleChain | server/src/middleware/validation.js:48-50 | the title chain reports only at `title`, and passes exactly on a non-empty title of at most 100 characters |
| Validation.DescriptionChain | server/src/middleware/validation.js:51-53 | the description passes exactly when non-empty and at most 1000 characters |
| Validation.TargetChain | server/src/middleware/validation.js:54-56 | the target passes exactly when it is a number of at least 100,000 |
| Validation.MinimumChainAccepts | server/src/middleware/validation.js:57-65 | with a numeral target, the minimum passes exactly when it is a numeral between 5000 and the target |
| Validation.ReturnsChain | server/src/middleware/validation.js:66-68 | expected returns pass exactly when they lie in [0, 100] |
| Validation.DurationChain | server/src/middleware/validation.js:69-71 | the duration passes exactly when it is an integer in [1, 120] |
| Validation.RiskChain | server/src/middleware/validation.js:72-74 | the risk level passes exactly when it is low, medium or high |
| Validation.StartChain | server/src/middleware/validation.js:75-84 | an absent start date passes; a given one must be ISO 8601 and not before the clock |
| Validation.EndChain | server/src/middleware/validation.js:85-94 | an absent end date passes; a given one must be ISO 8601 and, when a start date is given, after it |
| Validation.OpportunityCreateChains | server/src/middleware/validation.js:47-96 | the creation rules, with the minimum chain as corrected, report the errors of the nine chains, in the order they are listed |
| Validation.OpportunityCreateAccepts | server/src/middleware/validation.js:47-96 | the creation rules, with the minimum chain as corrected, pass exactly on the bodies that meet every range, length, membership and date condition together |
| Validation.OpportunityCreateAsWrittenChains | server/src/middleware/validation.js:47-96 | the creation rules as written report the errors of the same nine chains, in order, with the minimum compared against the raw target |
| Validation.EndDateStrictlyAfterStart | server/src/middleware/validation.js:85-94 | with both dates valid, the end date is refused exactly when it is not strictly after the start, so an equal date is refused |
| Validation.OpportunityCreateAsWrittenAdmitsMinimumAboveTarget | server/src/middleware/validation.js:60-65 | as written, a minimum of "1000000" passes against a target of "200000" |
| Validation.JoinVerdictOrder | server/src/middleware/validation.js:104-131 | the join checks run in a fixed order: not found, then not open, then below the minimum, with the message naming the minimum |
| Validation.JoinVerdictNumeric | server/src/middleware/validation.js:119-131 | for an open opportunity, a numeral amount is admitted exactly when it reaches the minimum and the new total is at most the target; a total equal to the target is admitted |
| Validation.PlainAmountConcatenates | server/src/middleware/validation.js:129 | as written, a total followed by a plain numeral string reads as at least ten times the total, so the comparison refuses once that exceeds the target |
| Validation.JoinVerdictAsWrittenRefusesFit | server/src/middleware/validation.js:124-131 | with 95,000 of 100,000 pledged, "5000" fits and the numeric chain admits it, but the chain as written refuses it |
| Validation.JoinVerdictAsWrittenOverfills | server/src/middleware/validation.js:124-131 | as written, the amount "+6000", which reads as 6000, is admitted to an open opportunity of any target and a minimum up to 6000 |
| Validation.SignedAmountConcatenates | server/src/middleware/validation.js:129 | the running total followed by a signed numeral string is not a number, so the ceiling comparison is false |
| Validation.JoinAccepted | server/src/middleware/validation.js:98-136 | with the ceiling as corrected, a join that passes names an open opportunity, a user id and a non-negative amount, and its new total is at most a numeric target |
| Validation.JoinAsWrittenAccepted | server/src/middleware/validation.js:98-136 | as written, a join that passes names an open opportunity, a user id and a non-negative amount, with no bound on its new total |
| Validation.OpeningNeedsStoredDates | server/src/middleware/validation.js:144-157 | opening is refused exactly when the stored row lacks a start or an end date; dates sent in the same request change nothing |
| Validation.UpdateIgnoresDates | server/src/middleware/validation.js:138-169 | the edit rules never read the request's dates |
| Validation.CompletionReturns | server/src/middleware/validation.js:176-185 | completing with a returns amount of 0 is refused, but completing with none passes |
| Validation.UpdatePostAccepts | server/src/middleware/validation.js:189-204 | an update passes exactly when its title (at most 100) and description (at most 2000) are non-empty, its type is one of the three, and its author is an integer |
| Validation.OpportunityExists | server/src/middleware/validation.js:206-222 | the id rule passes exactly when the id is an integer that names a row |
| Validation.UserExists | server/src/middleware/validation.js:224-240 | the user rule passes exactly when the id is an integer that names a user |
| Database.RestatusKeepsCommitted | server/src/routes/investments.js:205-212 | changing a participation's status moves no money: every opportunity's sum is unchanged |
| Database.PledgeKeepsTargets | server/src/routes/investments.js:131-139 | a pledge that fits its opportunity's target keeps every opportunity within its target |
| Database.CascadeKeepsTargets | server/src/database/migrations/004_create_investments.js:29 | deleting an opportunity with its participants keeps every other opportunity within its target |
| Database.CommittedCascade | server/src/database/migrations/004_create_investments.js:29 | removing one opportunity's participants leaves every other opportunity's sum unchanged |
| Database.CommittedOf | server/src/routes/investments.js:176-177 | the sum over an opportunity's own participants is its committed sum |
| Database.UserAdded | server/src/database/migrations/001_create_users.js:3-5 | a new user under the next id with an unused e-mail keeps ids as keys and e-mails unique |
| Database.UserReplaced | server/src/database/migrations/001_create_users.js:5 | rewriting a user under an e-mail no other user holds keeps e-mails unique |
| Database.ContributionAdded | server/src/database/migrations/003_create_contributions.js:2-17 | a well-formed contribution with a fresh reference under the next id keeps ids distinct and references unique |
| Database.ContributionReplaced | server/src/database/migrations/003_create_contributions.js:6 | rewriting a row in place, keeping its id and reference, keeps the table valid |
| Database.Db.InsertOpportunity | server/src/database/migrations/004_create_investments.js:2-18 | the row is added under the next id, and the schema constraints and the ledger are kept |
| Database.Db.ReplaceOpportunity | server/src/database/migrations/004_create_investments.js:2-18 | the row is rewritten in place; the ledger is kept when the target stays |
| Database.Db.DeleteOpportunity | server/src/database/migrations/004_create_investments.js:29-41 | the row goes, with exactly its participants and its updates, and the ledger is kept |
| Database.Db.InsertParticipant | server/src/database/migrations/004_create_investments.js:20-31 | the row is appended under the next id, and the ledger is kept when the pledge fits |
| Database.Db.RestatusParticipants | server/src/routes/investments.js:205-212 | the participants are restated and the ledger is kept |
| Database.Db.InsertUser | server/src/database/migrations/001_create_users.js:2-11 | the user is added under the next id and e-mails stay unique |
| Database.Db.ReplaceUser | server/src/database/migrations/001_create_users.js:2-11 | the user is rewritten in place and e-mails stay unique |
| Database.Db.ReplaceSettings | server/src/database/migrations/002_create_user_settings.js:2-10 | the settings table is replaced by rows with the same owners |
| Database.Db.InsertContribution | server/src/database/migrations/003_create_contributions.js:2-17 | the row is appended under the next id with its reference unique |
| Database.Db.ReplaceContribution | server/src/database/migrations/003_create_contributions.js:2-17 | one row is rewritten in place and the table stays valid |
| Database.Db.InsertUpdate | server/src/database/migrations/004_create_investments.js:33-43 | the update is appended under the next id, for an existing opportunity and author |
| Database.EmailHolder | server/src/routes/users.js:43 | the lookup finds the one user holding the e-mail, or reports that none does |
| Database.PathKey | server/src/routes/investments.js:90 | a path id selects the row whose key is the INTEGER its text converts to under the key's NUMERIC affinity: an integer literal names its value, and text that is no integral number names no row |
| Sql.NumericAffinity | server/src/routes/users.js:22-26 | NULL stays NULL; text that names an integral number ("1.0", "1e0", " 1 ", an integer literal) becomes that integer, and any other text stays text |
| Sql.IntegralTextForms | server/src/routes/users.js:22-26 | "1.0", "1e0" and " 1" each convert to the integer 1 |
| Sql.NonIntegralTextForms | server/src/routes/users.js:22-26 | "1.5" and "0x1" convert to no integer, so they stay text and meet no INTEGER key |
| Investments.Listing | server/src/routes/investments.js:9 | every opportunity is listed exactly once, newest `created_at` first |
| Investments.ListOpportunities | server/src/routes/investments.js:7-14 | every stored opportunity exactly once, and nothing else, newest first |
| Investments.GetOpportunity | server/src/routes/investments.js:17-24 | an integer id that names a row returns it with 200; any other id is refused by the rule |
| Investments.NewOpportunity | server/src/routes/investments.js:41-48 | no row without a creator, since `created_by` is NOT NULL; a stored opportunity is a draft under the new id and its creator, whatever the body says |
| Investments.AdmittedOpportunityStored | server/src/routes/investments.js:41-48 | a body the creation rules admit is stored with the amounts the rules read, its minimum between 5000 and its target |
| Investments.CreateAsWritten | server/src/routes/investments.js:27-55 | as written, the INSERT binds no creator and the NOT NULL column refuses the row: creation never succeeds, and a body the rules admit draws a 500 |
| Investments.Create | server/src/routes/investments.js:27-55 | refused bodies change nothing; an admitted one from an existing user is stored as a draft under the next id and returned with 201; the ledger is kept |
| Investments.CreateAdmitted | server/src/routes/investments.js:40-54 | behind the rules, the row is stored and returned, or a 500 leaves the table unchanged |
| Investments.KeepNumeric | server/src/routes/investments.js:77-80 | an omitted amount keeps the stored value, a numeral replaces it, and a NOT NULL column stays non-NULL |
| Investments.Edited | server/src/routes/investments.js:73-88 | every omitted field keeps its stored value, `updated_at` is refreshed, and the id and creator never change |
| Investments.EditNothing | server/src/routes/investments.js:73-88 | a body omitting every field leaves the row as it was but for `updated_at` |
| Investments.Update | server/src/routes/investments.js:58-98 | refused bodies change nothing; a missing row gives 404; otherwise exactly that row takes its edited value; the ledger is kept when the body omits the target |
| Investments.UpdateAdmitted | server/src/routes/investments.js:72-97 | behind the rules, the row is replaced by its edit or the table is unchanged |
| Investments.Delete | server/src/routes/investments.js:101-111 | an id naming no row is refused and nothing changes; otherwise exactly that row, its participants and its updates go, and the ledger is kept |
| Investments.ListParticipants | server/src/routes/investments.js:114-128 | for an existing opportunity, the reply is its participant list; otherwise the rule refuses the id |
| Investments.ParticipantList | server/src/routes/investments.js:116-124 | exactly the opportunity's participants, each joined row as often as the table holds it, with the user's name and e-mail, latest first |
| Investments.AdmittedPledgeFits | server/src/routes/investments.js:131-139 | under the corrected rules, an admitted join names an open opportunity and its amount fits that opportunity's target |
| Investments.Participate | server/src/routes/investments.js:131-145 | the handler as corrected: refused joins change nothing; an admitted one appends one pending row with the request's opportunity, user and amount; the ledger is kept |
| Investments.JoinAdmitted | server/src/routes/investments.js:134-144 | behind the rules, one row is appended, or an unknown user draws a 500; the ledger is kept when the pledge fits the target |
| Investments.ParticipateAsWritten | server/src/routes/investments.js:131-145 | the handler as written: refused joins change nothing; an admitted one appends one pending row with the request's opportunity, user and amount |
| Investments.ParticipateAsWrittenOverfills | server/src/routes/investments.js:131-145 | as written, with 95,000 of a 100,000 target pledged and a minimum of 5000, the join "+6000" is admitted and its row leaves the opportunity over its target; the corrected rules refuse it |
| Investments.UserParticipations | server/src/routes/investments.js:148-169 | for an existing user, the reply is that user's participation list; otherwise the rule refuses the id |
| Investments.ParticipationList | server/src/routes/investments.js:150-163 | exactly the user's rows, joined with their opportunities, latest `joined_at` first |
| Investments.PerformanceOf | server/src/routes/investments.js:174-188 | the count of participants, 0 when there are none; their sum, NULL when there are none; min, max, mean and the funding percentage as an exact ratio |
| Investments.GetPerformance | server/src/routes/investments.js:172-198 | an existing opportunity's performance with 200; otherwise the rule refuses the id |
| Investments.PerformanceCount | server/src/routes/investments.js:174-188 | an opportunity's group is empty exactly when no participant names it, and then it has no amount to sum |
| Investments.FundingAtMostFull | server/src/routes/investments.js:182 | while the ledger holds, an opportunity with a positive target has a funding percentage exactly when it has participants, and it is at most 100 |
| Investments.AdmittedStatusStored | server/src/routes/investments.js:201-211 | an admitted status change names a row by an integer id and stores the status as given |
| Investments.SetParticipationStatus | server/src/routes/investments.js:201-227 | status and returns amount are overwritten, an omitted amount with NULL; `completed_at` is set only on completion; a missing row gives 404; the ledger is kept |
| Investments.UpdateLog | server/src/routes/investments.js:232-241 | exactly the opportunity's updates, one row per update, with their authors' names, newest first |
| Investments.ListUpdates | server/src/routes/investments.js:230-246 | for an existing opportunity, the reply is its update log |
| Investments.NewUpdate | server/src/routes/investments.js:253-258 | the stored update carries the path's opportunity, its author and the time |
| Investments.AdmittedUpdateStored | server/src/routes/investments.js:249-258 | an update the rules admit is stored with its title, description and type as given |
| Investments.PostUpdate | server/src/routes/investments.js:249-274 | refused bodies change nothing; an admitted update is appended under the path's id and returned with its author's name, or an unknown opportunity or author draws a 500 |
| Investments.PostAdmitted | server/src/routes/investments.js:252-270 | behind the rules, one update is appended or nothing changes |
| Contributions.NewContribution | server/src/routes/contributions.js:65-71 | a stored contribution is pending with no validator, whatever the body says; it is refused exactly on a missing value, an unknown user or a reused reference |
| Contributions.Create | server/src/routes/contributions.js:55-79 | the new row is appended under the next id and returned with 201, or a 500 leaves the table unchanged |
| Contributions.AdmittedContributionStored | server/src/routes/contributions.js:65-71 | a body the contribution rules admit is stored with its amount, which is at least 5000 |
| Contributions.BelowFloorStored | server/src/routes/contributions.js:1-3 | the router skips the rules: 4999 draws an amount error, yet it is stored |
| Contributions.Restamped | server/src/routes/contributions.js:86-93 | the row takes the given status and validator whatever it held, and nothing else changes |
| Contributions.SetStatus | server/src/routes/contributions.js:82-103 | an unknown id changes nothing and gives 404; otherwise exactly that row is restamped, or a 500 leaves it |
| Contributions.AnyTransition | server/src/routes/contributions.js:86-93 | a row of any status takes any of the three statuses, and a missing validator clears it |
| Contributions.UserContributions | server/src/routes/contributions.js:21-33 | exactly the user's rows, each as often as it is stored, latest contribution date first; any id text that converts to no integer under the column's affinity selects nothing |
| Contributions.SummaryOf | server/src/routes/contributions.js:108-115 | the row count; validated and pending sums (rejected rows in neither), NULL only for an empty table; the mean of the validated amounts, NULL when none is validated |
| Contributions.StatusesPartition | server/src/routes/contributions.js:108-115 | the three status counts add up to the row count, and the three sums to the total |
| Contributions.Grouped | server/src/routes/contributions.js:125-134 | one row per distinct month of the validated contributions, each holding its group's count, sum and mean |
| Contributions.MonthlySummary | server/src/routes/contributions.js:123-140 | exactly the month groups, one row per month and no month twice, latest month first |
| Contributions.GroupedCounts | server/src/routes/contributions.js:125-134 | the month counts add up to the number of validated contributions |
| Contributions.GetSummary | server/src/routes/contributions.js:106-120 | 200 with the number of rows, the validated and pending sums (NULL only on an empty table), and an average exactly when a row is validated, equal to the validated sum over the validated count |
| Contributions.GetMonthly | server/src/routes/contributions.js:123-140 | 200 with rows that each summarise one month of the validated contributions, every such month present exactly once, latest first |
| Users.GetUser | server/src/routes/users.js:20-35 | an id whose text converts to the key of a user returns that user; any other id, including text that converts to no integer, gives 404 |
| Users.GetUserIntegralIds | server/src/routes/users.js:20-35 | "1.0", "1e0" and " 1" find the same user as "1", so user 1 is returned for "1.0" |
| Contributions.UserContributionsIntegralId | server/src/routes/contributions.js:21-33 | "1.0" lists exactly the contributions "1" lists |
| Users.NewUser | server/src/routes/users.js:48-52 | the stored user is active under the new id; it is refused exactly on a missing name or e-mail or an unknown role |
| Users.Create | server/src/routes/users.js:38-59 | a registered e-mail gives 400 and nothing changes; otherwise the user is added under the next id, or a 500 leaves the table unchanged |
| Users.Edited | server/src/routes/users.js:77-86 | every field that binds as NULL keeps its value, the others take the body's, and `updated_at` is refreshed |
| Users.Update | server/src/routes/users.js:62-96 | an e-mail held by another user gives 400; a missing user 404; otherwise exactly that user is rewritten, or a 500 leaves it |
| Users.OwnEmailAllowed | server/src/routes/users.js:67-75 | re-submitting one's own e-mail is not a conflict |
| Users.CheckedEmailIsFree | server/src/routes/users.js:67-86 | an e-mail that passed the check is held by no other user after the edit |
| Users.EmptyEditKeeps | server/src/routes/users.js:77-86 | an empty body leaves the user as it was but for `updated_at` |
| Users.EmptyEmailUnchecked | server/src/routes/users.js:67 | an empty e-mail skips the check and is stored |
| Users.ProfileAsWritten | server/src/routes/users.js:99-122 | as written, the validated sum is multiplied by the number of the user's participations |
| Users.Profile | server/src/routes/users.js:99-122 | the user, their distinct contribution and investment counts, and the sum of their validated contributions; 404 for an unknown user |
| Users.ProfileFanout | server/src/routes/users.js:101-111 | the as-written profile is the intended one, with the sum multiplied by the fan-out |
| Users.DoubledProfile | server/src/routes/users.js:104-109 | one validated 5000 and two participations give 10000 as written and 5000 as intended |
| Users.JoinedDistinct | server/src/routes/users.js:104-106 | the distinct counts over the joined rows are the user's contribution ids and investment ids |
| Users.Reset | server/src/routes/users.js:129-140 | the user's settings rows take both preference texts and the time, and the others stay |
| Users.PutSettings | server/src/routes/users.js:125-147 | no matching row: nothing changes and the reply has no row; an omitted preference: 500; otherwise the rows are reset and the first is returned |
| Users.SettingsRoundTrip | server/src/routes/users.js:136-142 | preferences sent as strings read back as the same strings |
| FilePolicy.ValidateFile | server/src/middleware/fileValidation.ts:25-66 | a file is accepted exactly when its type is in the purpose's list and its size is within the ceiling, recording its purpose, name, size and type; a wrong type names the allowed types; no file: 400 |
| FilePolicy.TypeMessages | server/src/middleware/fileValidation.ts:4-21 | the type message of each purpose lists that purpose's types, in table order |
| FilePolicy.AcceptedElsewhere | server/src/middleware/fileValidation.ts:31-38 | acceptance depends only on the type list and the ceiling |
| Upload.ValidTypes | server/src/routes/upload.ts:13-17 | the route lists, under each purpose's name, the same types as the middleware's table; an inherited property name is found but is no list |
| Upload.BlobStore.Put | server/src/routes/upload.ts:32-35 | a put is recorded, and the store gains the url it answers |
| Upload.BlobStore.Del | server/src/routes/upload.ts:70 | a delete is recorded, and the url goes only when the call succeeds |
| Upload.Inserted | server/src/routes/upload.ts:37-47 | the insert makes a row exactly when every NOT NULL value is bound and the id is new |
| Upload.RecordAsWrittenRefused | server/src/routes/upload.ts:37-47 | as written, the insert binds no `user_id` and is always refused |
| Upload.RecordStored | server/src/routes/upload.ts:37-47 | as intended, the insert stores the url, name, size, type, purpose and owner unless the url already has a row |
| Upload.Screen | server/src/routes/upload.ts:19-30 | before any call on the store: over the route's limit 500, missing file or purpose 400, inherited purpose 500, unlisted type 400; nothing is refused exactly when the route forwards the file |
| Upload.UploadFile | server/src/routes/upload.ts:19-59 | the handler with the insert as corrected: a request `Screen` refuses makes no call on either store; otherwise one put, then the row; a failed insert leaves the blob (500); the stores stay consistent |
| Upload.UploadFileAsWritten | server/src/routes/upload.ts:19-59 | the handler as written: every forwarded upload makes exactly one put and answers 500, with no row stored; a put that answers leaves its blob behind |
| Upload.DeleteFile | server/src/routes/upload.ts:61-78 | an unknown id gives 404 and no call; otherwise the blob is deleted first, and the row goes only when that succeeds |
| Upload.GetFile | server/src/routes/upload.ts:80-94 | the stored url of the id, or 404 |
| Upload.GetAfterUpload | server/src/routes/upload.ts:80-94 | a file just recorded is read back by its url |
| Upload.GetAfterDelete | server/src/routes/upload.ts:61-94 | a deleted file is no longer found |
| Upload.ForwardedPassesPolicy | server/src/routes/upload.ts:7-30 | any file the route forwards also passes the middleware's policy for its purpose |
| Migrate.NumberedName | server/src/database/migrate.js:13 | a file named digits, underscore, rest is numbered by the digits, leading zeros included |
| Migrate.SortedScripts | server/src/database/migrate.js:9-11 | a permutation of the `.js` files of the listing (each as often as listed, no other file), in code-point order |
| Migrate.MigrationFiles | server/src/database/migrate.js:6-17 | one migration per sorted `.js` file, position by position, each numbered by `parseInt` of the text before its first underscore and named by the file name without `.js`; every `.js` file is present, in code-point order |
| Migrate.ReadVersion | server/src/database/migrate.js:19-32 | the stored version, or 0 after creating the table seeded with 0 |
| Migrate.SetVersion | server/src/database/migrate.js:34-36 | every stored version row takes the new version |
| Migrate.PendingMembers | server/src/database/migrate.js:58-59 | the migrations that run are exactly those whose id exceeds the current version |
| Migrate.Migrate | server/src/database/migrate.js:38-82 | on success the pending migrations are applied in order and the version is the last one's; on failure the run is undone |
| Migrate.RunPending | server/src/database/migrate.js:55-75 | the loop applies each pending migration and sets the version after it; the first failure rolls back to the state at BEGIN |
| Migrate.FailingStops | server/src/database/migrate.js:57-74 | one failing pending migration fails the whole run |
| Migrate.RerunRunsNothing | server/src/database/migrate.js:58-63 | with increasing ids, the version reached is the last pending id, and a second run runs nothing |
| Migrate.RerunFromStore | server/src/database/migrate.js:19-63 | the version a committed run stores reads back as the version reached, so a second run applies nothing; an existing but empty version table reads 0 every time, and the same migrations run again |
| Migrate.UnpaddedNamesRerun | server/src/database/migrate.js:11-13 | files "9_a.js" and "10_b.js" sort as 10 before 9, so the version ends at 9 and migration 10 runs again every time |
| FileUploadWidget.ValidateFile | client/src/components/common/FileUpload.tsx:33-43 | a file is valid exactly when its type is listed and its size is within the limit; the type is checked first |
| FileUploadWidget.Selected | client/src/components/common/FileUpload.tsx:45-65 | only the first file of a selection counts, and only when it is valid |
| FileUploadWidget.OnlyFirstCounts | client/src/components/common/FileUpload.tsx:50-51 | the files after the first never change the pick |
| FileUploadWidget.DefaultsWithinServer | client/src/components/common/FileUpload.tsx:13-14 | a file valid under the defaults is forwarded by the route and accepted by the contribution policy |
| AddMemberModal.EmailPatternAt | client/src/components/modals/AddMemberModal.tsx:32 | the e-mail pattern holds exactly when some '@' and '.' delimit a shortest match |
| AddMemberModal.ValidateForm | client/src/components/modals/AddMemberModal.tsx:27-39 | a name or phone error exactly when it is blank; an e-mail error exactly when the pattern fails, "required" when blank; the form is valid exactly when no error was recorded |
| AddMemberModal.Submit | client/src/components/modals/AddMemberModal.tsx:41-48 | a valid form is handed on, emptied and closed; an invalid one keeps its data and stays open |
| AddMemberModal.ResubmitAfterReset | client/src/components/modals/AddMemberModal.tsx:45 | after a successful submit, a second one hands nothing on and reports all three fields |
| AddMemberModal.PatternExamples | client/src/components/modals/AddMemberModal.tsx:32 | "ada@club.ng" matches; "ada@club" and "ada@club .ng" do not |
| EditMemberModal.Prefill | client/src/components/modals/EditMemberModal.tsx:36-45 | a member fills the four fields and leaves the errors; no member leaves the form |
| EditMemberModal.Submit | client/src/components/modals/EditMemberModal.tsx:47-67 | the errors are always replaced; the member's id and data are handed on and the form closes only when it is valid and there is a member; the data never changes |
| EditMemberModal.PrefilledValidSubmits | client/src/components/modals/EditMemberModal.tsx:36-67 | a member whose fields pass is saved unchanged under its own id |
| EditMemberModal.SubmitKeepsData | client/src/components/modals/EditMemberModal.tsx:61-67 | a successful submit keeps the data, so it can be submitted again |
| EditMemberModal.SameRulesAsAdd | client/src/components/modals/EditMemberModal.tsx:47-59 | for the same data, the edit form reports the same errors as the add form and refuses exactly when it does |
| InvestmentParticipationModal.MinimumAmount | client/src/components/modals/InvestmentParticipationModal.tsx:33 | the number the display's digits spell, in order, or NaN when there are none |
| InvestmentParticipationModal.NairaDisplay | client/src/components/modals/InvestmentParticipationModal.tsx:33 | "₦100,000" reads as 100000 |
| InvestmentParticipationModal.DigitsOfConcat | client/src/components/modals/InvestmentParticipationModal.tsx:33 | stripping the non-digits of two pieces is stripping those of the whole |
| InvestmentParticipationModal.Initial | client/src/components/modals/InvestmentParticipationModal.tsx:35-39 | the form opens for the card's opportunity, at the minimum, with the terms unagreed |
| InvestmentParticipationModal.ApplyInput | client/src/components/modals/InvestmentParticipationModal.tsx:43-49 | a change event sets one field and keeps the others and the opportunity |
| InvestmentParticipationModal.InputsKeepInvestment | client/src/components/modals/InvestmentParticipationModal.tsx:43-49 | no run of change events moves the form to another opportunity |
| InvestmentParticipationModal.Submit | client/src/components/modals/InvestmentParticipationModal.tsx:51-75 | an amount below the minimum is refused first, then unagreed terms; a passing record is handed on, and the form closes unless the callback fails |
| InvestmentParticipationModal.SentIsForInvestment | client/src/components/modals/InvestmentParticipationModal.tsx:35-67 | a record handed on carries the card's opportunity, and a numeric amount is not below a numeric minimum |
| InvestmentParticipationModal.InitialAsksForTerms | client/src/components/modals/InvestmentParticipationModal.tsx:35-63 | the form as it opens passes the minimum and is refused for the terms |
| InvestmentParticipationModal.NoDigitsNoMinimum | client/src/components/modals/InvestmentParticipationModal.tsx:33-55 | a display without digits gives no minimum, so any amount passes the first check |
| InvestmentParticipationModal.ClearedAmountPasses | client/src/components/modals/InvestmentParticipationModal.tsx:47-55 | a cleared amount parses to NaN and is handed on |
| ContributionModal.Initial | client/src/components/modals/ContributionModal.tsx:27-31 | the form opens at 5000, with an empty reference, today's date and no file |
| ContributionModal.ApplyInput | client/src/components/modals/ContributionModal.tsx:36-42 | a change event sets its field, the amount parsed and the others verbatim, and keeps the rest |
| ContributionModal.FileChosen | client/src/components/modals/ContributionModal.tsx:44-53 | an empty selection changes nothing; a first file over 5 MB is refused and the earlier pick kept; any other first file is picked |
| ContributionModal.Submit | client/src/components/modals/ContributionModal.tsx:55-95 | the first failing check stops: below 5000, then an empty reference, then no file; a passing form hands on its fields with the placeholder proof url |
| ContributionModal.ProofNeverUploaded | client/src/components/modals/ContributionModal.tsx:77-86 | whatever file is picked, the record handed on carries the placeholder url |
| ContributionModal.InitialNeedsReference | client/src/components/modals/ContributionModal.tsx:27-67 | the form as it opens meets the minimum and is refused for its empty reference |
| ContributionModal.LargeFileKeepsPick | client/src/components/modals/ContributionModal.tsx:47-51 | a file over 5 MB never replaces an earlier pick |
| ContributionModal.ClientFloorMatchesServer | client/src/components/modals/ContributionModal.tsx:59-62 | for a whole amount, the client refuses exactly when the server's contribution rule reports an amount error |
| ContributionModal.ClearedAmountPasses | client/src/components/modals/ContributionModal.tsx:40-59 | a cleared amount parses to NaN and is handed on |
| ContributionModal.AnyTypeIsPicked | client/src/components/modals/ContributionModal.tsx:44-53 | the picker checks the size only, so a file of any type within 5 MB is picked |

## Left out

- Floating point: amounts, returns and durations are integers; `isFloat` fractions, `ROUND(..., 2)` and `AVG` are exact ratios (`Sql.Ratio`) and the two-place rounding is not modelled.
- `parseFloat` in the client forms: the parsed value is a parameter of the change event (a whole number or NaN).
- Lex.StrLe: strings compare in code-point order, which is SQLite's BINARY collation; JavaScript's `<` and default `sort` compare UTF-16 code units, and differ from it when a character above U+FFFF meets one in U+E000-U+FFFF at the first difference. Surrogate pairs are not modelled, since a Dafny `char` is a Unicode scalar value.
- Dates: ISO 8601 and date checks, date parsing and `strftime('%Y-%m', ...)` are oracles passed as parameters (`DateEnv`, `monthOf`); `datetime('now')` and the client's today are the parameters `now` and `today`.
- Browser constraint validation (`required`, `min`, `step`, `accept` on the inputs) and all rendering, `isSubmitting`, drag state and the toasts' display.
- The 404 branches of the delete and performance handlers (`server/src/routes/investments.js:105` and `:191`) that their rule makes unreachable; `Investments.Delete` and `Investments.GetPerformance` state the rule's refusal instead.
- Multer: the parsing of multipart bodies, and its error for a file over the route's 5 MB, which the app's error handler (`server/src/index.ts:27-30`) turns into a 500; `Upload.Screen` states that 500.
- Blob contents, the `access` and `token` options of the put, and the `del` timeout; the object store is a set of urls with a call log.
- Upload.UploadFileAsWritten: the put of `server/src/routes/upload.ts:32-35` passes the buffer where the object store expects the pathname and no body; whether the store then answers or throws is the parameter `answer`, so the orphaned blob of the Findings row arises only when the put answers.
- Foreign keys on the `files` table: the connection of `server/src/lib/db.ts` does not enable them, so `user_id` is not checked against users.
- Logging and `process.exit(1)` in the migration runner; the directory listing and each script's `up` are parameters (the file names, and the set of scripts that throw).
- `users.profile_picture_url`, `contributions.validation_date` and `contributions.rejection_reason`: no modelled route writes them.
- Concurrency: every request runs alone, so the race between the join rule's read and the handler's insert is not modelled.
- `GET /` and `GET /:id` of the contribution router, and `GET /` and `GET /:id/stats` of the user router: the first three are plain listings not among the modelled operations, and `stats` depends on the clock's 12-month window (`server/src/routes/users.js:158-163`).
- `userSettingsValidation` and `supportValidation` (`server/src/middleware/validation.js:243-277`): no modelled route uses them.
- `server/src/routes/investments.ts` is not part of this model: it is a superseded draft that the server does not mount.
- Upload.ValidTypes: an inherited property name ("constructor", "toString", ...) is modelled as a fixed list of `Object.prototype` names.
- Validation.TextLength: the length counts code points less the emoji presentation selectors; other grapheme rules of the validator library are not modelled.
- JsValues.StringToNumber: only integer literals are numeric strings; fractions, exponents and hexadecimal strings read as NaN.
- Database.PathKey: the text of a key is read as an exact decimal. SQLite reads it as a double, so text that is integral only after rounding (more than about 15 significant digits) and values outside 64 bits are not modelled.
- FileUploadWidget.ValidateFile: `maxSizeMB` is a whole number of megabytes. A fractional limit such as 0.5, and the fractional number its message would then print, are not modelled.

## Findings

| source | as written | input that shows it | evidently intended | confidence | as-written member | corrected member |
|---|---|---|---|---|---|---|
| server/src/routes/investments.js:41-48 | the INSERT omits `created_by`, which is NOT NULL without a default (`server/src/database/migrations/004_create_investments.js:14`), so every create the rules admit fails with 500 | any body the creation rules admit | store the creating user's id | not executed | Investments.CreateAsWritten | Investments.Create |
| server/src/routes/upload.ts:37-47 | seven placeholders and six values: the url lands in `id`, every later value one column early, and `user_id` binds NULL, so the reply is always 500: if the put answers, the insert fails after it and the blob is orphaned (`Upload.RecordAsWrittenRefused`) | any file and purpose the route forwards | bind the url as `id`, then the url again (`Upload.RecordStored`) | not executed | Upload.UploadFileAsWritten | Upload.UploadFile |
| server/src/middleware/validation.js:129 | `total + amount` concatenates a string amount, so the sum is not a number and the ceiling check passes (`Validation.JoinVerdictAsWrittenOverfills`); the participant handler then stores a pledge over the target. The same concatenation refuses a plain amount that fits: "5000" with 95,000 of 100,000 pledged compares "950005000" with the target (`Validation.JoinVerdictAsWrittenRefusesFit`) | amount "+6000" to an open opportunity with 95,000 of a 100,000 target pledged | compare `total + Number(amount)` with the target (`Validation.JoinVerdictNumeric`) | not executed | Investments.ParticipateAsWrittenOverfills | Investments.Participate |
| server/src/middleware/validation.js:59-65 | the minimum is compared with the raw target, so two strings compare in code-point order | minimum "1000000" with target "200000" | compare the two amounts as numbers | not executed | Validation.OpportunityCreateAsWrittenAdmitsMinimumAboveTarget | Validation.MinimumChainAccepts |
| server/src/routes/users.js:101-111 | both LEFT JOINs fan out, so the validated sum is counted once per participation of the user | one validated contribution of 5000 and two participations give 10000 | sum each validated contribution once | not executed | Users.DoubledProfile | Users.Profile |
