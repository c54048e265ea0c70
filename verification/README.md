# XuiFactor: a verified model of the factoring sidecar

XuiFactor multiplies traffic counters that another program, the 3x-ui panel,
keeps incrementing. This project models it as one state machine over the
panel's `client_traffics` rows and the sidecar's own tables (rules, rule
clients, scopes, excludes, overrides, events) and proves what its accounting
promises over every run: bytes are charged once, exactly, and only when they
may be.

`dafny verify dfyconfig.toml` checks everything.

## How the model is laid out

| part | modules |
|---|---|
| shared vocabulary | `Collections` (orders, listings), `Text` (decimal text), `Model` (the tables as a value `Db`, with single-statement updates) |
| arithmetic | `Factor` (factor text), `Accounting` (delta, fixed-point extra and remainder, 64-bit bounds, the meter of one row) |
| decision | `Decisions`, `ClientView`, `Verdicts` (every row's decision told from the tables), `Views` (the view of a client likewise) |
| policies by email | `PolicyTable`, `Repairs` |
| reconcile | `Reconciling` (what it computes), `Merging` (every rule's outcome, field by field), `Tallies` (the report), `ReconcileProofs`, `ReconcileTheorems`, `ReconcilePreview` |
| tick | `Ticking` (what it computes), `Enrolment` (whom it enrols), `Charges` (what it does to every counter and account), `Resets` (who starts afresh), `EnrolProofs`, `TickProofs` |
| operator commands | `Commands` (what they compute), `Selectors` (when each succeeds, on whom, and the tables after), `BulkEffects` and `Enabling` (enable-all), `Resumption` (resume and resume-all), `CommandProofs`, `BulkProofs`, `Resuming`, `Effects` |
| cleanup | `Cleanup`, `Sweeps` (what it keeps and counts, field by field) |
| audit trail | `Audit`, `AuditTrail` |
| the code in place | `Store` (class `Tx`, the tables as fields), `Engine`, `Operators`, `Daemon`, `Janitor`: statements and loops on a transaction, each proved equal to the function of the tables that it computes |
| whole runs | `Machine` (steps, ledgers, runs), `MachineProofs`, `Ledgers`, `Earnings`, `Quiescence`, `Unambiguous`, `Ownership`, `Effective`, `Schedule`, `Rest`, `Commits`, `Conservation`, `Accounts`, `Limits` |
| adoption | `Twins`, `TwinTicks`, `Adoption`: two sets of tables that differ in who holds one row, step by step |

The functions that say what an operation computes are tied to the tables by
results that name none of them: each says, by the fields of the tables before
and after, when the operation succeeds, which rows and rules it selects, and
what becomes of each. They stand first for their operation in the table
below.

Every operation appears twice: as a function from tables to tables, about
which the theorems are proved, and as methods on a `Tx` whose fields change
statement by statement and loop by loop in the order of the Go code. A
command's or tick's method ends with the tables of its function, or with its
error and the tables it started from.

## The machine and its assumptions

A step is something the panel does to its rows (`AddBytes`, `Lower`,
`Rename`, `Delete`, `Create`, `Edit`, `Attach`), an operator's command, or a
tick. Ledgers beside the tables record, per row and direction, the bytes the
panel added, those since the row was last factored, those that arrived while
no exclude named the row, those of them that may still be charged, and those
that a factor was applied to. A factoring is recorded whether or not it adds
a whole byte: one that only carries a fraction counts too
(`Ledgers.RecordedIsApplied`, `Ledgers.UnrecordedIsNotFactored`).
Assumptions on the environment are explicit:

- the panel keeps emails unique in `client_traffics`, keeps counters within
  int64, and does not give a new row an id that a recorded client still
  carries (`Machine.Possible`);
- the clock is positive (`Machine.Timed`);
- a transaction is atomic: it commits whole or changes nothing; a row locked
  by another writer, a lost compare-and-swap and the panel's role are inputs
  of a tick (`Ticking.TickEnv`).

Three further conditions appear only where the code needs them. Each is
stated exactly for the step that may break it, and each has a concrete case
in `Limits`:

- **two active single-user rules can land on one row.** Relinking checks only
  the same rule for a collision (internal/store/membership.go:79-82), so a
  client that is recreated and enabled again before a reconcile ends with two
  owners. `ReconcileTheorems.OneOwnerExactly` gives the exact condition
  (`Settles`), and `Ownership.ClashIsRefused` shows the tick refusing the
  result.
- **resume-all does not refresh a strayed client.** The code resumes a scope
  even when a client's row now has another email, and leaves that client's
  baseline alone (internal/engine/bulk.go:377-384,
  internal/store/bulk.go:84-91). The client is not charged while its row has
  the other email, and the next tick that can write the row marks it missing
  (`Earnings.TickClearsStrays`). Only where the row takes the client's email
  back before that tick do bytes of the pause get factored, against
  docs/OPERATIONS.md (`Limits.PauseBytesFactored`), and where another rule
  factored the row meanwhile, twice (`Limits.StrayedResumeChargesTwice`).
  `Ledgers.ResumeAllHonestExactly` is the step's exact condition for no
  double charge.
- **a rename can match an old baseline again.** Besides the case above, an
  exclude protects a row only under its name
  (`Limits.RenamesUnmaskExcludedBytes`). `Earnings.RenameEarnsExactly` is the
  exact condition on a rename; renames to a name that no live client of the
  row is recorded under always meet it (`Earnings.PlainRenamesBacked`).

## Model

| member | source | states |
|---|---|---|
| Factor.ParseFactorExact | internal/engine/factor.go:13-53 | a text is accepted exactly when it denotes a number of millionths from 1000000 to MaxInt64, and that exact number is the result |
| Factor.WrapIsRejected | internal/engine/factor.go:49-52 | the sum of whole and fractional millionths can pass MaxInt64 only at the largest whole part, and then the wrapped sum is negative, hence refused |
| Factor.FactorRoundTrip | internal/engine/factor.go:55-63 | every stored factor up to MaxInt64, shown and parsed again, is itself |
| Accounting.CalculateExtra | internal/daemon/tick.go:466-481 | the extra and the carried remainder are the exact quotient and remainder by a million of delta times factor share plus the old remainder |
| Accounting.ChargeFor | internal/daemon/tick.go:333-402 | a charge never takes a counter past MaxInt64 |
| Accounting.BalancedStep | internal/daemon/tick.go:343-427 | bytes arriving, a committed tick and a skipped one all keep, per direction, a million times the extra plus the remainder equal to the factor's share of the bytes seen |
| Accounting.BalancedRun | internal/daemon/tick.go:343-427 | the same over any interleaving |
| Accounting.ScheduleIndependent | internal/daemon/tick.go:343-427 | once a tick has seen every byte the counter is start plus raw plus the floor of the factor's share, wherever the ticks fell |
| Accounting.SameBytesSameCounters | internal/daemon/tick.go:343-427 | two schedules with the same bytes end at the same counters and remainders |
| Decisions.AmbiguousExactly | internal/policy/decision.go:253-255 | a group is refused exactly when two positions share its top precedence |
| Decisions.WinnerIsTop | internal/policy/decision.go:243-276 | the winner is the one candidate of top precedence |
| Verdicts.RankedExactly | internal/policy/decision.go:142-343 | on tables a tick decides, a rule is effective on a row at a factor exactly when no active exclude names a client of the row, and it is the last rule of the email that the active override there names, at the override's factor, or, without one, the owner that stands above every other (single-user rule, scope of one inbound, snapshot, scope of all inbounds), at its own |
| Verdicts.DecidedExactly | internal/policy/decision.go:219-255 | a tick decides exactly when on no row two excludes rule, or two overrides where no exclude does, or two foremost owners where neither does |
| Decisions.MatchedExactly | internal/policy/decision.go:257-276 | the matched list of a decision reports every candidate of its group, higher precedence first |
| Decisions.EveryTargetOnce | internal/policy/decision.go:257-296 | winner target and suppressed list name every (rule, traffic) target of the group exactly once |
| Decisions.DecideOrderFree | internal/policy/decision.go:219-296 | permuting candidates with distinct (source, rule id) changes no decision |
| Decisions.DecideRefusesTies | internal/policy/decision.go:219-255 | the batch is refused exactly when some group ties at its top |
| Decisions.DecidePerTraffic | internal/policy/decision.go:219-240 | one decision per traffic id, in ascending order, each the decision of its own group |
| Views.ViewExactly | internal/engine/effective.go:167-249 | a client's view is refused exactly when the clients shown on its row tie, and otherwise names a rule and factor exactly when, with no clients but those, that rule rules there; shown are present clients under the row's email, on an enabled row or of a scope that takes disabled ones |
| Views.ViewIsTheTicks | internal/engine/effective.go:214-249 | where every active rule's client on the row is shown, the view is the very decision of the tick |
| Views.ViewWithoutClients | internal/policy/decision.go:79-140 | where the row shows no client, the view is excluded when an active exclude names the row under its email, else overridden at the factor of an active override that does, else without a source |
| ClientView.ViewAgreesWithTick | internal/engine/effective.go:214-249 | for a row whose targets are all valid the per-client decision is the row's batch decision, and has no target where the batch has none |
| ClientView.EffectiveIsTheTicks | internal/engine/effective.go:214-225 | the same on the tables: the view shown is the decision the tick takes |
| Repairs.PoliciesRepaired | internal/engine/reconcile.go:89-169 | with one row per email, a reconcile moves exactly the active policy rows whose client lives, attached to the inbound of the filter if there is one, on another row or inbound than recorded, to that row and inbound; every other row is as it was |
| Repairs.RepairsReported | internal/engine/reconcile.go:89-158 | the report counts, real or dry, exactly those rows |
| PolicyTable.PoliciesFollowEmail | internal/engine/reconcile.go:89-169 | after an unfiltered repair, in any listing order and with any occupants, an email with a live row has an active policy exactly when it had one, it is the only one, and it names the live row and inbound |
| PolicyTable.NothingStale | internal/engine/reconcile.go:99-156 | once repaired, a second run finds nothing to repair |
| Selectors.UpsertExactly | internal/store/overrides.go:11-108 | on any table an upsert makes a row where the email has none, and else takes over the client's newest active one, else its newest, else the email's newest, unless another row has the very client, inbound and email, when it is refused |
| PolicyTable.UpsertOne | internal/store/overrides.go:11-43 | with one row per email an upsert succeeds, keeps it so, and leaves that row active on the client at the given factor |
| PolicyTable.FollowAllKeepsNamed | internal/store/excludes.go:45-76 | no relink, whatever the filter, takes an active policy away from a live client it names |
| Engine.SeatedIsAdopted | internal/engine/reconcile.go:339-367 | inside reconcile the adoption that follows a match never refuses |
| Merging.ReconcileExactly | internal/engine/reconcile.go:171-367 | field by field: a listed rule whose client stands on a row ends merged exactly when some active scope that takes new clients has its factor and lets the row pass - its email attached to the scope's inbound, a limit where the scope asks for one, enabled unless the scope takes disabled ones - and no other active scope owns the row at the rule's turn; else orphaned exactly when the row is disabled or owned by a scope; else as it was, its account in place. Owners at a turn are told from the starting tables. The first rule a scope takes on a row hands it its account. A rule that stands nowhere is orphaned, an unlisted one untouched |
| Merging.RunExactly | internal/engine/reconcile.go:61-77 | the same of a run over any listed single-user rules |
| Merging.StandsExactly | internal/store/membership.go:47-63 | where a rule's client is found: on its row under the row's email, or, its row gone, on the first row of its email |
| Tallies.ReportIsTrue | internal/engine/reconcile.go:49-85 | every count of a real reconcile's report is the sum over the listed rules of how each ended and where it stood |
| Tallies.DryReportIsTrue | internal/engine/reconcile.go:171-290 | a dry run changes nothing and counts each listed rule by what a turn on the tables as they are would make of it, one whose client is to be moved or revived as that alone |
| ReconcileTheorems.RulesOutcome | internal/engine/reconcile.go:61-77 | which rules survive the run, where their clients sit and which rows scopes own, all told from the tables before the run |
| ReconcileTheorems.OneOwnerExactly | internal/engine/reconcile.go:187-284 | unfiltered reconcile leaves one owner per row exactly when contested rows are settled by a scope admitting a rule no later than the first |
| ReconcileTheorems.ReconcileKeepsOneOwner | internal/engine/reconcile.go:187-284 | one owner per row survives a filtered or unfiltered run whose listed rules are settled and apart from the others |
| ReconcileTheorems.OwnedRowEndsRule | internal/engine/reconcile.go:187-284 | a rule whose client resolves to a row a scope owns, by relink or not, ends merged or orphaned |
| ReconcileTheorems.ReconcileFixpoint | internal/engine/reconcile.go:49-85 | a second unfiltered run changes nothing and reports nothing exactly when, before the first, no scope admits a later rule of a free row without admitting one no later than the earlier (`Rested`); exactly then every active single-user rule ends calm: present on an enabled row of its email that no scope owns or admits |
| ReconcilePreview.DryRunIsFaithful | internal/engine/reconcile.go:49-158 | the dry run leaves the tables alone and reports the same rules checked and policies repaired, and the same rules reconciled exactly when no quiet rule is disturbed by an earlier adoption on its row |
| ReconcilePreview.ApartNotDisturbed | internal/engine/reconcile.go:187-290 | rules resolving to different rows are never disturbed |
| ReconcilePreview.ReconcileKeeps | internal/engine/reconcile.go:171-290 | reconcile changes no counter, keeps references valid, and leaves every live baseline at its counters or inherited |
| Enrolment.EnrolsExactly | internal/daemon/tick.go:228-302 | after an enrolment a rule owns a row exactly when it did, or no active rule owned it and the rule is the first, by id, of the active scopes taking new clients whose filter the row passes: an email, enabled or disabled ones taken, a limit where asked for, attached to the inbound if one is named; that scope's client starts afresh from the row |
| Enrolment.PreparedEnrols | internal/daemon/tick.go:100-116 | on the tables a tick decides on, a row has an owner exactly when the reconcile left it one or a scope of the start wants it |
| Enrolment.NewRowIsEnrolled | internal/daemon/tick.go:283-291 | a free row that no single-user rule resolves to is under its first wanting scope at the very next tick |
| EnrolProofs.EnrolKeeps | internal/daemon/tick.go:228-302 | what enrolment adds are clients at their counters on rows without another owner |
| TickProofs.TargetsExactly | internal/store/tick.go:10-79 | the listed targets are exactly the active rules' clients as they stand |
| Charges.SettleExactly | internal/daemon/tick.go:343-427 | a row is settled exactly when its client was missing, or no counter or baseline is negative and a counter fell or the factored bytes fit int64; it then has the bytes added that the factor gives for the bytes seen and the fraction carried, and the account stands there with the new fraction, or with none after a drop, a return, or at factor one |
| Charges.CommitsExactly | internal/daemon/tick.go:116-171 | the charging commits exactly when every ruling client of its row's email, on a row not locked, can be settled, and no other writer changes counters it would write |
| Charges.RowsExactly | internal/daemon/tick.go:139-166 | after a commit such a row and its ruler's account are settled at the ruling factor, and no other counter changed |
| Charges.ClientsExactly | internal/daemon/tick.go:139-192 | any other active client is deferred where it rules on a locked row, else marked missing, once, where its row is gone or has another email, else afresh |
| Charges.TickExactly | internal/daemon/tick.go:85-171 | a tick commits exactly where the panel's role allows it, no row is tied once reconciled and enrolled, and every ruling client can be charged |
| Accounts.TicksOfRunsExactly | internal/daemon/tick.go:85-171 | so does every tick of every run from an empty store |
| Accounts.RunSane | internal/daemon/tick.go:343-427 | over every run fractions stay proper and no factor of a rule or override falls below one |
| Resets.DropStartsAfresh | internal/daemon/tick.go:343-353 | where a counter fell or the client had been missing, a committed tick leaves the effective client at the counters with both remainders zero, and the counters as they were |
| Resets.SuppressedStartsAfresh | internal/daemon/tick.go:173-192 | so it leaves every suppressed client on its own row |
| Resets.DropIsForgotten | internal/daemon/tick.go:443-452 | from the tick that saw a drop the row is metered as opened: counter equal to the lowered start plus the factored bytes since, remainder that product modulo a million |
| TickProofs.TickSettlesAll | internal/daemon/tick.go:116-192 | after a committed tick every active client is marked missing, stands at the counters of its own row, or was deferred as the winner |
| Commits.TickCommitsExactly | internal/daemon/tick.go:116-171 | the charging phase commits exactly when every decision's winner is, on the tables it starts from, chargeable without overflow, bad counter or lost race |
| Commits.CommittedSpares | internal/daemon/tick.go:139-192 | a committed tick does not touch a client of a rule that is not active |
| TickProofs.ChangedRowsAreCharged | internal/daemon/tick.go:312-428 | a row whose counters changed was charged for its decision's winner, present and of the row's email, at the decision's factor |
| Selectors.FindClientExactly | internal/store/rules.go:13-47 | a client is found exactly when one row has the email, attached to the inbound if one is named; none and several are told apart |
| Selectors.EnableExactly | internal/engine/engine.go:55-119 | enabling succeeds exactly for an only match whose row no active rule owns; one new rule of the factor, with a fresh client, is all that changes |
| Selectors.PauseExactly | internal/engine/engine.go:125-199 | pausing succeeds exactly when one active rule has the email and inbound, and exactly that rule is paused |
| Selectors.DisableExactly | internal/engine/engine.go:121-199 | disabling exactly when one active or paused rule does, and exactly that one is disabled, with the time |
| Selectors.PauseAllExactly | internal/engine/bulk.go:348-444 | pause-all pauses exactly the active rules within the inbound |
| Selectors.DisableAllExactly | internal/engine/bulk.go:344-444 | disable-all disables exactly the active and paused ones |
| Selectors.ExcludeExactly | internal/engine/excludes.go:28-62 | with one exclude per email, exclude succeeds exactly for an only match, and leaves that email's one exclude active on its row and inbound |
| Selectors.UnexcludeExactly | internal/engine/excludes.go:64-102 | unexclude succeeds exactly for an only match whose email has an active exclude, and disables exactly the one in force |
| Selectors.OverrideExactly | internal/engine/overrides.go:29-78 | the same of an override, at the factor given |
| Selectors.RemoveOverrideExactly | internal/engine/overrides.go:80-118 | and of its removal |
| Resumption.ResumeBringsBack | internal/engine/engine.go:129-160 | resuming succeeds exactly when one paused rule is selected, no other active rule has a client on its rows and some client of it is on a row of its email; then exactly that rule is active again |
| Resumption.ResumeAllBringsBack | internal/engine/bulk.go:352-397 | resume-all fails exactly when no paused rule is within the filter; such a rule comes back exactly when no active rule, and none listed earlier that came back, has a client on its rows, and it is a scope or has a client on a row of the client's email; every other rule is as it was |
| Resets.ResumeAllStartsAfresh | internal/engine/bulk.go:377-384 | the clients, on rows of their email, of the rules brought back start afresh, and no other client changes |
| Resets.ResumeStartsAfresh | internal/engine/engine.go:142-152 | so for the one rule resumed |
| Resets.UnexcludeStartsAfresh | internal/engine/excludes.go:83-97 | exactly the active rules' clients of the row found start afresh |
| Resets.OverrideStartsAfresh | internal/engine/overrides.go:60-76 | so after an override |
| Resets.RemoveOverrideStartsAfresh | internal/engine/overrides.go:100-116 | and after its removal |
| Enabling.EnableAllTakes | internal/engine/bulk.go:165-285 | enable-all succeeds exactly when some client matches its filter and no matching row that the scope lacks is under two active or paused rules; the scope is the first active one of that factor and filter, or a new one; every matching row under no active or paused rule is then owned by it afresh, and that of one adoptable rule - active, of the factor, its one client present on its own row - has come over with its account, the rule merged |
| Enabling.EnablesExactly | internal/engine/bulk.go:218-285 | before its closing reconcile: every matching row that the scope has stays, an untaken one is taken afresh, an adoptable rule's comes over, and any other is left to its rule, whose client is marked missing, once, where only its absence kept it from coming over |
| Enabling.SnapshotTakes | internal/engine/bulk.go:96-163 | the snapshot succeeds exactly when some client matches and no matching row is under two such rules; it makes one rule of that factor and filter, taken once, whose clients are exactly the matching rows under none, afresh, and changes nothing else |
| CommandProofs.EnableKeeps | internal/engine/engine.go:73-79 | enabling keeps one owner per row and honest baselines |
| CommandProofs.ResumeKeeps | internal/engine/engine.go:142-152 | so does resuming one rule |
| CommandProofs.ResumeAllKeeps | internal/engine/bulk.go:352-397 | so does resuming all, for clients of their row's email, and for all clients where no strayed one is behind its row |
| CommandProofs.UnexcludeKeeps | internal/engine/excludes.go:75-97 | after unexclude the row's live clients stand at the counters and no other client loses its exclude |
| CommandProofs.OverrideKeeps | internal/engine/overrides.go:45-76 | after override the row's live clients stand at the counters |
| CommandProofs.RemoveOverrideKeeps | internal/engine/overrides.go:91-116 | after its removal too |
| BulkProofs.EnableAllKeeps | internal/engine/bulk.go:51-342 | enable-all keeps tables valid, baselines honest, excludes in place and, unless its reconcile clashes, one owner per row |
| Effects.EnableOwns | internal/engine/engine.go:67-113 | the client found, owned by nobody, comes under a new active rule of the factor given, from its row's counters |
| Effects.TransitionStopsOne | internal/engine/engine.go:162-199 | exactly the one selected rule changes state, and no client changes |
| Effects.BulkTransitionMovesAll | internal/engine/bulk.go:406-444 | exactly the selected rules reach the state |
| Effects.ExcludeTakesEffect | internal/engine/excludes.go:28-62 | the client's row is under an active exclude afterwards |
| Effects.UnexcludeTakesEffect | internal/engine/excludes.go:64-102 | with one exclude per email, no active exclude names the row afterwards |
| Effects.OverrideTakesEffect | internal/engine/overrides.go:29-78 | an active override of the factor given names the row afterwards |
| Effects.RemoveOverrideTakesEffect | internal/engine/overrides.go:80-118 | with one override per email, none names the row afterwards |
| Effective.EffectiveExactly | internal/policy/decision.go:142-296 | on decided tables, for the only active rule of a row: the tick's effective factor is f exactly when no exclude names the client and an override of factor f does, or no override does and the rule's factor is f; there is none exactly when an exclude names it |
| Resuming.ResumeAllExactly | internal/engine/bulk.go:366-394 | a rule that resume-all brought back has all its present clients at their rows' counters exactly when no client of it sits unmarked, and behind, on a row of another email |
| Resuming.ResumeStartsFromCounters | internal/engine/engine.go:142-152 | a rule resumed alone always does |
| Sweeps.CleanExactly | internal/store/cleanup.go:87-409 | a cleanup is refused exactly for times that are not positive; it removes exactly the rules disabled, merged or orphaned, and the inactive policies, that have been so for the retention time, the clients missing for the grace time, the clients of those rules, and the events past the audit time; a client whose row is gone or renamed is marked missing now, and all else is as it was |
| Sweeps.CountsExactly | internal/store/cleanup.go:87-142 | its counts, real or dry, are the numbers of those rows |
| Cleanup.CleanupDryRunTellsTheTruth | internal/store/cleanup.go:87-142 | the dry run changes nothing and counts exactly what the real run marks and removes |
| Cleanup.CleanupKeepsTheRest | internal/store/cleanup.go:87-409 | exactly which rules, scopes, clients and policies remain, and in what state |
| Cleanup.EventsByAge | internal/store/cleanup.go:389-409 | of the events on record exactly those younger than the audit cutoff stay |
| Cleanup.CleanedSound | internal/store/cleanup.go:243-307 | remaining clients and scopes refer to remaining rules, and every active policy stays |
| Audit.MessageReadsBack | internal/store/rules.go:470-486 | reading a printed traffic_apply message gives back the bytes applied, capped; an email that is itself an extra field adds to them or spoils them |
| AuditTrail.TrafficImpact | internal/store/rules.go:398-419 | the loop over the listed events: how many, the time of the latest, and, on readable events, their total capped at int64 |
| AuditTrail.ImpactIsTotal | internal/store/rules.go:398-426 | whatever the order of the events |
| Conservation.CommittedRecorded | internal/daemon/tick.go:404-427 | a committed tick records exactly the bytes it added to counters |
| Conservation.TrailConserves | internal/daemon/tick.go:404-427 | over every run that prunes no events, so does the run |
| Conservation.ImpactIsAdded | internal/store/rules.go:398-486 | from an empty trail the reported impact is what all ticks added, capped at int64 |
| MachineProofs.CommandKeeps | internal/engine/bulk.go:51-455 | every command keeps tables valid and baselines honest, releases no exclude but its own, and settles the row of a policy command |
| Ledgers.RecordedIsApplied | internal/daemon/tick.go:343-427 | on a recorded row the decided factor was applied, to the byte and the carried fraction, to exactly the bytes recorded |
| Ledgers.UnrecordedIsNotFactored | internal/daemon/tick.go:312-428 | on a row that is not recorded no counter changes and no active client's fraction grows: it is kept or dropped (`Resets` and `Charges` say which) |
| Ledgers.ResumeAllHonestExactly | internal/engine/bulk.go:366-394 | resume-all leaves no live client owing more than arrived since its row was last factored exactly when no strayed client it brings back does |
| Ledgers.HonestRun | internal/daemon/tick.go:85-192 | from any moment on, what is charged and may still be charged grows by no more than what the panel adds |
| Ledgers.NoDoubleCharge | internal/daemon/tick.go:85-192 | over every run, renames included, in which resume-all meets that condition, no factor is applied to a byte twice, not even for a fraction: the bytes charged on a row never exceed the bytes the panel added to it, and no live client can be charged for more than arrived since the row was last factored |
| Earnings.RenameEarnsExactly | internal/daemon/tick.go:329-342 | a rename leaves every unexcluded client owing only allowed bytes exactly when an exclude names the row under the new name, or the live clients it matches again owe no more than those |
| Earnings.PlainRenamesBacked | internal/daemon/tick.go:329-342 | runs whose renames match no live client again meet that condition, on the tables alone |
| Earnings.TickClearsStrays | internal/daemon/tick.go:116-192 | after a committed tick that could write a row no rename of it matches an old client again |
| Earnings.EveryChargeIsEarned | internal/daemon/tick.go:139-192 | over every run whose renames meet that condition, whatever is resumed, only bytes that arrived while no exclude named the row are ever charged |
| Earnings.RestartDrawsLine | internal/engine/bulk.go:366-394 | in such runs, after a resume, resume-all, unexclude, override or remove-override, what is charged on its rows is no more than what arrives from then on: no byte of a pause is factored |
| Ledgers.ExcludedRefused | internal/policy/decision.go:142-175 | a row whose active client an active exclude names is never charged |
| Quiescence.LedgersOpen | internal/engine/engine.go:96-106 | ledgers may start on any tables without a client behind its row, an installation among them |
| Quiescence.TickPays | internal/daemon/tick.go:116-192 | a tick that deferred no winner leaves no live client behind its row |
| Quiescence.TickIsIdempotent | internal/daemon/tick.go:85-171 | a second tick after it changes no counter |
| Quiescence.PaidStaysStill | internal/daemon/tick.go:85-171 | nor does any run of commands and ticks until the panel acts, where resume-all brings back no strayed client behind its row |
| Unambiguous.OwnedTablesDecide | internal/policy/decision.go:253-255 | with one active rule per row and one policy row per email every candidate list of a tick is decided |
| Ownership.NeverAmbiguous | internal/daemon/tick.go:116-138 | from an empty store, over every run whose reconciles do not clash, one active rule per row and one policy row per email are kept and no tick is refused for ambiguity |
| Ownership.EmptyStoreIsTidy | internal/store/migrations.go:9-80 | the store as migrated, beside any panel rows, is where those runs may start |
| Ownership.TickNotAmbiguous | internal/daemon/tick.go:85-171 | all the reasons such a tick can still fail for |
| Ownership.ClashIsRefused | internal/policy/decision.go:253-255 | two active single-user rules on a row no policy names make the tick fail |
| Schedule.RunIsMetered | internal/daemon/tick.go:343-427 | while one client stays effective at one factor, its row and account in any run of the whole machine are those of a meter fed with the run's bytes and ticks |
| Schedule.CountersAreFactored | internal/daemon/tick.go:343-427 | after a tick commits on the row its counters are start plus raw plus the floor of the factor's share of all bytes the panel added, and the remainder is exact |
| Rest.ResidentRun | internal/daemon/tick.go:85-171 | from tables at rest under reconcile, with one owner per row and one policy row per email, every run of arriving bytes and ticks keeps them so, and keeps the client effective at the factor that excludes, overrides and its rule give at the start |
| Rest.ResidentIsFactored | internal/daemon/tick.go:343-427 | hence exact counters and remainders from conditions on the starting tables alone |
| Twins.MergeStep | internal/engine/reconcile.go:187-284 | the reconcile of a tick merges the rule that was not adopted into the first scope that admits it, with its account, and the tables stay alike |
| Twins.TwinPrepared | internal/daemon/tick.go:100-138 | reconcile, policy repair and enrolment keep the two sides alike on every row |
| TwinTicks.DecidedTogether | internal/policy/decision.go:219-296 | the two sides are decided together or refused together |
| TwinTicks.ChargedTogether | internal/daemon/tick.go:116-171 | and their ticks commit together or fail together |
| Adoption.TwinCommitted | internal/daemon/tick.go:312-428 | and are alike again after a commit |
| Adoption.AdoptionIsTransparent | internal/engine/bulk.go:287-342 | after any run of arriving bytes and ticks the counters of every row are the same whether the rule was adopted into the scope or left for a tick to merge, the same ticks committed, and the row's live account is the same |
| Adoption.EnableAllAdoptsAdmitted | internal/engine/bulk.go:165-285 | enable-all adopts only what its scope admits, which is what that theorem asks |
| Limits.RecreatedClientClashes | internal/store/membership.go:65-95 | concrete tables on which reconcile puts two active rules on one row |
| Limits.RivalTellsAdoption | internal/engine/reconcile.go:187-284 | concrete tables with another single-user rule resolving to the row, which takes it at the next reconcile where the adoption was left out, and is orphaned where it was made |
| Limits.PauseBytesFactored | internal/engine/bulk.go:377-384 | a concrete run in which ten bytes that arrived in a pause are factored after a rename, a resume-all and a rename back |
| Limits.StrayedResumeChargesTwice | internal/engine/bulk.go:377-384 | one in which thirty bytes are charged of ten that arrived |
| Limits.RenamesUnmaskExcludedBytes | internal/engine/excludes.go:28-62 | one in which bytes that arrived while an exclude named the row are charged after a rename |

## The code in place

The statements and loops of the source, as methods that are each proved to
compute the function of the tables (or of their arguments) that the results
above are about; a failing one ends with the tables it started from.

| member | source | does |
|---|---|---|
| Decisions.ActiveRuleCandidates | internal/policy/decision.go:60-77 | the loop lists one candidate per active target, in order |
| Decisions.TargetsByKey | internal/policy/decision.go:143-147 | the map filled in list order keeps the last target of each (traffic id, email) |
| Decisions.ExcludeCandidatesForActiveTargets | internal/policy/decision.go:142-175 | excludes naming an active target become candidates without a target |
| Decisions.OverrideCandidatesForActiveTargets | internal/policy/decision.go:177-213 | overrides naming an active target become candidates for that target at their own factor |
| Decisions.DecideOne | internal/policy/decision.go:242-296 | the sorted choice, the match list and the suppressed list of one group |
| Decisions.Decide | internal/policy/decision.go:219-240 | groups decided by ascending traffic id, failing with the first group that fails |
| ClientView.ValidTargetsForClient | internal/engine/effective.go:227-242 | the loop keeps exactly the targets of the client's row that are not missing and admitted |
| PolicyTable.IsStale | internal/engine/reconcile.go:100-122 | the checks of one round decide staleness |
| Engine.ScopeMatchesClient | internal/engine/reconcile.go:314-337 | the checks by which a scope admits a client |
| Engine.CompatibleScopeForClient | internal/engine/reconcile.go:292-312 | the first listed scope that admits the client while no other scope owns its row |
| Engine.AdoptSingleRuleIntoScope | internal/engine/bulk.go:287-342 | every refusal of adoption, and the copied account, merged rule and events of a success |
| Engine.AdoptOrSupersede | internal/engine/reconcile.go:339-367 | the rule is merged, its account copied unless the scope has the client |
| Engine.ReconcileSingleRule | internal/engine/reconcile.go:171-290 | the tables and counts of one rule's step, real or dry |
| Engine.ReconcileRules | internal/engine/reconcile.go:62-77 | the loop over the listed rules |
| Engine.ReconcileExcludes | internal/engine/reconcile.go:99-126 | the loop over listed excludes repairs and counts as specified |
| Engine.ReconcileOverrides | internal/engine/reconcile.go:128-156 | the same for overrides |
| Engine.ReconcileTx | internal/engine/reconcile.go:49-85 | the whole reconcile, its report and its refusal of a bad clock |
| Store.Tx.CreateRule | internal/store/rules.go:62-70 | the new rule under the next id |
| Store.Tx.SetRuleState | internal/store/rules.go:143-186 | the state and timestamps of the five transitions |
| Store.Tx.AddEvent | internal/store/rules.go:199-207 | one event appended |
| Store.Tx.AddEventOnce | internal/store/rules.go:209-227 | appended unless the same event is on record |
| Store.Tx.UpdateClientCountersCAS | internal/store/tick.go:163-187 | counters replaced, or nothing when the row was raced |
| Store.Tx.UpdateRuleClientBaseline | internal/store/tick.go:189-201 | baseline and remainders set, missing mark cleared |
| Store.Tx.RefreshActiveRuleClientBaselinesForTraffic | internal/store/tick.go:203-236 | exactly the active rules' clients of the row and email start again; a gone or renamed row is reported and nothing changes |
| Store.Tx.MarkRuleClientMissing | internal/store/tick.go:238-246 | the first missing time is kept |
| Store.Tx.CreateRuleClient | internal/store/rules.go:72-82 | a client at the row's counters with no remainder |
| Store.Tx.RefreshRuleClientBaselinesCount | internal/store/bulk.go:83-124 | the loop refreshes exactly the clients whose row has their email, and counts them |
| Store.Tx.AdoptRuleClientInbound | internal/store/membership.go:38-45 | only the client's inbound changes |
| Store.Tx.RelinkRuleClientByEmail | internal/store/membership.go:65-95 | the client moves to the row of its email at that row's counters, or the error cases and no change |
| Store.Tx.CopyRuleClient | internal/store/scopes.go:148-162 | the target gets the very account of the source |
| Store.Tx.CreateScope | internal/store/scopes.go:10-18 | the scope recorded under its rule |
| Store.Tx.UpsertExclude | internal/store/excludes.go:10-39 | insert, or update of the row found, or the tuple conflict |
| Store.Tx.UpsertOverride | internal/store/overrides.go:11-43 | the same with the factor |
| Store.Tx.DisableExclude | internal/store/excludes.go:106-113 | one row disabled |
| Store.Tx.DisableOverride | internal/store/overrides.go:110-117 | one row disabled |
| Store.Tx.RelinkExcludeRow | internal/store/excludes.go:45-76 | moved, or an occupant keeps or regains the policy and this row is disabled |
| Store.Tx.RelinkOverrideRow | internal/store/overrides.go:50-81 | the same, a woken occupant taking the factor |
| Operators.Enable | internal/engine/engine.go:55-119 | a rule with one client at the counters, or the error and no change |
| Operators.Transition | internal/engine/engine.go:162-199 | the one rule selected leaves for the given state |
| Operators.Resume | internal/engine/engine.go:129-160 | refreshed and active again, or conflict or missing client and no change |
| Operators.ResumeAll | internal/engine/bulk.go:352-397 | the loop over paused rules with its skips |
| Operators.BulkTransition | internal/engine/bulk.go:406-444 | the loop over matching rules |
| Operators.Exclude | internal/engine/excludes.go:28-62 | the exclude upserted for the client found |
| Operators.Unexclude | internal/engine/excludes.go:64-102 | the exclude disabled and the row's active clients refreshed in one transaction |
| Operators.Override | internal/engine/overrides.go:29-78 | the override upserted, baselines refreshed, update told from enable |
| Operators.RemoveOverride | internal/engine/overrides.go:80-118 | the override disabled and baselines refreshed |
| Operators.EnableClient | internal/engine/bulk.go:218-282 | one client of enable-all: enrolled, adopted, skipped or refused |
| Operators.EnableAllPersistent | internal/engine/bulk.go:165-285 | the scope found or created, and the loop over its clients |
| Operators.EnableAllSnapshot | internal/engine/bulk.go:96-163 | the free clients, and one client each at their counters |
| Operators.EnableAll | internal/engine/bulk.go:51-94 | the command with its closing reconcile, or rollback |
| Daemon.ReconcileScopes | internal/daemon/tick.go:228-302 | the enrolment loops |
| Daemon.Assess | internal/daemon/tick.go:333-394 | the branches of one target, in order, decide its charge |
| Daemon.TickOne | internal/daemon/tick.go:312-428 | the statements for one target: missing, deferred, inbound adopted, charge carried out or refused |
| Daemon.CarriedIsTicked | internal/daemon/tick.go:329-428 | adopting the inbound first and updating baseline, counters and event one by one is the specified change |
| Daemon.RefreshSuppressedBaseline | internal/daemon/tick.go:173-192 | a suppressed target is rebaselined or marked missing |
| Daemon.TickDecisionOn | internal/daemon/tick.go:139-166 | winner, then every suppressed target |
| Daemon.Tick | internal/daemon/tick.go:85-171 | the whole tick commits the specified tables, or fails and changes nothing |
| Janitor.MarkMismatchedRuleClients | internal/store/cleanup.go:144-194 | the marking loop and its count |
| Janitor.PruneMissingRuleClients | internal/store/cleanup.go:196-241 | the client loop and its count |
| Janitor.PruneDisabledRules | internal/store/cleanup.go:243-307 | the rule loop and its two counts |
| Janitor.PruneInactiveExcludes | internal/store/cleanup.go:309-347 | the exclude loop and its count |
| Janitor.PruneInactiveOverrides | internal/store/cleanup.go:349-387 | the override loop and its count |
| Janitor.PruneAuditEvents | internal/store/cleanup.go:389-409 | old events removed and counted |
| Janitor.CleanTables | internal/store/cleanup.go:87-142 | the whole cleanup with its refusals |
| AuditTrail.ExtraBytesOf | internal/store/rules.go:470-486 | the loop over the message's fields |

## Left out

- Ledgers.NoDoubleCharge: asks of a run that no resume-all brings back a strayed client owing more than arrived since its row was last factored; the condition is exact for the step, and `Limits.StrayedResumeChargesTwice` is a run without it.
- Earnings.EveryChargeIsEarned: asks of a run that its renames meet the exact condition of `Earnings.RenameEarnsExactly`, stated on the tables and the ledger before the rename.
- Schedule.CountersAreFactored: takes "this client stays effective and is not rebaselined" as a condition on the run, which may hold any steps; `Rest.ResidentIsFactored` derives it from the starting tables for runs of bytes and ticks.
- Adoption.AdoptionIsTransparent: for runs of arriving bytes and ticks, where no other active single-user rule owns or resolves to the row; with one the two sides can differ (`Limits.RivalTellsAdoption`).
- AuditTrail.TrafficImpact: without the email, inbound and policy filters of the report.
- Names, notes, created/activated/paused timestamps, and updated-at of rule clients: written, never read by the logic. The rule's updated-at and disabled-at are kept, because cleanup reads them.
- Event messages other than the traffic_apply one; events keep their kind, rule, time and the ids that make two of them equal.
- SQL text, dialects, schema migration, backups, VACUUM: a query is its WHERE and ORDER BY meaning, and text is ordered by character code rather than by the database's collation.
- BEGIN IMMEDIATE, advisory and file locks: a transaction is atomic.
- The panel's role and the master/node protocol: a boolean input of the tick.
- The duplicate-candidate branches of enrolment and enable-all (internal/daemon/tick.go:245-255, internal/engine/bulk.go:446-455): traffic ids are map keys, so no listing repeats one.
- `last_auto_cleanup_at` and its interval: a run may clean at any step, which covers every schedule.
- Tick, bulk and status result counters, client listing limits, and explain texts: they would only add easy members.
- Trimming of emails given to commands: a command takes the trimmed email, and an empty one is refused.
- FormatFactor on negative numbers: stored factors are at least one.
- CLI, configuration, service probes, logging and the repeat-error filter.
