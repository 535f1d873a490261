# pgsqlauditengine: a model of the audit decision core

pgsqlauditengine audits SQL statements inside PostgreSQL before they run. Every rule reports through
`audit_emit` or `audit_emit_fixed`; a report at ERROR or WARNING writes a record and aborts the whole
statement. The rule configuration and a ring of audit records live in shared memory, and a REST worker
reads both and changes the configuration. This project models that core in Dafny and proves what it
promises.

- **Verdict** (`Core`, `Registry`, `Verdict`, `AuditorModule`). An abort is an explicit result that every caller
  propagates. Each imperative audit is proved to have exactly the effect of `Exec` on a list of actions
  (rule checks and plain records) that does not depend on the configuration. What such lists do (who
  blocks, what the trail shows, what a stricter configuration changes) is proved once, about `Exec`.
- **Statements** (`RuleCommon`, `CreateTable`, `CreateIndex`, `CreateView`, `Program`, `Exists`, `Transactions`,
  `Hook`, `SourceTable`). The audits of CREATE TABLE, INDEX, VIEW and FUNCTION, the existence check, the transaction
  state machine and the dispatcher, as loops and assignments proved against those lists.
- **Rulebook** (`Rulebook`, `RulebookParts`, `RulebookTheorems`, `CheckOrder`). What each statement breaks, read off its
  parse tree and the catalog (function bodies by the text that `Program` extracts and whose exactness it proves), and
  the proof that the audits attempt exactly these checks, at the levels of the stored configuration, in a fixed order,
  and end with one given record.
- **What the statements mean** (`TableTheorems`, `Acceptance`, `TableAcceptance`, `PlacementVerdict`,
  `StatementAcceptance`, `FunctionTheorems`, `SkippedPieces`, `Statements`, `Runs`, `RealTransactions`). Declarative
  acceptance conditions, when constraint placement matters, the verdict as a statement about attempted checks, and
  safety over whole runs that mix statements with REST requests.
- **Records** (`RecordBuffer`, `LockFreeRing`, `LockFreeTearing`, `LockFreeCount`). The ring called serially, and the same ring as
  it is really used: one load or store at a time, without a lock, in any interleaving.
- **REST** (`Text`, `Json`, `JsonField`, `RuleText`, `PutBodies`, `RestApi`, `ApiTheorems`). The JSON writer against a reader
  that follows RFC 8259, the hand-written field scanner, the handlers, and what requests can change.

Modelling choices. The rule table is any sequence of rule definitions (ids distinct where a lemma says so), the
ring has any positive capacity, the catalog is any set of objects, and the reserved words are any set; `SourceTable`
lists the rules of the source and shows that its ids are distinct.
C strings are sequences of characters without NUL; a character stands for one byte, and the Chinese texts in
`RestApi` stand for their bytes. The time stamp of a record is not modelled. `Emission`s keep the level that the
call site passes, because it decides when shared memory does not exist yet or the rule is unknown.

Results that differ from what comments or documentation say, or from what one would expect:

- WARNING stops a statement just as ERROR does, as README_EN.md:26 says; the comments at
  pgsqlauditengine.h:81, pgsqlauditengine.h:91 and rule_exists.h:19 say that it does not. An existing object
  with IF NOT EXISTS therefore blocks the statement whenever `obj_exists_check` is enabled, at any configured
  level (`Statements.ConflictDecides`).
- With that rule disabled, a statement about an existing object passes without a single content check and without
  a trace (`Statements.ConflictDecides`), although README_EN.md:15 promises that nothing passes silently.
  `Statements.NoSilentPass` therefore asks for all rules to be enabled.
- DELETE on a rule disables it and keeps its level; README_EN.md:168 says that it restores the default
  (`ApiTheorems.DeleteDisables`).
- While the `tcl_multi_ddl_in_txn` rule is on, ROLLBACK is refused just like COMMIT once two DDL statements were
  counted; only an accepted BEGIN leaves that state (`Runs.NoWayOut`; `Runs.UntouchedGuardIsSafe` and
  `Runs.UntouchedGuardLeavesNoWayOut` say what holds while no request names the rule).
- The counter of the code is not the number of DDL statements in PostgreSQL's transaction. A BEGIN inside a transaction
  resets it, DDL behind COMMIT AND CHAIN is not counted, and nothing else is lost (`RealTransactions.NothingElseIsLost`,
  `RealTransactions.HiddenIff`). PREPARE TRANSACTION ends the transaction without a look at the counter. Each of the
  three lets a transaction with two DDL statements through while the rule is on (`RealTransactions.NestedBeginEscapes`,
  `RealTransactions.PrepareEscapes`, `RealTransactions.ChainEscapes`). All runs are safe exactly when no DDL passes at
  all, BEGIN is blocked, or COMMIT, ROLLBACK and PREPARE are all blocked by their own rules
  (`RealTransactions.AlwaysSafeIff`); the multi-DDL rule matters only for runs in which nothing is concealed, and
  there only together with `tcl_prepared` (`RealTransactions.PlainRunsSafeIff`).
- An accepted statement leaves a record that concludes BLOCK exactly when its closing record is written at WARNING or
  ERROR, whatever the rules are set to (`RulebookTheorems.BlockRecordOfAcceptedIff`). In the source these are DROP DATABASE,
  DROP TABLESPACE, TRUNCATE, SET ROLE and SET SESSION AUTHORIZATION (rule_ddl.c:1441, rule_ddl.c:1453,
  rule_ddl.c:1512, rule_dcl.c:168), once their own rules let them pass.
- Moving table constraints changes which column is taken for the key exactly when two table-level keys lead with
  different columns, or one with another column than the first column-level key (`TableTheorems.KeyIsFixedIffSettled`).
  It can change the verdict on a table with a free name exactly when the columns that may be taken differ in being
  `id`, in having a type that keys may not have, or in leaving a `bigint` or bare `numeric` to another column
  (`PlacementVerdict.PlacementDecidesIff`).
- The redundancy test for indexes is exact precisely for existing indexes that repeat no column or contain an
  expression (`CreateIndex.RedundancyTestIsExactIff`). Under the default levels it never decides: every index for which
  the catalog would be read violates `idx_concurrently` (`StatementAcceptance.IndexAcceptedIff`).
- `select *` is looked for in the operands of set operations only, and nesting only in FROM of the top level. A star
  in FROM of another operand, in the WITH clause or in an expression is seen by neither check.
  `StatementAcceptance.StarViewAcceptedIff` says exactly which views with a star somewhere the standard configuration
  accepts; `StatementAcceptance.HiddenStarIsAccepted` is one of them.
- A piece of a function body that does not fit the 8192-byte buffer is skipped as a whole. The DDL check is right about
  all bodies of given piece lengths exactly when they fit (`SkippedPieces.DetectsIff`); no body rule sees a long body in
  one piece (`FunctionTheorems.LongBodyIsNotExamined`). In the standard configuration a body in one piece of 501 to 8190
  characters is blocked for its length, while one of 8191 or more is accepted, DDL included
  (`StatementAcceptance.OnePieceFunctionAcceptedIff`).
- PUT of the text that GET returned changes nothing, for every configuration, exactly when the id does not end, behind its last quote if it has
  one, in `enabled` or `level`, nor the description in `enabled`; a description that ends in `level` is harmless
  (`RuleText.GetThenPutIsIdentityIff`, and `RuleText.PlainKeysAreSafeIff` for texts without quotes).
- A PUT body of a switch alone is always accepted, but `true` switches the rule on only on the line of its colon and with
  nothing between it and the closing brace; otherwise, as in `{"enabled": true }` or with a line break before the
  brace, it switches the rule off (`PutBodies.SwitchAlone`). A level on another line than its colon is refused
  (`PutBodies.LevelAlone`).
- Without a lock, the bound CAP + N - 1 on the record count holds exactly when `count++` is one atomic step, the ring
  has one slot, or at most two backends write; otherwise at least CAP + 2N - 3 is reached
  (`LockFreeCount.BoundHoldsIff`).
- A query can return a record that nobody wrote as soon as one backend writes while one query reads, for every capacity
  (`LockFreeTearing.NeverTearsIff`).

## Model

| member | source | states |
|---|---|---|
| `Registry.FindIsExact` | rule_registry.c:258-272 | with distinct ids the lookup returns exactly the index that carries the id |
| `Registry.RuleRegistry.Startup` | rule_registry.c:182-202 | creates the shared array with every rule enabled at its default, or attaches to the existing one unchanged |
| `Registry.RuleRegistry.FindRule` | rule_registry.c:258-272 | the loop returns the first index with the id, or -1 |
| `Registry.RuleRegistry.RuleConfigAt` | rule_registry.c:227-247 | an index out of range reads as enabled at ERROR, absent shared memory as the default, otherwise the stored entry |
| `Registry.RuleRegistry.SetRuleConfig` | rule_registry.c:249-256 | changes exactly one entry, and nothing for a bad index or absent shared memory |
| `Registry.StoredIsRead` | rule_registry.c:227-256 | reading an entry that was set gives switch and level as they were set, and every other entry as before |
| `Registry.RuleRegistry.GetEffectiveLevel` | rule_registry.c:274-285 | configured level, else default level, else the caller's level |
| `AuditorModule.Auditor.Emit` | rule_registry.c:305-352 | skips a disabled rule; otherwise writes one violation at the configured level and aborts at WARNING or ERROR |
| `AuditorModule.Auditor.EmitFixed` | rule_registry.c:359-401 | the same at the level passed in, which the configuration does not override |
| `Verdict.AbortsIffSomeBlocks` | rule_registry.c:305-401 | early exit blocks exactly when some action of the whole list blocks, wherever it stands |
| `Verdict.TrailIsPrefix` | rule_registry.c:305-401 | the trail is what the actions up to and including the first blocking one record, in order |
| `Verdict.HistoryIsAppended` | rule_registry.c:329-351 | verdict and new records do not depend on earlier records |
| `Verdict.VerdictIsMonotone` | rule_registry.c:317-323 | more enabled rules and higher levels never unblock a list of checks |
| `Verdict.OtherRulesAreIrrelevant` | rule_registry.c:317-323 | rules that are not checked change neither outcome nor records |
| `Verdict.CallerDecidesIff` | rule_registry.c:317-323 | the call-site level matters exactly for unknown rules or without shared memory |
| `Verdict.TrailShape` | rule_registry.c:329-351 | a blocked list leaves violations only, the last one the only blocking one; every other violation, and all those of an accepted list, conclude PASS |
| `Verdict.SilentIffAllDisabled` | rule_registry.c:317-323 | no trace exactly when the list holds disabled checks only |
| `Core.FieldsOfRecord` | audit_record.c:61-85 | statement kind, object and rule each end up in their own field, whole when they fit 31, 127 and 63 characters and cut there otherwise; the conclusion is BLOCK for WARNING and ERROR |
| `RecordBuffer.WriteExtends` | audit_record.c:71-84 | a write appends to the history that the ring stands for, also where it becomes full or wraps around |
| `RecordBuffer.ReadsWindow` | audit_record.c:111-121 | step n of the query loop reads record n of the last min(n, CAP) records |
| `RecordBuffer.Ring.Write` | audit_record.c:61-85 | the history grows by exactly the truncated record |
| `RecordBuffer.Ring.Query` | audit_record.c:87-124 | fills the buffer with the oldest records of the window, as many as fit, and leaves the rest of it alone |
| `LockFreeRing.EveryRunIsSafe` | audit_record.c:71-121 | in every interleaving head < CAP, no slot outside the ring is touched, and a query returns at most min(want, CAP) records |
| `LockFreeRing.AnswersAreTraced` | audit_record.c:74-79 | every field that a query shows was handed to some writer or is still blank |
| `LockFreeTearing.NeverTearsIff` | audit_record.c:71-121 | queries show whole records only, in all interleavings and for every capacity, if and only if nobody writes or nobody reads |
| `LockFreeRing.WriteAlone` | audit_record.c:71-84 | an uninterrupted sequence of writer steps acts as one write and extends the represented history |
| `LockFreeRing.QueryAlone` | audit_record.c:98-123 | an uninterrupted sequence of reader steps returns the oldest records of the window |
| `LockFreeCount.CountIsBounded` | audit_record.c:83-84 | count <= CAP + N - 1 in every run with atomic increments, with one slot, or with at most two writers |
| `LockFreeCount.BoundIsReached` | audit_record.c:83-84 | the bound is sharp for every CAP and N, with atomic and with plain increments |
| `LockFreeCount.BoundHoldsIff` | audit_record.c:83-84 | the bound holds for all runs if and only if the increment is atomic or CAP = 1 or N <= 2; otherwise at least CAP + 2N - 3 is reached |
| `RuleCommon.CheckCharset` | rule_common.c:33-47 | true exactly for non-empty names of lower-case letters, digits and underscores |
| `RuleCommon.AuditCheckName` | rule_common.c:112-153 | attempts the first violated naming rule only; succeeds exactly for legal names |
| `RuleCommon.AuditCheckPrefix` | rule_common.c:155-168 | attempts the rule exactly when the name is missing or lacks the prefix |
| `RuleCommon.AuditCheckType` | rule_common.c:222-256 | attempts the type rules that the last part of the type name violates |
| `CreateTable.FindPkColumn` | rule_ddl.c:175-215 | the leading column of the first primary key in visiting order, or none |
| `CreateTable.ColIsInPk` | rule_ddl.c:98-148 | true exactly when some table-level key names the column or the column declares a key itself |
| `CreateTable.HasForeignKey` | rule_ddl.c:218-258 | true exactly when some constraint, wherever it stands, is a foreign key |
| `CreateTable.ColIsNotNull` | rule_ddl.c:76-92 | true exactly when the flag or a column constraint says NOT NULL |
| `CreateTable.IsReservedColumnName` | rule_ddl.c:151-165 | true exactly when one of the tokens occurs in the name |
| `CreateTable.CheckConstraintPrefixes` | rule_ddl.c:260-353 | attempts the prefix rule of every named constraint of the three places, in order |
| `CreateTable.AuditCreateTable` | rule_ddl.c:358-489 | the early-exit code has the effect of the configuration-independent list of checks, record included |
| `RulebookParts.LeadIs` | rule_ddl.c:175-215 | the column found as the key is the leading column of the first key of the separate list, or else of the first element that declares one |
| `RulebookParts.TableBreaksIff` | rule_ddl.c:76-489 | CREATE TABLE attempts a check exactly when the table breaks that rule, each rule given by the columns, constraints and names of the parse tree |
| `CheckOrder.TableOrder` | rule_ddl.c:358-489 | the table name is checked first, then temporary prefix, key, foreign keys, constraint names, and columns; the record comes last |
| `CheckOrder.ColumnOrder` | rule_ddl.c:425-485 | within a column: name, type, key type or size, NOT NULL, placeholder name |
| `TableTheorems.RearrangedActsPermute` | rule_ddl.c:358-489 | for a settled table, moving or reordering table constraints permutes the attempted actions and nothing more |
| `TableTheorems.OneKeySettles` | rule_ddl.c:175-215 | a table with at most one primary key is settled |
| `TableTheorems.KeyIsFixedIffSettled` | rule_ddl.c:175-215 | the key column is the same under every rearrangement exactly for settled tables |
| `TableTheorems.KeyColumnIsInPk` | rule_ddl.c:98-215 | with distinct column names the column found as the key passes the key test |
| `TableTheorems.NoKeyColumnIff` | rule_ddl.c:98-215 | no key column is found exactly when nothing declares a key, and then no column passes the key test |
| `TableAcceptance.PlacementNeverDecides` | rule_ddl.c:98-353 | for a settled table no configuration blocks one arrangement of the constraints and accepts another |
| `TableAcceptance.TwoKeysDecide` | rule_ddl.c:175-215 | with keys on `id` and on another column the standard configuration accepts one order and blocks the other |
| `PlacementVerdict.HarmlessPlacement` | rule_ddl.c:98-489 | for a table whose possible key columns are alike no rules at all block one arrangement of the constraints and accept another |
| `PlacementVerdict.PlacementDecidesIff` | rule_ddl.c:98-489 | no configuration of a registry with these rules separates two arrangements of a table if and only if all columns that could become the key are alike for the three rules about it |
| `PlacementVerdict.SourceKnows` | rule_registry.c:26-165 | the registry of the source contains all rules that this equivalence needs |
| `PlacementVerdict.SettledIsHarmless` | rule_ddl.c:175-215 | a table whose key column is fixed is one of these tables |
| `PlacementVerdict.UnsettledYetHarmless` | rule_ddl.c:175-215 | different keys alone do not matter: with keys on two int columns, neither called `id`, the verdict never depends on their order |
| `TableAcceptance.AcceptedIffAcceptable` | rule_ddl.c:358-489 | in the standard configuration CREATE TABLE for a free name is accepted exactly for the declared table design |
| `SourceTable.IdsAreDistinct` | rule_registry.c:26-165 | the 108 rule ids of the source are distinct |
| `SourceTable.SourceStartsStandard` | rule_registry.c:26-202 | startup of the registry of the source leaves it in the standard configuration |
| `CreateIndex.RedundancyTestIsExactIff` | rule_ddl.c:600-621 | the one-way inclusion test decides permutation for every new index exactly when the existing index repeats no column or has an expression |
| `CreateIndex.RedundantIffPermutation` | rule_ddl.c:581-633 | with duplicate-free indexes the rule is attempted exactly when the new columns permute those of an existing index |
| `RulebookParts.IndexBreaksIff` | rule_ddl.c:581-782 | CREATE INDEX attempts a check exactly when the index breaks that rule, with the existing indexes and statistics that the catalog gives |
| `RulebookTheorems.RedundancyAttemptedIff` | rule_ddl.c:581-782 | where existing indexes repeat no column, the redundancy check is attempted exactly for an index on a free name, not of a constraint, not concurrent, with a table and a named column, that permutes an existing index |
| `RulebookTheorems.OneReportPerColumn` | rule_ddl.c:636-680 | the selectivity check is attempted as often as columns with few values are named |
| `CheckOrder.IndexOrder` | rule_ddl.c:682-782 | name, prefix, CONCURRENTLY, method, width, redundancy, selectivity, number of indexes, record |
| `CreateIndex.StringListContains` | rule_ddl.c:550-561 | membership |
| `CreateIndex.StmtIndexColnames` | rule_ddl.c:564-578 | the named columns in order, expressions skipped |
| `CreateIndex.CheckRedundantIndex` | rule_ddl.c:581-633 | reports once, exactly when some existing index passes the test |
| `CreateIndex.CheckIndexSelectivity` | rule_ddl.c:636-680 | one report for each named column whose statistics say few distinct values, in order; columns without statistics are skipped |
| `CreateIndex.AuditIndex` | rule_ddl.c:682-782 | the early-exit code has the effect of the list of checks, for constraint, concurrent and plain indexes |
| `CreateView.StarIffSomeOperand` | rule_ddl.c:834-855 | the recursion reports exactly when some operand of the set operations lists a star |
| `CreateView.StarsSplit` | rule_ddl.c:834-855 | a star anywhere in the query, at any depth, is listed by an operand or stands in a subquery of one |
| `CreateView.StarCheckAgreesIff` | rule_ddl.c:834-893 | the check agrees with the presence of a star anywhere exactly when no operand has a star below it or some operand lists one |
| `CreateView.SelectStmtHasStar` | rule_ddl.c:834-855 | computes that report |
| `CreateView.AuditView` | rule_ddl.c:857-900 | the early-exit code has the effect of the list of checks |
| `RulebookParts.ViewBreaksIff` | rule_ddl.c:834-900 | CREATE VIEW attempts a check exactly when the view breaks that rule |
| `CheckOrder.ViewOrder` | rule_ddl.c:857-900 | name, prefix, star, ORDER BY, nesting, record |
| `StatementAcceptance.ViewAcceptedIff` | rule_ddl.c:857-900 | in the standard configuration a view is accepted exactly for a legal `vw_` name and a query whose operands list no star and whose top level neither sorts nor nests |
| `StatementAcceptance.StarViewAcceptedIff` | rule_ddl.c:834-900 | exactly which views that contain a star somewhere are accepted, and where the star then stands |
| `StatementAcceptance.HiddenStarIsAccepted` | rule_ddl.c:834-900 | a union whose right operand reads from a subquery with a star is accepted |
| `StatementAcceptance.IndexAcceptedIff` | rule_ddl.c:682-782 | in the standard configuration an index is accepted exactly as a constraint index or as a well-named concurrent one; the catalog never decides |
| `StatementAcceptance.FunctionAcceptedIff` | rule_program.c:97-163 | in the standard configuration a function is accepted exactly for legal names, allowed parameter types and an inoffensive examined text |
| `StatementAcceptance.FittingFunctionAcceptedIff` | rule_program.c:37-163 | the same in terms of the body as written, for every body that fits the buffer |
| `StatementAcceptance.OnePieceFunctionAcceptedIff` | rule_program.c:37-163 | a body in one piece is accepted exactly when it is inoffensive or too long for the buffer |
| `RulebookParts.FunctionBreaksIff` | rule_program.c:74-163 | CREATE FUNCTION attempts a check exactly when its name, a parameter or the examined text breaks that rule |
| `CheckOrder.FunctionOrder` | rule_program.c:97-163 | name, parameters, DDL, cursor, length, record |
| `Text.FoldsLetters` | rule_program.c:74-95 | two characters compare alike exactly when they are equal or one ASCII letter in two cases |
| `Text.ContainsNoCase` | rule_program.c:74-95 | true exactly when a non-empty needle occurs ignoring case |
| `Text.StrCaseStr` | api_route.c:140-158 | the first occurrence ignoring case, or none |
| `Text.SearchesAgree` | rule_program.c:74-95 | the two searches agree exactly for non-empty needles |
| `Program.FuncBody` | rule_program.c:37-71 | the fixed buffer ends up holding the greedy concatenation of the pieces that fit, terminated |
| `Program.GreedyStaysShort` | rule_program.c:55-64 | the greedy text leaves room for the terminator and one more character |
| `Program.MisfitIsSkipped` | rule_program.c:55-64 | a piece that does not fit where it stands leaves no trace: the text is that of the body without it |
| `Program.WholeIsCut` | rule_program.c:65-69 | a body given as one string is examined up to the end of the buffer |
| `Program.BodyIsSourceIff` | rule_program.c:37-71 | for every list of options the whole body is examined exactly when it fits the buffer |
| `Program.ListBodyIsSourceIff` | rule_program.c:51-65 | for bodies given as lists among any other options: exactly when the body and two more characters fit |
| `FunctionTheorems.BodyRulesOfStatement` | rule_program.c:97-163 | the body rules that CREATE FUNCTION attempts are exactly those that the examined text violates |
| `FunctionTheorems.DetectionIsExact` | rule_program.c:132-143 | for every CREATE FUNCTION whose body fits, the DDL rule is attempted exactly when the body as written contains a keyword |
| `SkippedPieces.DetectsIff` | rule_program.c:51-65 | for given piece lengths the buffer shows a keyword exactly when the body has one, for all bodies, if and only if all pieces fit |
| `FunctionTheorems.LongBodyIsNotExamined` | rule_program.c:37-71 | for a body in one piece among any other options the DDL rule is attempted exactly below the buffer size; above it the statement attempts no body rule |
| `Program.AuditFunction` | rule_program.c:97-163 | the early-exit code has the effect of the list of checks |
| `Exists.DescriptorIsUnique` | rule_exists.c:644-723 | every node of the CREATE family matches exactly one row of the descriptor table |
| `Exists.FindDescriptor` | rule_exists.c:801-808 | the loop finds that row |
| `Exists.ObjExistsCheck` | rule_exists.c:778-835 | PASS exactly for a free name or a concurrent index; otherwise one check, fixed at WARNING with IF NOT EXISTS |
| `RulebookTheorems.ConflictIffTaken` | rule_exists.c:55-835 | kind by kind: a CREATE statement conflicts exactly when the catalog has an object of that kind, name and schema, `public` when none is written |
| `RulebookTheorems.IneIffTolerant` | rule_exists.c:644-835 | IF NOT EXISTS is read for exactly these kinds of object |
| `RulebookTheorems.ExistingTableDecides` | rule_exists.c:778-835 | CREATE TABLE for a name in the catalog is blocked exactly when `obj_exists_check` is on and either IF NOT EXISTS is written or the rule is at WARNING or ERROR |
| `Transactions.TxnState.NoteDdl` | rule_tcl.c:21-26 | counts inside a transaction only |
| `Transactions.TxnState.AuditTransaction` | rule_tcl.c:57-127 | an aborted statement leaves flag and counter unchanged; an accepted one moves to the next state |
| `Hook.AuditCreate` | hook_utility.c:33-110 | an existing object replaces all content checks by the existence check |
| `Hook.ProcessUtility` | hook_utility.c:130-546 | records and verdict of every branch, and the transaction state, which an abort leaves unchanged |
| `RulebookTheorems.AttemptsExactly` | hook_utility.c:33-546 | for every statement, catalog and transaction state: the checks attempted are exactly those of the rulebook |
| `RulebookTheorems.ReportsExactly` | rule_registry.c:274-401 | the level at which a check reports, in terms of the stored entry, the default and the level passed in |
| `RulebookTheorems.BlockedIffBroken` | hook_utility.c:33-546 | for every configuration with distinct ids: a statement is blocked exactly when a rule that it breaks reports at WARNING or ERROR |
| `RulebookTheorems.WritesExactly` | hook_utility.c:33-546 | the only plain record that a statement can write is the one with its kind, its name and its class |
| `RulebookTheorems.AcceptedIsRecorded` | hook_utility.c:33-546 | an accepted statement has written that record |
| `RulebookTheorems.BlockRecordOfAcceptedIff` | hook_utility.c:154-546 | an accepted statement leaves a record that concludes BLOCK exactly when its closing record is written at WARNING or ERROR; it is that record |
| `Statements.ScriptIsClosed` | hook_utility.c:157-545 | in every branch the checks come before at most one closing record |
| `Statements.VerdictRefinement` | hook_utility.c:154-546 | a statement is blocked exactly when some attempted check has an enabled rule and a final level of WARNING or ERROR |
| `Statements.StricterRulesBlockMore` | rule_registry.c:274-323 | tightening the configuration never lets a blocked statement pass |
| `Statements.OtherRulesDoNotMatter` | rule_registry.c:305-401 | rules outside the attempted checks change neither outcome nor records of a statement |
| `Statements.TrailOfStatement` | rule_registry.c:329-351 | a blocked statement writes violations only, never its closing record, and ends with the one that blocked; all other violations conclude PASS |
| `Statements.LastWordNamesTheRule` | rule_registry.c:305-401 | the last record of a blocked statement has the tag VIOLATION, no object, the rule of the first check that blocks, and the level at which that check reports |
| `Statements.SilentPassIff` | hook_utility.c:33-128 | a statement leaves no trace exactly when it names an existing object while the existence rule is off, or has no closing record and all its rules off |
| `Statements.NoSilentPass` | hook_utility.c:33-128 | with all rules enabled every well-formed statement makes the history longer |
| `Statements.ConflictDecides` | rule_exists.c:822-834 | for an existing object only the existence rule decides; with IF NOT EXISTS its level is irrelevant, and when it is off nothing is checked |
| `Runs.Transitions` | rule_tcl.c:21-121 | every accepted CREATE counts inside a transaction; BEGIN, COMMIT and ROLLBACK set flag and counter, all other statements leave them |
| `Runs.CounterIsExact` | rule_tcl.c:18-100 | at every point of every run flag and counter are what the accepted statements say |
| `Runs.CounterFromStart` | rule_tcl.c:18-100 | the same for runs from the initial state |
| `Runs.GuardedCloseIsBlocked` | rule_tcl.c:74-100 | COMMIT and ROLLBACK are blocked exactly when the echo rule blocks, or two DDL statements are counted and the multi-DDL rule blocks |
| `Runs.MultiDdlSafety` | rule_tcl.c:74-100 | wherever the rule is on at the moment of a COMMIT or ROLLBACK, in any run with any requests before it, no such statement is accepted after two DDL statements since the last BEGIN |
| `Runs.TwoFunctionsAreRefused` | rule_tcl.c:21-100 | with the rule on, COMMIT and ROLLBACK are refused behind BEGIN and two accepted CREATE FUNCTION statements |
| `Runs.NoWayOut` | rule_tcl.c:74-100 | once the count is 2, every run without an accepted BEGIN, with the rule on at each COMMIT and ROLLBACK, stays inside with a count that never falls |
| `Runs.UntouchedGuardIsSafe` | rule_tcl.c:74-100 | the same for every run that starts with the rule on and in which no request names it |
| `Runs.UntouchedGuardLeavesNoWayOut` | rule_tcl.c:74-100 | under the same condition no run without an accepted BEGIN leaves the state with a count of 2 |
| `RealTransactions.NothingElseIsLost` | rule_tcl.c:18-127 | in an open PostgreSQL transaction each DDL statement is counted or was concealed, by a BEGIN that reset the counter or behind a chained close |
| `RealTransactions.HiddenIff` | rule_tcl.c:18-100 | something was concealed exactly when, since the transaction was opened, a BEGIN was accepted with a counter above 0 or DDL with the flag off |
| `RealTransactions.TransactionBlockedIff` | rule_tcl.c:57-127 | a transaction statement is blocked exactly by its own rule, or as COMMIT or ROLLBACK by the multi-DDL rule with two counted |
| `RealTransactions.EndIsUnsafeIff` | rule_tcl.c:57-127 | in any run with any requests, exactly when COMMIT, ROLLBACK or PREPARE is accepted in a transaction with two DDL statements, in terms of what was counted, what was concealed and the rules at that moment |
| `RealTransactions.UnsafeCloseWasConcealed` | rule_tcl.c:65-100 | with the multi-DDL rule on, such a COMMIT or ROLLBACK follows a statement of that transaction that concealed something |
| `RealTransactions.AlwaysSafeIff` | rule_tcl.c:57-127 | a configuration lets no run end a transaction with two DDL statements exactly when no DDL passes, BEGIN is blocked, or all three ends are blocked by their own rules |
| `RealTransactions.PlainRunsSafeIff` | rule_tcl.c:57-127 | for runs in which nothing is concealed: exactly when no DDL passes, BEGIN is blocked, or PREPARE is blocked and the multi-DDL rule is on or both closes are blocked |
| `RealTransactions.NestedBeginEscapes` | rule_tcl.c:65-100 | BEGIN, two DDL statements, BEGIN and any end whose own rule lets it pass are all accepted, whatever the multi-DDL rule is |
| `RealTransactions.PrepareEscapes` | rule_tcl.c:111-119 | BEGIN, two DDL statements, PREPARE TRANSACTION are all accepted when `tcl_prepared` does not block, whatever the multi-DDL rule is |
| `RealTransactions.PreparedIsCommitted` | rule_tcl.c:111-119 | COMMIT PREPARED is accepted in every state exactly when PREPARE TRANSACTION is |
| `RealTransactions.ChainEscapes` | rule_tcl.c:74-86 | BEGIN, COMMIT AND CHAIN, two DDL statements, COMMIT are all accepted, whatever the multi-DDL rule is |
| `Runs.TrailIsFaithful` | rule_registry.c:329-400 | over any run the BLOCK violations are, in order and one for one, the last records of the blocked statements, and every other violation appended concludes PASS |
| `RestApi.StringInfo.AppendJsonString` | api_route.c:41-75 | appends the quoted and escaped string |
| `RestApi.Respond` | api_route.c:99-122 | builds the reply envelope |
| `RestApi.ConfigGet` | api_route.c:278-308 | builds the export of all rules in order |
| `RestApi.HandleRulePut` | api_route.c:350-410 | 404, 400 or an update of exactly the named rule; a refusal changes nothing |
| `RestApi.HandleRuleGet` | api_route.c:495-521 | 404 or the text of the rule |
| `RestApi.HandleRuleDelete` | api_route.c:529-541 | disables the rule, keeps its level, and answers 204 for unknown rules too |
| `RestApi.HandleAuditLogs` | api_route.c:240-275 | answers with the last min(n, CAP) records, oldest first |
| `RestApi.HandleRequest` | api_route.c:433-573 | routing, reply and the new configuration for every method, path and body |
| `JsonField.FindField` | api_route.c:313-347 | the scanning loops compute the field value defined by first match, first colon, and quote or delimiter |
| `JsonField.FirstMatch` | api_route.c:320-323 | in a text cut at its quotes, the quoted key first matches at the first equal segment |
| `RuleText.SplitEscape` | api_route.c:41-75 | an escaped text falls apart at the same quotes as the original; only its last part can be a key |
| `JsonField.QuotedField` | api_route.c:320-346 | the scanner returns the string behind the first colon after that segment |
| `JsonField.BareField` | api_route.c:337-346 | the scanner returns a bare value up to the closing brace |
| `Json.DecodeBodyInverts` | api_route.c:41-75 | a reader after section 7 of RFC 8259 recovers exactly the written string and what follows it, or rejects it when another control character occurs |
| `Json.StringRoundTrip` | api_route.c:41-75 | the same for the quoted string |
| `Json.TextRoundTrip` | api_route.c:41-75 | a value printed with this writer parses back to itself when all its strings are printable, and is rejected otherwise |
| `RuleText.GetTextIsJoined` | api_route.c:100-122 | the exact GET text, cut at its quotes |
| `RuleText.PutOfGet` | api_route.c:350-402 | what PUT makes of an exact GET text, for every id and name, quotes included; the current configuration plays no part |
| `RuleText.GetThenPutIsIdentityIff` | api_route.c:313-401 | for every id and name, PUT of the GET text is the identity for all configurations, and PUT of an old GET text restores the old one, exactly when their last quote-separated parts avoid the two keys |
| `RuleText.PlainKeysAreSafeIff` | api_route.c:313-347 | for ids and names without quotes that condition says that the id is neither key word and the name is not `enabled` |
| `RuleText.PutOfClientBody` | api_route.c:313-402 | PUT of a JSON client's text of a switch and any string takes both, or refuses both when the string is no level |
| `PutBodies.SwitchAlone` | api_route.c:313-402 | PUT of a switch alone with any whitespace: the level stays, and the rule is on afterwards exactly for `true` or 1 on the line of the colon right before the brace |
| `PutBodies.LevelAlone` | api_route.c:313-402 | PUT of a level alone with any whitespace: the switch stays, and the level is taken exactly when it is one of the three and on the line of the colon |
| `ApiTheorems.RouteIs` | api_route.c:433-573 | the route in terms of the whole path, verb and token |
| `ApiTheorems.QueryIsIgnored` | api_route.c:433-439 | a query string does not change the route |
| `ApiTheorems.EveryAnswer` | api_route.c:433-573 | the status of the answer to every request |
| `ApiTheorems.LogsAnswer` | api_route.c:240-275 | GET of the audit log shows the window of the ring and changes nothing |
| `ApiTheorems.RefusalIsRead` | api_route.c:99-122 | a refusal is JSON with its status, code and message |
| `ApiTheorems.ApiFrame` | api_route.c:490-545 | one request changes at most the rule it names with PUT or DELETE |
| `ApiTheorems.UnnamedRulesAreKept` | api_route.c:490-545 | over any sequence of requests a rule that none of them names keeps its configuration |
| `ApiTheorems.RefusalsChangeNothing` | api_route.c:448-573 | GETs and every 400, 401, 404 and 405 reply change nothing |
| `ApiTheorems.ClientPutIff` | api_route.c:350-410 | at the API: a JSON client's PUT stores exactly the two values in the named rule and changes no other entry, or is refused with 400 and changes nothing when the level is invalid, however valid the switch |
| `ApiTheorems.DeleteDisables` | api_route.c:529-541 | at the API: after DELETE the rule is off at its old level, never at its default, and every other rule is as before |
| `ApiTheorems.SavedReplyRestores` | api_route.c:490-527 | at the API: after PUT of a saved reply to GET the rule has switch and level of that moment, whatever happened in between, and every other rule is as before |
| `ApiTheorems.ExportRoundTrip` | api_route.c:278-308 | at the API: GET of the configuration answers with JSON that yields the switch and id, switch and level of all rules in order when all ids are printable, and with no JSON otherwise |

## Left out

- Sockets, the worker loop, request-line scanning and token checks: requests start from a method, a path, a body and
  whether they are authorised; the 511-byte limit of the path is not modelled.
- `hook_analyze.c`: its recursion lives in PostgreSQL's tree walkers, which are not part of this model.
- `rule_cmd.c`, `rule_object.c`, `rule_dcl.c` and the echo-style audits of `rule_ddl.c`: one parametric case, a list of
  checks and at most one closing record whose tag is not `VIOLATION`. Each of them attempts at least one check.
- Statement kinds `CreateTableAsStmt`, `DefineStmt` and the other CREATE statements: the existence check is modelled for
  all of them, their content audits by the parametric case.
- Catalog access: what is found is any set of objects, any list of existing indexes and any column statistics; errors
  raised by `relation_openrv` are left out.
- `CreateIndex.CheckIndexSelectivity`: `stadistinct` is a real number, so the rounding of the C code's `float4` is not
  modelled.
- The descriptor rows of access methods, publications and others that the dispatcher never sends to the existence check
  are in the table all the same.
- `TableLikeClause` elements, which the C code would read as column definitions, are not part of `tableElts`.
- Message texts, DEBUG echoes, the chain to the previous hook, GUC registration and version macros.
- Time stamps, the missing record buffer (`g_record_buf == NULL`), and `int` and `uint32` overflow of the counters.
- Case folding of bytes above 127 by `pg_strncasecmp` and `pg_strcasecmp`, which depends on the locale.
- `RestApi.HandleAuditLogs`: states the records of the answer, not their JSON text, which shows the time stamps.
- `RestApi.HandleRequest`: does not give the reply texts of the rule list, the health check and the audit log; the second
  `/health` branch of the source is unreachable.
- Numbers other than non-negative integers in the JSON reader; the API writes no others.
- Data-modifying statements in a WITH clause; queries inside expressions and in WITH are one list of each query.
- `LockFreeRing.EveryRunIsSafe`: each field of a record is stored and loaded in one step, so tearing inside a string
  field is not modelled, and steps take effect in one global order (no weak memory).
- `RealTransactions.NothingElseIsLost`: counts accepted statements, also those that PostgreSQL rolls back to a savepoint
  or that fail when they run; that a refused or failed statement leaves PostgreSQL's transaction in the failed state is
  not modelled. The escaping runs contain no such statement.
- `LockFreeCount.BoundHoldsIff`: no upper bound on the count is given for plain increments beyond two writers; the value
  named there is one that is reached, not the largest.
- `Runs.MultiDdlSafety`: one backend; the configuration changes between statements, not in the middle of one.
- `ruleparse.c` and `tools.c`, which the Makefile does not build.
