/**
 * The transactions that PostgreSQL really runs, against the flag and the counter of rule_tcl.c. A BEGIN inside
 * a transaction only draws a warning, PREPARE TRANSACTION ends the transaction, and COMMIT AND CHAIN opens
 * the next one; the code resets its counter at the first, and sees neither of the others.
 */
module RealTransactions {
  import opened Core
  import opened Registry
  import opened Verdict
  import opened Ast
  import opened RuleCommon
  import opened Transactions
  import opened Hook
  import opened Statements
  import opened Runs

  // ---- what PostgreSQL does ----------------------------------------------------------------

  /** Whether a transaction block is open, and the DDL statements accepted in it. */
  datatype Pg = Pg(open: bool, ddl: nat)

  const OUTSIDE := Pg(false, 0)

  /** COMMIT, ROLLBACK and PREPARE TRANSACTION end the transaction block. */
  predicate Ends(stmt: Stmt) {
    stmt.Transaction? && (stmt.kind.Commit? || stmt.kind.Rollback? || stmt.kind.Prepare?)
  }

  function PgNext(stmt: Stmt, pg: Pg): Pg {
    if IsOpen(stmt) then (if pg.open then pg else Pg(true, 0))
    else if Ends(stmt) then (if pg.open && IsClose(stmt) && stmt.chain then Pg(true, 0) else OUTSIDE)
    else if CountsAsDdl(stmt) && pg.open then Pg(true, pg.ddl + 1)
    else pg
  }

  function PgState(stmts: seq<Stmt>): Pg {
    if stmts == [] then OUTSIDE else PgNext(stmts[|stmts| - 1], PgState(stmts[..|stmts| - 1]))
  }

  /** What the code counts. */
  function Counted(tcl: Tcl): nat {
    if tcl.inTxn then tcl.ddlCount else 0
  }

  // ---- DDL statements that the code does not count ----------------------------------------------

  /** The statement starts a new transaction, or leaves none open. */
  predicate StartsAfresh(stmt: Stmt, pg: Pg) {
    !pg.open || Ends(stmt)
  }

  /** BEGIN inside a transaction forgets what was counted; DDL behind a chained close is not counted. */
  function Concealed(stmt: Stmt, pg: Pg, tcl: Tcl): nat {
    if StartsAfresh(stmt, pg) then 0
    else if IsOpen(stmt) then Counted(tcl)
    else if CountsAsDdl(stmt) && !tcl.inTxn then 1
    else 0
  }

  /** All that was concealed in the transaction that is open now. */
  ghost function Hidden(stmts: seq<Stmt>): nat {
    if stmts == [] then 0
    else
      var init, last := stmts[..|stmts| - 1], stmts[|stmts| - 1];
      if StartsAfresh(last, PgState(init)) then 0
      else Hidden(init) + Concealed(last, PgState(init), Expected(init))
  }

  /** In an open transaction every DDL statement is either counted or concealed. */
  lemma {:induction false} NothingElseIsLost(stmts: seq<Stmt>)
    requires PgState(stmts).open
    ensures PgState(stmts).ddl == Counted(Expected(stmts)) + Hidden(stmts)
  {
    if stmts != [] {
      var init, last := stmts[..|stmts| - 1], stmts[|stmts| - 1];
      assert init + [last] == stmts;
      ExpectedStep(init, last);
      if PgState(init).open {
        NothingElseIsLost(init);
      }
    }
  }

  /** Position behind the statement that opened the transaction, or behind the last end. */
  function Start(stmts: seq<Stmt>): (k: nat)
    ensures k <= |stmts|
  {
    if stmts == [] then 0
    else
      var init, last := stmts[..|stmts| - 1], stmts[|stmts| - 1];
      if StartsAfresh(last, PgState(init)) then |stmts| else Start(init)
  }

  /** The statement at position `i` conceals something. */
  ghost predicate Conceals(stmts: seq<Stmt>, i: nat)
    requires i < |stmts|
  {
    var pg, tcl := PgState(stmts[..i]), Expected(stmts[..i]);
    pg.open && ((IsOpen(stmts[i]) && tcl.inTxn && tcl.ddlCount > 0) || (CountsAsDdl(stmts[i]) && !tcl.inTxn))
  }

  ghost predicate ConcealsSince(stmts: seq<Stmt>, start: nat) {
    exists i :: start <= i < |stmts| && Conceals(stmts, i)
  }

  lemma ConcealsExtends(init: seq<Stmt>, last: Stmt, start: nat)
    requires start <= |init|
    ensures ConcealsSince(init + [last], start) <==> ConcealsSince(init, start) || Conceals(init + [last], |init|)
  {
    var all := init + [last];
    forall i | 0 <= i < |init|
      ensures Conceals(all, i) <==> Conceals(init, i)
    {
      assert all[..i] == init[..i];
    }
  }

  /**
   * Something is hidden exactly when, since the transaction was opened, a BEGIN was accepted with a counter
   * above 0 or a DDL statement with the code's flag off.
   */
  lemma {:induction false} HiddenIff(stmts: seq<Stmt>)
    requires PgState(stmts).open
    ensures Hidden(stmts) > 0 <==> ConcealsSince(stmts, Start(stmts))
  {
    if stmts != [] {
      var init, last := stmts[..|stmts| - 1], stmts[|stmts| - 1];
      assert init + [last] == stmts;
      if !StartsAfresh(last, PgState(init)) {
        HiddenIff(init);
        ConcealsExtends(init, last, Start(init));
        assert stmts[..|init|] == init;
      }
    }
  }

  // ---- ends of real transactions over runs --------------------------------------------------------

  /** Event `k` is accepted and ends a real transaction in which two or more DDL statements were accepted. */
  ghost predicate UnsafeEnd(start: Session, evs: seq<Event>, k: nat)
    requires k < |evs|
  {
    var pg := PgState(Accepted(start, evs[..k]));
    Accepts(Play(start, evs[..k]), evs[k]) && Ends(evs[k].stmt) && pg.open && pg.ddl >= 2
  }

  /** The rule that a transaction statement checks first. */
  function FirstRule(kind: TxnKind): Action {
    match kind
    case Begin | Start => Note("tcl_begin")
    case Commit => Note("tcl_commit")
    case Rollback => Note("tcl_rollback")
    case Savepoint | Release | RollbackTo => Note("tcl_savepoint")
    case Prepare | CommitPrepared | RollbackPrepared => Adv("tcl_prepared")
  }

  /** A transaction statement is blocked exactly by its first rule, or at a close by the multi-DDL rule. */
  lemma TransactionBlockedIff(s: Session, stmt: Stmt, env: Env)
    requires stmt.Transaction?
    ensures Audit(s, stmt, env).aborted
       <==> Blocks(s.rules, FirstRule(stmt.kind)) || (IsClose(stmt) && Holds2(s.tcl) && MultiGuard(s.rules))
  {
    if IsClose(stmt) {
      GuardedCloseIsBlocked(s, stmt, env);
    } else {
      var acts := Script(stmt, env, s.tcl);
      AbortsIffSomeBlocks(s.rules, s.history, acts);
      assert acts[0] == FirstRule(stmt.kind) && acts[0] in acts;
    }
  }

  /**
   * When an end is unsafe, for every run with any requests in it, in terms of what was counted and
   * concealed: PREPARE needs only its own rule off, a close passes the multi-DDL rule when at most one
   * DDL statement is counted.
   */
  lemma EndIsUnsafeIff(rules: Rules, history: seq<Record>, evs: seq<Event>, k: nat)
    requires k < |evs| && evs[k].Utility? && Ends(evs[k].stmt)
    ensures var start := Session(rules, IDLE, history);
            var s, done := Play(start, evs[..k]), Accepted(start, evs[..k]);
            UnsafeEnd(start, evs, k)
            <==> PgState(done).open && Counted(s.tcl) + Hidden(done) >= 2
                 && !Blocks(s.rules, FirstRule(evs[k].stmt.kind))
                 && (IsClose(evs[k].stmt) && MultiGuard(s.rules) ==> Counted(s.tcl) <= 1)
  {
    var start := Session(rules, IDLE, history);
    CounterFromStart(rules, history, evs[..k]);
    TransactionBlockedIff(Play(start, evs[..k]), evs[k].stmt, evs[k].env);
    if PgState(Accepted(start, evs[..k])).open {
      NothingElseIsLost(Accepted(start, evs[..k]));
    }
  }

  /** Where the multi-DDL rule is on, an unsafe COMMIT or ROLLBACK follows a statement that concealed something. */
  lemma UnsafeCloseWasConcealed(rules: Rules, history: seq<Record>, evs: seq<Event>, k: nat)
    requires k < |evs| && ClosesTxn(evs[k])
    requires var start := Session(rules, IDLE, history); MultiGuard(Play(start, evs[..k]).rules) && UnsafeEnd(start, evs, k)
    ensures var done := Accepted(Session(rules, IDLE, history), evs[..k]); ConcealsSince(done, Start(done))
  {
    EndIsUnsafeIff(rules, history, evs, k);
    HiddenIff(Accepted(Session(rules, IDLE, history), evs[..k]));
  }

  // ---- runs of statements -----------------------------------------------------------------------------

  function Events(stmts: seq<Stmt>, env: Env): seq<Event> {
    if stmts == [] then [] else [Utility(stmts[0], env)] + Events(stmts[1..], env)
  }

  /** The statements are accepted one after the other. */
  ghost predicate PassFrom(rules: Rules, tcl: Tcl, env: Env, stmts: seq<Stmt>)
    decreases |stmts|
  {
    stmts != [] ==>
      !Blocked(rules, stmts[0], env, tcl) && PassFrom(rules, NextTcl(stmts[0], tcl), env, stmts[1..])
  }

  lemma {:induction false} PassingRun(s: Session, env: Env, stmts: seq<Stmt>)
    requires PassFrom(s.rules, s.tcl, env, stmts)
    ensures Accepted(s, Events(stmts, env)) == stmts && Play(s, Events(stmts, env)).rules == s.rules
    ensures |Events(stmts, env)| == |stmts| && OnlyStatements(Events(stmts, env))
    decreases |stmts|
  {
    if stmts != [] {
      HistoryIsAppended(s.rules, s.history, Script(stmts[0], env, s.tcl));
      var ev := Utility(stmts[0], env);
      PassingRun(Step(s, ev), env, stmts[1..]);
      assert Events(stmts, env)[1..] == Events(stmts[1..], env);
      assert stmts == [stmts[0]] + stmts[1..];
    }
  }

  lemma {:induction false} EventsAppend(stmts: seq<Stmt>, last: Stmt, env: Env)
    ensures Events(stmts + [last], env) == Events(stmts, env) + [Utility(last, env)]
  {
    if stmts == [] {
      assert [] + [last] == [last] && [last][1..] == [];
    } else {
      assert (stmts + [last])[1..] == stmts[1..] + [last];
      EventsAppend(stmts[1..], last, env);
    }
  }

  /** A DDL statement that these rules accept; its checks do not depend on the transaction. */
  ghost predicate GoodDdl(rules: Rules, env: Env, ddl: Stmt) {
    CountsAsDdl(ddl) && !Blocked(rules, ddl, env, IDLE)
  }

  lemma DdlPasses(rules: Rules, env: Env, ddl: Stmt, tcl: Tcl)
    requires GoodDdl(rules, env, ddl)
    ensures !Blocked(rules, ddl, env, tcl)
  {
    assert Script(ddl, env, tcl) == Script(ddl, env, IDLE);
  }

  lemma TxnPasses(rules: Rules, env: Env, stmt: Stmt, tcl: Tcl)
    requires stmt.Transaction? && !Blocks(rules, FirstRule(stmt.kind))
    requires IsClose(stmt) && MultiGuard(rules) ==> Counted(tcl) <= 1
    ensures !Blocked(rules, stmt, env, tcl)
  {
    TransactionBlockedIff(Session(rules, tcl, []), stmt, env);
  }

  /** Fed to an idle backend, all these statements are accepted, and the end is unsafe. */
  ghost predicate Escapes(rules: Rules, env: Env, stmts: seq<Stmt>, end: Stmt) {
    var start, evs := Session(rules, IDLE, []), Events(stmts + [end], env);
    && |evs| == |stmts| + 1 && OnlyStatements(evs)
    && Accepted(start, evs[..|stmts|]) == stmts && UnsafeEnd(start, evs, |stmts|)
  }

  /** An end that its own rule and the multi-DDL rule let pass, with two or more DDL statements in the real transaction. */
  lemma EscapingRun(rules: Rules, env: Env, stmts: seq<Stmt>, end: Stmt)
    requires PassFrom(rules, IDLE, env, stmts) && Ends(end) && !Blocks(rules, FirstRule(end.kind))
    requires IsClose(end) && MultiGuard(rules) ==> Counted(Expected(stmts)) <= 1
    requires PgState(stmts).open && PgState(stmts).ddl >= 2
    ensures Escapes(rules, env, stmts, end)
  {
    var start := Session(rules, IDLE, []);
    var before := Events(stmts, env);
    PassingRun(start, env, stmts);
    EventsAppend(stmts, end, env);
    assert (before + [Utility(end, env)])[..|stmts|] == before;
    CounterFromStart(rules, [], before);
    TransactionBlockedIff(Play(start, before), end, env);
  }

  function Txn(kind: TxnKind): Stmt {
    Transaction(kind, false)
  }

  const BEGIN := Txn(Begin)

  lemma PassCons(rules: Rules, env: Env, tcl: Tcl, stmt: Stmt, rest: seq<Stmt>)
    requires !Blocked(rules, stmt, env, tcl) && PassFrom(rules, NextTcl(stmt, tcl), env, rest)
    ensures PassFrom(rules, tcl, env, [stmt] + rest)
  {
    assert ([stmt] + rest)[1..] == rest;
  }

  lemma TwoDdlPass(rules: Rules, env: Env, ddl: Stmt, tcl: Tcl, rest: seq<Stmt>)
    requires GoodDdl(rules, env, ddl) && PassFrom(rules, AfterDdl(AfterDdl(tcl)), env, rest)
    ensures PassFrom(rules, tcl, env, [ddl] + ([ddl] + rest))
  {
    DdlPasses(rules, env, ddl, tcl);
    DdlPasses(rules, env, ddl, AfterDdl(tcl));
    PassCons(rules, env, AfterDdl(tcl), ddl, rest);
    PassCons(rules, env, tcl, ddl, [ddl] + rest);
  }

  lemma StateCons(stmts: seq<Stmt>, last: Stmt)
    ensures PgState(stmts + [last]) == PgNext(last, PgState(stmts))
    ensures Expected(stmts + [last]) == NextTcl(last, Expected(stmts))
  {
    assert (stmts + [last])[..|stmts|] == stmts;
    ExpectedStep(stmts, last);
  }

  lemma NoStatements()
    ensures PgState([]) == OUTSIDE && Expected([]) == IDLE
  {
    assert !InTransaction([]);
  }

  lemma AfterTwoDdl(ddl: Stmt, before: seq<Stmt>)
    requires CountsAsDdl(ddl) && PgState(before) == Pg(true, 0)
    ensures PgState(before + [ddl] + [ddl]) == Pg(true, 2)
    ensures Expected(before + [ddl] + [ddl]) == AfterDdl(AfterDdl(Expected(before)))
  {
    StateCons(before, ddl);
    StateCons(before + [ddl], ddl);
  }

  lemma AfterBegin()
    ensures PgState([BEGIN]) == Pg(true, 0) && Expected([BEGIN]) == Tcl(true, 0)
  {
    NoStatements();
    StateCons([], BEGIN);
    assert [] + [BEGIN] == [BEGIN];
  }

  /** begin; ddl; ddl */
  lemma PlainPrefix(rules: Rules, env: Env, ddl: Stmt) returns (stmts: seq<Stmt>)
    requires GoodDdl(rules, env, ddl) && !Blocks(rules, FirstRule(Begin))
    ensures stmts == [BEGIN] + [ddl] + [ddl] && PassFrom(rules, IDLE, env, stmts)
    ensures PgState(stmts) == Pg(true, 2) && Expected(stmts) == Tcl(true, 2)
  {
    stmts := [BEGIN] + [ddl] + [ddl];
    AfterBegin();
    AfterTwoDdl(ddl, [BEGIN]);
    TxnPasses(rules, env, BEGIN, IDLE);
    TwoDdlPass(rules, env, ddl, Tcl(true, 0), []);
    PassCons(rules, env, IDLE, BEGIN, [ddl] + ([ddl] + []));
    assert stmts == [BEGIN] + ([ddl] + ([ddl] + []));
  }

  /** begin; ddl; ddl; begin: the second BEGIN resets the counter. */
  lemma NestedPrefix(rules: Rules, env: Env, ddl: Stmt, stmts: seq<Stmt>)
    requires GoodDdl(rules, env, ddl) && !Blocks(rules, FirstRule(Begin))
    requires stmts == [BEGIN] + [ddl] + [ddl] + [BEGIN]
    ensures PassFrom(rules, IDLE, env, stmts)
    ensures PgState(stmts) == Pg(true, 2) && Expected(stmts) == Tcl(true, 0)
  {
    AfterBegin();
    AfterTwoDdl(ddl, [BEGIN]);
    StateCons([BEGIN] + [ddl] + [ddl], BEGIN);
    TxnPasses(rules, env, BEGIN, IDLE);
    TxnPasses(rules, env, BEGIN, Tcl(true, 2));
    PassCons(rules, env, Tcl(true, 2), BEGIN, []);
    TwoDdlPass(rules, env, ddl, Tcl(true, 0), [BEGIN] + []);
    PassCons(rules, env, IDLE, BEGIN, [ddl] + ([ddl] + ([BEGIN] + [])));
    assert stmts == [BEGIN] + ([ddl] + ([ddl] + ([BEGIN] + [])));
  }

  /** begin; commit and chain; ddl; ddl: behind the chained close nothing is counted. */
  lemma ChainedPrefix(rules: Rules, env: Env, ddl: Stmt, chained: Stmt, stmts: seq<Stmt>)
    requires GoodDdl(rules, env, ddl) && !Blocks(rules, FirstRule(Begin)) && !Blocks(rules, FirstRule(Commit))
    requires chained == Transaction(Commit, true) && stmts == [BEGIN] + [chained] + [ddl] + [ddl]
    ensures PassFrom(rules, IDLE, env, stmts)
    ensures PgState(stmts) == Pg(true, 2) && Expected(stmts) == IDLE
  {
    ChainedState(ddl, chained);
    TxnPasses(rules, env, BEGIN, IDLE);
    TxnPasses(rules, env, chained, Tcl(true, 0));
    TwoDdlPass(rules, env, ddl, IDLE, []);
    PassCons(rules, env, Tcl(true, 0), chained, [ddl] + ([ddl] + []));
    PassCons(rules, env, IDLE, BEGIN, [chained] + ([ddl] + ([ddl] + [])));
    assert stmts == [BEGIN] + ([chained] + ([ddl] + ([ddl] + [])));
  }

  lemma ChainedState(ddl: Stmt, chained: Stmt)
    requires CountsAsDdl(ddl) && chained == Transaction(Commit, true)
    ensures var stmts := [BEGIN] + [chained] + [ddl] + [ddl];
            PgState(stmts) == Pg(true, 2) && Expected(stmts) == IDLE
  {
    AfterBegin();
    StateCons([BEGIN], chained);
    AfterTwoDdl(ddl, [BEGIN] + [chained]);
  }

  /** begin; ddl; ddl; begin; and any end whose own rule does not block it, whatever the multi-DDL rule does. */
  lemma NestedBeginEscapes(rules: Rules, env: Env, ddl: Stmt, end: Stmt) returns (stmts: seq<Stmt>)
    requires GoodDdl(rules, env, ddl) && !Blocks(rules, FirstRule(Begin))
    requires Ends(end) && !Blocks(rules, FirstRule(end.kind))
    ensures stmts == [BEGIN, ddl, ddl, BEGIN]
    ensures Escapes(rules, env, stmts, end)
  {
    stmts := [BEGIN] + [ddl] + [ddl] + [BEGIN];
    NestedPrefix(rules, env, ddl, stmts);
    EscapingRun(rules, env, stmts, end);
  }

  /** begin; ddl; ddl; prepare transaction: the transaction leaves the backend with two DDL statements. */
  lemma PrepareEscapes(rules: Rules, env: Env, ddl: Stmt, end: Stmt) returns (stmts: seq<Stmt>)
    requires GoodDdl(rules, env, ddl) && !Blocks(rules, FirstRule(Begin)) && !Blocks(rules, FirstRule(Prepare))
    requires end == Txn(Prepare)
    ensures stmts == [BEGIN, ddl, ddl]
    ensures Escapes(rules, env, stmts, end)
  {
    stmts := PlainPrefix(rules, env, ddl);
    EscapingRun(rules, env, stmts, end);
  }

  /** COMMIT PREPARED of what was prepared passes by the same rule, in any state. */
  lemma PreparedIsCommitted(rules: Rules, env: Env, tcl: Tcl)
    ensures Blocked(rules, Txn(CommitPrepared), env, tcl) <==> Blocks(rules, FirstRule(Prepare))
  {
    TransactionBlockedIff(Session(rules, tcl, []), Txn(CommitPrepared), env);
    assert FirstRule(CommitPrepared) == FirstRule(Prepare);
  }

  /** begin; commit and chain; ddl; ddl; commit: the multi-DDL rule sees no transaction at all. */
  lemma ChainEscapes(rules: Rules, env: Env, ddl: Stmt, end: Stmt) returns (stmts: seq<Stmt>)
    requires GoodDdl(rules, env, ddl) && !Blocks(rules, FirstRule(Begin)) && !Blocks(rules, FirstRule(Commit))
    requires end == Txn(Commit)
    ensures stmts == [BEGIN, Transaction(Commit, true), ddl, ddl]
    ensures Escapes(rules, env, stmts, end)
  {
    stmts := [BEGIN] + [Transaction(Commit, true)] + [ddl] + [ddl];
    ChainedPrefix(rules, env, ddl, Transaction(Commit, true), stmts);
    EscapingRun(rules, env, stmts, end);
  }

  // ---- which configurations keep all runs safe -------------------------------------------------------------

  ghost predicate OnlyStatements(evs: seq<Event>) {
    forall i :: 0 <= i < |evs| ==> evs[i].Utility?
  }

  /** No run of statements under these rules ends a real transaction with two or more DDL statements. */
  ghost predicate AlwaysSafe(rules: Rules) {
    forall evs, k :: OnlyStatements(evs) && 0 <= k < |evs| ==> !UnsafeEnd(Session(rules, IDLE, []), evs, k)
  }

  /** The same for runs in which nothing is concealed: no BEGIN with a counter above 0, no DDL behind a chained close. */
  ghost predicate PlainRunsSafe(rules: Rules) {
    forall evs, k :: OnlyStatements(evs) && 0 <= k < |evs|
                     && !ConcealsSince(Accepted(Session(rules, IDLE, []), evs[..k]), 0) ==>
                       !UnsafeEnd(Session(rules, IDLE, []), evs, k)
  }

  lemma {:induction false} RulesStay(s: Session, evs: seq<Event>)
    requires OnlyStatements(evs)
    ensures Play(s, evs).rules == s.rules
    decreases |evs|
  {
    if evs != [] {
      assert forall i :: 0 <= i < |evs[1..]| ==> evs[1..][i] == evs[i + 1];
      RulesStay(Step(s, evs[0]), evs[1..]);
    }
  }

  lemma {:induction false} NothingOpens(s: Session, evs: seq<Event>)
    requires OnlyStatements(evs) && Blocks(s.rules, FirstRule(Begin))
    ensures forall stmt :: stmt in Accepted(s, evs) ==> !IsOpen(stmt)
    decreases |evs|
  {
    if evs != [] {
      assert forall i :: 0 <= i < |evs[1..]| ==> evs[1..][i] == evs[i + 1];
      NothingOpens(Step(s, evs[0]), evs[1..]);
      if IsOpen(evs[0].stmt) {
        TransactionBlockedIff(s, evs[0].stmt, evs[0].env);
      }
    }
  }

  lemma {:induction false} StaysOutside(stmts: seq<Stmt>)
    requires forall stmt :: stmt in stmts ==> !IsOpen(stmt)
    ensures !PgState(stmts).open
  {
    if stmts != [] {
      assert stmts[|stmts| - 1] in stmts;
      StaysOutside(stmts[..|stmts| - 1]);
    }
  }

  /** Nothing that these rules accept is DDL. */
  ghost predicate NoDdlPasses(rules: Rules) {
    forall env, ddl :: !GoodDdl(rules, env, ddl)
  }

  lemma {:induction false} NoDdlIsAccepted(s: Session, evs: seq<Event>)
    requires OnlyStatements(evs) && NoDdlPasses(s.rules)
    ensures forall stmt :: stmt in Accepted(s, evs) ==> !CountsAsDdl(stmt)
    decreases |evs|
  {
    if evs != [] {
      assert forall i :: 0 <= i < |evs[1..]| ==> evs[1..][i] == evs[i + 1];
      NoDdlIsAccepted(Step(s, evs[0]), evs[1..]);
      if CountsAsDdl(evs[0].stmt) {
        assert !GoodDdl(s.rules, evs[0].env, evs[0].stmt);
        assert Script(evs[0].stmt, evs[0].env, s.tcl) == Script(evs[0].stmt, evs[0].env, IDLE);
        HistoryIsAppended(s.rules, s.history, Script(evs[0].stmt, evs[0].env, s.tcl));
      }
    }
  }

  lemma {:induction false} WithoutDdl(stmts: seq<Stmt>)
    requires forall stmt :: stmt in stmts ==> !CountsAsDdl(stmt)
    ensures PgState(stmts).ddl == 0
  {
    if stmts != [] {
      assert stmts[|stmts| - 1] in stmts;
      WithoutDdl(stmts[..|stmts| - 1]);
    }
  }

  lemma NoDdlIsSafe(rules: Rules, evs: seq<Event>, k: nat)
    requires OnlyStatements(evs) && k < |evs| && NoDdlPasses(rules)
    ensures !UnsafeEnd(Session(rules, IDLE, []), evs, k)
  {
    NoDdlIsAccepted(Session(rules, IDLE, []), evs[..k]);
    WithoutDdl(Accepted(Session(rules, IDLE, []), evs[..k]));
  }

  /** All ends are blocked by their own rules. */
  predicate EndsAreBlocked(rules: Rules) {
    && Blocks(rules, FirstRule(Commit)) && Blocks(rules, FirstRule(Rollback)) && Blocks(rules, FirstRule(Prepare))
  }

  lemma BlockedBeginIsSafe(rules: Rules, evs: seq<Event>, k: nat)
    requires OnlyStatements(evs) && k < |evs| && Blocks(rules, FirstRule(Begin))
    ensures !UnsafeEnd(Session(rules, IDLE, []), evs, k)
  {
    var start := Session(rules, IDLE, []);
    NothingOpens(start, evs[..k]);
    StaysOutside(Accepted(start, evs[..k]));
  }

  lemma BlockedEndIsSafe(rules: Rules, evs: seq<Event>, k: nat)
    requires OnlyStatements(evs) && k < |evs| && EndsAreBlocked(rules)
    ensures !UnsafeEnd(Session(rules, IDLE, []), evs, k)
  {
    var start := Session(rules, IDLE, []);
    RulesStay(start, evs[..k]);
    if Ends(evs[k].stmt) {
      TransactionBlockedIff(Play(start, evs[..k]), evs[k].stmt, evs[k].env);
    }
  }

  /**
   * All runs are safe exactly when no DDL passes, or transactions cannot be opened, or they cannot be ended
   * at all: the multi-DDL rule plays no part, because a BEGIN in front of the end resets what it looks at.
   */
  lemma AlwaysSafeIff(rules: Rules)
    ensures AlwaysSafe(rules) <==> NoDdlPasses(rules) || Blocks(rules, FirstRule(Begin)) || EndsAreBlocked(rules)
  {
    if NoDdlPasses(rules) || Blocks(rules, FirstRule(Begin)) || EndsAreBlocked(rules) {
      forall evs, k | OnlyStatements(evs) && 0 <= k < |evs|
        ensures !UnsafeEnd(Session(rules, IDLE, []), evs, k)
      {
        if NoDdlPasses(rules) {
          NoDdlIsSafe(rules, evs, k);
        } else if Blocks(rules, FirstRule(Begin)) {
          BlockedBeginIsSafe(rules, evs, k);
        } else {
          BlockedEndIsSafe(rules, evs, k);
        }
      }
    } else {
      var env, ddl :| GoodDdl(rules, env, ddl);
      var kind := if !Blocks(rules, FirstRule(Commit)) then Commit
                  else if !Blocks(rules, FirstRule(Rollback)) then Rollback else Prepare;
      var stmts := NestedBeginEscapes(rules, env, ddl, Txn(kind));
    }
  }

  /** PREPARE is blocked, and COMMIT and ROLLBACK are blocked as well or watched by the multi-DDL rule. */
  predicate PlainEndsAreGuarded(rules: Rules) {
    && Blocks(rules, FirstRule(Prepare))
    && (MultiGuard(rules) || (Blocks(rules, FirstRule(Commit)) && Blocks(rules, FirstRule(Rollback))))
  }

  lemma StartOfPrefix(stmts: seq<Stmt>, start: nat)
    requires !ConcealsSince(stmts, 0)
    ensures !ConcealsSince(stmts, start)
  {
  }

  lemma PlainEndIsSafe(rules: Rules, evs: seq<Event>, k: nat)
    requires OnlyStatements(evs) && k < |evs|
    requires !ConcealsSince(Accepted(Session(rules, IDLE, []), evs[..k]), 0)
    requires PlainEndsAreGuarded(rules)
    ensures !UnsafeEnd(Session(rules, IDLE, []), evs, k)
  {
    var start := Session(rules, IDLE, []);
    var done := Accepted(start, evs[..k]);
    RulesStay(start, evs[..k]);
    if Ends(evs[k].stmt) && PgState(done).open {
      EndIsUnsafeIff(rules, [], evs, k);
      HiddenIff(done);
      StartOfPrefix(done, Start(done));
    }
  }

  lemma PlainPrefixConcealsNothing(ddl: Stmt)
    requires CountsAsDdl(ddl)
    ensures !ConcealsSince([BEGIN] + [ddl] + [ddl], 0)
  {
    var stmts := [BEGIN] + [ddl] + [ddl];
    NoStatements();
    AfterBegin();
    AfterTwoDdl(ddl, [BEGIN]);
    StateCons([BEGIN], ddl);
    assert stmts[..0] == [] && stmts[..1] == [BEGIN] && stmts[..2] == [BEGIN] + [ddl];
  }

  lemma PlainEndEscapes(rules: Rules, env: Env, ddl: Stmt, end: Stmt)
    requires GoodDdl(rules, env, ddl) && !Blocks(rules, FirstRule(Begin))
    requires Ends(end) && !Blocks(rules, FirstRule(end.kind)) && (IsClose(end) ==> !MultiGuard(rules))
    ensures !PlainRunsSafe(rules)
  {
    var stmts := PlainPrefix(rules, env, ddl);
    PlainPrefixConcealsNothing(ddl);
    EscapingRun(rules, env, stmts, end);
    var evs := Events(stmts + [end], env);
    assert UnsafeEnd(Session(rules, IDLE, []), evs, 3);
  }

  /**
   * What the multi-DDL rule is worth: runs in which nothing is concealed are safe exactly when no DDL passes,
   * BEGIN is blocked, or PREPARE is blocked and either the rule is on or COMMIT and ROLLBACK are blocked.
   */
  lemma PlainRunsSafeIff(rules: Rules)
    ensures PlainRunsSafe(rules)
       <==> NoDdlPasses(rules) || Blocks(rules, FirstRule(Begin)) || PlainEndsAreGuarded(rules)
  {
    if NoDdlPasses(rules) || Blocks(rules, FirstRule(Begin)) || PlainEndsAreGuarded(rules) {
      forall evs, k | OnlyStatements(evs) && 0 <= k < |evs|
                      && !ConcealsSince(Accepted(Session(rules, IDLE, []), evs[..k]), 0)
        ensures !UnsafeEnd(Session(rules, IDLE, []), evs, k)
      {
        if NoDdlPasses(rules) {
          NoDdlIsSafe(rules, evs, k);
        } else if Blocks(rules, FirstRule(Begin)) {
          BlockedBeginIsSafe(rules, evs, k);
        } else {
          PlainEndIsSafe(rules, evs, k);
        }
      }
    } else {
      var env, ddl :| GoodDdl(rules, env, ddl);
      var kind := if !Blocks(rules, FirstRule(Prepare)) then Prepare
                  else if !Blocks(rules, FirstRule(Commit)) then Commit else Rollback;
      PlainEndEscapes(rules, env, ddl, Txn(kind));
    }
  }
}
