/** Whole runs of one backend: statements interleaved with requests to the REST API. */
module Runs {
  import opened Core
  import opened Registry
  import opened Verdict
  import opened Ast
  import opened RuleCommon
  import opened Transactions
  import opened Hook
  import opened Statements
  import RestApi
  import ApiTheorems

  datatype Event = Utility(stmt: Stmt, env: Env) | Call(enabled: bool, req: RestApi.Request)

  datatype Session = Session(rules: Rules, tcl: Tcl, history: seq<Record>)

  ghost function Audit(s: Session, stmt: Stmt, env: Env): Run {
    Exec(s.rules, s.history, Script(stmt, env, s.tcl))
  }

  /** The effect of one event, as proved for ProcessUtility and HandleRequest. */
  ghost function Step(s: Session, ev: Event): Session {
    match ev
    case Call(enabled, req) => s.(rules := RestApi.Api(s.rules, enabled, [], req).rules)
    case Utility(stmt, env) =>
      var r := Audit(s, stmt, env);
      s.(history := r.history, tcl := if r.aborted then s.tcl else NextTcl(stmt, s.tcl))
  }

  ghost function Play(s: Session, evs: seq<Event>): Session
    decreases |evs|
  {
    if evs == [] then s else Play(Step(s, evs[0]), evs[1..])
  }

  ghost predicate Accepts(s: Session, ev: Event) {
    ev.Utility? && !Audit(s, ev.stmt, ev.env).aborted
  }

  ghost predicate Rejects(s: Session, ev: Event) {
    ev.Utility? && Audit(s, ev.stmt, ev.env).aborted
  }

  ghost function AcceptedOne(s: Session, ev: Event): seq<Stmt> {
    if Accepts(s, ev) then [ev.stmt] else []
  }

  /** The statements that the run let through, in order. */
  ghost function Accepted(s: Session, evs: seq<Event>): seq<Stmt>
    decreases |evs|
  {
    if evs == [] then [] else AcceptedOne(s, evs[0]) + Accepted(Step(s, evs[0]), evs[1..])
  }

  /** The state that each kind of accepted statement leaves. */
  lemma Transitions(tcl: Tcl, node: CreateNode, f: FuncStmt, audit: SimpleAudit, cmdname: string, chain: bool)
    ensures var counted := if tcl.inTxn then Tcl(true, tcl.ddlCount + 1) else tcl;
            && NextTcl(Create(node), tcl) == NextTcl(Function(f), tcl) == NextTcl(Simple(audit, true), tcl) == counted
            && NextTcl(Simple(audit, false), tcl) == NextTcl(Unmapped(cmdname), tcl) == tcl
    ensures NextTcl(Transaction(Begin, chain), tcl) == NextTcl(Transaction(Start, chain), tcl) == Tcl(true, 0)
    ensures NextTcl(Transaction(Commit, chain), tcl) == NextTcl(Transaction(Rollback, chain), tcl) == Tcl(false, 0)
    ensures forall kind :: kind in {Savepoint, Release, RollbackTo, Prepare, CommitPrepared, RollbackPrepared} ==>
              NextTcl(Transaction(kind, chain), tcl) == tcl
  {
  }

  // ---- the DDL counter ----------------------------------------------------------------------

  predicate IsOpen(stmt: Stmt) {
    stmt.Transaction? && (stmt.kind.Begin? || stmt.kind.Start?)
  }

  predicate IsClose(stmt: Stmt) {
    stmt.Transaction? && (stmt.kind.Commit? || stmt.kind.Rollback?)
  }

  /** What the run counts: every CREATE, and those of the simple audits that are called DDL. */
  predicate CountsAsDdl(stmt: Stmt) {
    match stmt
    case Create(_) => true
    case Function(_) => true
    case Simple(_, ddl) => ddl
    case Transaction(_, _) => false
    case Unmapped(_) => false
  }

  function CountDdl(stmts: seq<Stmt>): nat {
    if stmts == [] then 0
    else CountDdl(stmts[..|stmts| - 1]) + (if CountsAsDdl(stmts[|stmts| - 1]) then 1 else 0)
  }

  /** Position behind the last accepted BEGIN or START, or 0. */
  function SinceOpen(stmts: seq<Stmt>): (k: nat)
    ensures k <= |stmts|
  {
    if stmts == [] then 0
    else if IsOpen(stmts[|stmts| - 1]) then |stmts|
    else SinceOpen(stmts[..|stmts| - 1])
  }

  /** Some accepted BEGIN or START has no accepted COMMIT or ROLLBACK behind it. */
  ghost predicate InTransaction(stmts: seq<Stmt>) {
    exists i :: 0 <= i < |stmts| && IsOpen(stmts[i]) && forall j :: i < j < |stmts| ==> !IsClose(stmts[j])
  }

  /** What the statements that were let through say about the transaction. */
  ghost function Expected(stmts: seq<Stmt>): Tcl {
    if InTransaction(stmts) then Tcl(true, CountDdl(stmts[SinceOpen(stmts)..])) else IDLE
  }

  lemma InTransactionStep(stmts: seq<Stmt>, stmt: Stmt)
    ensures InTransaction(stmts + [stmt]) <==> IsOpen(stmt) || (InTransaction(stmts) && !IsClose(stmt))
  {
    var all := stmts + [stmt];
    if IsOpen(stmt) {
      assert IsOpen(all[|stmts|]);
    }
    if InTransaction(stmts) && !IsClose(stmt) {
      var i :| 0 <= i < |stmts| && IsOpen(stmts[i]) && forall j :: i < j < |stmts| ==> !IsClose(stmts[j]);
      assert IsOpen(all[i]);
    }
    if InTransaction(all) && !IsOpen(stmt) {
      var i :| 0 <= i < |all| && IsOpen(all[i]) && forall j :: i < j < |all| ==> !IsClose(all[j]);
      assert all[|stmts|] == stmt && IsOpen(stmts[i]);
      forall j | i < j < |stmts| ensures !IsClose(stmts[j]) {
        assert all[j] == stmts[j];
      }
    }
  }

  lemma ExpectedStep(stmts: seq<Stmt>, stmt: Stmt)
    ensures Expected(stmts + [stmt]) == NextTcl(stmt, Expected(stmts))
  {
    var all := stmts + [stmt];
    InTransactionStep(stmts, stmt);
    assert all[..|all| - 1] == stmts;
    if !IsOpen(stmt) {
      var k := SinceOpen(stmts);
      assert SinceOpen(all) == k;
      assert all[k..] == stmts[k..] + [stmt];
      assert all[k..][..|all[k..]| - 1] == stmts[k..];
    }
  }

  lemma CounterStep(s: Session, before: seq<Stmt>, ev: Event)
    requires s.tcl == Expected(before)
    ensures Step(s, ev).tcl == Expected(before + AcceptedOne(s, ev))
  {
    if Accepts(s, ev) {
      ExpectedStep(before, ev.stmt);
    } else {
      assert before + [] == before;
    }
  }

  /**
   * At any point of any run the backend is inside a transaction exactly when the accepted statements
   * say so, and the counter is the number of DDL statements accepted since the last accepted BEGIN.
   */
  lemma {:induction false} CounterIsExact(s: Session, before: seq<Stmt>, evs: seq<Event>)
    requires s.tcl == Expected(before)
    ensures Play(s, evs).tcl == Expected(before + Accepted(s, evs))
    decreases |evs|
  {
    if evs == [] {
      assert before + [] == before;
    } else {
      var s', one := Step(s, evs[0]), AcceptedOne(s, evs[0]);
      CounterStep(s, before, evs[0]);
      CounterIsExact(s', before + one, evs[1..]);
      Assoc(before, one, Accepted(s', evs[1..]));
    }
  }

  lemma CounterFromStart(rules: Rules, history: seq<Record>, evs: seq<Event>)
    ensures Play(Session(rules, IDLE, history), evs).tcl == Expected(Accepted(Session(rules, IDLE, history), evs))
  {
    var s := Session(rules, IDLE, history);
    CounterIsExact(s, [], evs);
    assert [] + Accepted(s, evs) == Accepted(s, evs);
  }

  // ---- several DDL statements in one transaction ---------------------------------------------

  /** The multi-DDL rule is on, at a level that stops the statement. */
  predicate MultiGuard(rules: Rules) {
    Blocks(rules, Adv(MULTI_DDL))
  }

  predicate Holds2(tcl: Tcl) {
    tcl.inTxn && tcl.ddlCount >= 2
  }

  /** The rule that echoes a COMMIT or a ROLLBACK. */
  function EchoOf(stmt: Stmt): string {
    if stmt.Transaction? && stmt.kind.Commit? then "tcl_commit" else "tcl_rollback"
  }

  /** The echo rule has been raised to a level that stops the statement. */
  predicate EchoBlocks(rules: Rules, stmt: Stmt) {
    Blocks(rules, Note(EchoOf(stmt)))
  }

  lemma CloseActs(stmt: Stmt, env: Env, tcl: Tcl, a: Action)
    requires IsClose(stmt)
    ensures a in Script(stmt, env, tcl) && a.Emit? <==> a == Note(EchoOf(stmt)) || (Holds2(tcl) && a == Adv(MULTI_DDL))
  {
  }

  /**
   * A COMMIT or ROLLBACK is blocked exactly when its echo rule blocks, or two or more DDL statements are
   * counted and the multi-DDL rule blocks.
   */
  lemma GuardedCloseIsBlocked(s: Session, stmt: Stmt, env: Env)
    requires IsClose(stmt)
    ensures Audit(s, stmt, env).aborted <==> EchoBlocks(s.rules, stmt) || (Holds2(s.tcl) && MultiGuard(s.rules))
  {
    AbortsIffSomeBlocks(s.rules, s.history, Script(stmt, env, s.tcl));
    forall a: Action
      ensures a in Script(stmt, env, s.tcl) && a.Emit? <==> a == Note(EchoOf(stmt)) || (Holds2(s.tcl) && a == Adv(MULTI_DDL))
    {
      CloseActs(stmt, env, s.tcl, a);
    }
  }

  /** No request of the run names the multi-DDL rule with PUT or DELETE. */
  ghost predicate LeavesGuard(evs: seq<Event>) {
    forall ev :: ev in evs && ev.Call? ==> ApiTheorems.Touches(ev.req) != Some(MULTI_DDL)
  }

  lemma GuardAt(rules: Rules)
    ensures var k := Find(rules.defs, MULTI_DDL);
            MultiGuard(rules) <==> k < 0 || rules.configs.None?
                                   || (ConfigAt(rules, k).enabled && Blocking(ConfigAt(rules, k).level))
  {
  }

  lemma CallKeepsGuard(rules: Rules, enabled: bool, req: RestApi.Request)
    requires MultiGuard(rules) && ApiTheorems.Touches(req) != Some(MULTI_DDL)
    ensures MultiGuard(RestApi.Api(rules, enabled, [], req).rules)
  {
    var k := Find(rules.defs, MULTI_DDL);
    GuardAt(rules);
    var after := RestApi.Api(rules, enabled, [], req).rules;
    GuardAt(after);
    ApiTheorems.ApiKeepsDefs(rules, enabled, [], req);
    if k >= 0 {
      ApiTheorems.ApiFrame(rules, enabled, [], req, k);
    }
  }

  lemma GuardSurvives(s: Session, ev: Event)
    requires MultiGuard(s.rules) && LeavesGuard([ev])
    ensures MultiGuard(Step(s, ev).rules)
  {
    assert ev in [ev];
    if ev.Call? {
      CallKeepsGuard(s.rules, ev.enabled, ev.req);
    }
  }

  lemma LeavesGuardSplits(evs: seq<Event>)
    requires LeavesGuard(evs) && evs != []
    ensures LeavesGuard([evs[0]]) && LeavesGuard(evs[1..])
  {
    assert evs[0] in evs && forall ev :: ev in evs[1..] ==> ev in evs;
  }

  lemma {:induction false} GuardSurvivesRun(s: Session, evs: seq<Event>)
    requires MultiGuard(s.rules) && LeavesGuard(evs)
    ensures MultiGuard(Play(s, evs).rules)
    decreases |evs|
  {
    if evs != [] {
      LeavesGuardSplits(evs);
      GuardSurvives(s, evs[0]);
      GuardSurvivesRun(Step(s, evs[0]), evs[1..]);
    }
  }

  /** The event is a COMMIT or ROLLBACK, accepted or not. */
  predicate ClosesTxn(ev: Event) {
    ev.Utility? && IsClose(ev.stmt)
  }

  /**
   * Wherever the rule is on at the moment of a COMMIT or ROLLBACK, whatever requests came before, the
   * statement is not accepted when two or more DDL statements were accepted since the last BEGIN.
   */
  lemma MultiDdlSafety(rules: Rules, history: seq<Record>, evs: seq<Event>, k: nat)
    requires k < |evs| && ClosesTxn(evs[k])
    ensures var start := Session(rules, IDLE, history);
            var done := Accepted(start, evs[..k]);
            MultiGuard(Play(start, evs[..k]).rules) && Accepts(Play(start, evs[..k]), evs[k]) && InTransaction(done) ==>
              CountDdl(done[SinceOpen(done)..]) <= 1
  {
    CounterFromStart(rules, history, evs[..k]);
    GuardedCloseIsBlocked(Play(Session(rules, IDLE, history), evs[..k]), evs[k].stmt, evs[k].env);
  }

  /** Two CREATE FUNCTION statements accepted behind BEGIN are enough: COMMIT and ROLLBACK are then refused. */
  lemma TwoFunctionsAreRefused(s: Session, open: Stmt, f: FuncStmt, g: FuncStmt, close: Stmt, env: Env)
    requires open.Transaction? && open.kind.Begin? && close.Transaction? && (close.kind.Commit? || close.kind.Rollback?)
    requires var evs := [Utility(open, env), Utility(Function(f), env), Utility(Function(g), env)];
             Accepted(s, evs) == [open, Function(f), Function(g)] && MultiGuard(Play(s, evs).rules)
    ensures var evs := [Utility(open, env), Utility(Function(f), env), Utility(Function(g), env)];
            Rejects(Play(s, evs), Utility(close, env))
  {
    var a, b, c := Utility(open, env), Utility(Function(f), env), Utility(Function(g), env);
    var s1 := Step(s, a);
    var s2 := Step(s1, b);
    assert [a, b, c][1..] == [b, c] && [b, c][1..] == [c] && [c][1..] == [];
    assert Play(s, [a, b, c]) == Play(s1, [b, c]) == Play(s2, [c]) == Step(s2, c);
    AllThreeAccepted(s, a, b, c);
    GuardedCloseIsBlocked(Step(s2, c), close, env);
  }

  lemma AllThreeAccepted(s: Session, a: Event, b: Event, c: Event)
    requires |Accepted(s, [a, b, c])| == 3
    ensures Accepts(s, a) && Accepts(Step(s, a), b) && Accepts(Step(Step(s, a), b), c)
  {
    assert [a, b, c][1..] == [b, c] && [b, c][1..] == [c] && [c][1..] == [];
    var s1, s2 := Step(s, a), Step(Step(s, a), b);
    assert Accepted(s, [a, b, c]) == AcceptedOne(s, a) + Accepted(s1, [b, c]);
    assert Accepted(s1, [b, c]) == AcceptedOne(s1, b) + Accepted(s2, [c]);
    assert Accepted(s2, [c]) == AcceptedOne(s2, c) + [];
  }

  /** In particular when the rule is on at the start and no request ever names it. */
  lemma UntouchedGuardIsSafe(rules: Rules, history: seq<Record>, evs: seq<Event>, k: nat)
    requires MultiGuard(rules) && LeavesGuard(evs) && k < |evs| && ClosesTxn(evs[k])
    ensures var start := Session(rules, IDLE, history);
            var done := Accepted(start, evs[..k]);
            Accepts(Play(start, evs[..k]), evs[k]) && InTransaction(done) ==> CountDdl(done[SinceOpen(done)..]) <= 1
  {
    assert forall ev :: ev in evs[..k] ==> ev in evs;
    GuardSurvivesRun(Session(rules, IDLE, history), evs[..k]);
    MultiDdlSafety(rules, history, evs, k);
  }

  /** The rule is on whenever a COMMIT or ROLLBACK comes; in between, requests may do with it what they like. */
  ghost predicate GuardedCloses(s: Session, evs: seq<Event>)
    decreases |evs|
  {
    evs != [] ==> (ClosesTxn(evs[0]) ==> MultiGuard(s.rules)) && GuardedCloses(Step(s, evs[0]), evs[1..])
  }

  lemma {:induction false} UntouchedGuardStays(s: Session, evs: seq<Event>)
    requires MultiGuard(s.rules) && LeavesGuard(evs)
    ensures GuardedCloses(s, evs)
    decreases |evs|
  {
    if evs != [] {
      LeavesGuardSplits(evs);
      GuardSurvives(s, evs[0]);
      UntouchedGuardStays(Step(s, evs[0]), evs[1..]);
    }
  }

  lemma StaysInside(s: Session, ev: Event)
    requires Holds2(s.tcl) && (ClosesTxn(ev) ==> MultiGuard(s.rules)) && (Accepts(s, ev) ==> !IsOpen(ev.stmt))
    ensures var t := Step(s, ev).tcl; t.inTxn && t.ddlCount >= s.tcl.ddlCount
  {
    if ClosesTxn(ev) {
      GuardedCloseIsBlocked(s, ev.stmt, ev.env);
    }
  }

  /**
   * Once two DDL statements have been accepted, the backend stays inside the transaction with a counter
   * that never falls, until a BEGIN is accepted: ROLLBACK is refused just like COMMIT.
   */
  lemma {:induction false} NoWayOut(s: Session, evs: seq<Event>)
    requires GuardedCloses(s, evs) && Holds2(s.tcl)
    requires forall stmt :: stmt in Accepted(s, evs) ==> !IsOpen(stmt)
    ensures var t := Play(s, evs).tcl; t.inTxn && t.ddlCount >= s.tcl.ddlCount
    decreases |evs|
  {
    if evs != [] {
      var s' := Step(s, evs[0]);
      assert Accepts(s, evs[0]) ==> evs[0].stmt in AcceptedOne(s, evs[0]) && evs[0].stmt in Accepted(s, evs);
      StaysInside(s, evs[0]);
      assert forall stmt :: stmt in Accepted(s', evs[1..]) ==> stmt in Accepted(s, evs);
      NoWayOut(s', evs[1..]);
    }
  }

  /** In particular while no request names the rule. */
  lemma UntouchedGuardLeavesNoWayOut(s: Session, evs: seq<Event>)
    requires MultiGuard(s.rules) && LeavesGuard(evs) && Holds2(s.tcl)
    requires forall stmt :: stmt in Accepted(s, evs) ==> !IsOpen(stmt)
    ensures var t := Play(s, evs).tcl; t.inTxn && t.ddlCount >= s.tcl.ddlCount
  {
    UntouchedGuardStays(s, evs);
    NoWayOut(s, evs);
  }

  // ---- the trail of a run ---------------------------------------------------------------------

  function KeepBlocking(r: Record): seq<Record> {
    if IsBlockViolation(r) then [r] else []
  }

  /** The blocking violations of a trail, in order. */
  function BlockViolations(history: seq<Record>): seq<Record> {
    FlatMap(KeepBlocking, history)
  }

  /** The last record of the run, when the run is the one of a blocked statement. */
  function LastWord(r: Run): seq<Record> {
    if r.aborted && r.history != [] then [r.history[|r.history| - 1]] else []
  }

  ghost function LastWordOf(s: Session, ev: Event): seq<Record> {
    match ev
    case Call(_, _) => []
    case Utility(stmt, env) => LastWord(Audit(s, stmt, env))
  }

  /** For every blocked statement of the run, in order, the last record it wrote. */
  ghost function LastWords(s: Session, evs: seq<Event>): seq<Record>
    decreases |evs|
  {
    if evs == [] then [] else LastWordOf(s, evs[0]) + LastWords(Step(s, evs[0]), evs[1..])
  }

  ghost function CountRejected(s: Session, evs: seq<Event>): nat
    decreases |evs|
  {
    if evs == [] then 0
    else (if Rejects(s, evs[0]) then 1 else 0) + CountRejected(Step(s, evs[0]), evs[1..])
  }

  ghost predicate AllHonest(evs: seq<Event>) {
    forall ev :: ev in evs && ev.Utility? ==> Honest(ev.stmt)
  }

  lemma HonestSplits(evs: seq<Event>)
    requires AllHonest(evs) && evs != []
    ensures (evs[0].Utility? ==> Honest(evs[0].stmt)) && AllHonest(evs[1..])
  {
    assert evs[0] in evs && forall ev :: ev in evs[1..] ==> ev in evs;
  }

  lemma NoBlockViolations(history: seq<Record>)
    requires forall i :: 0 <= i < |history| ==> !IsBlockViolation(history[i])
    ensures BlockViolations(history) == []
  {
    FlatMapEmpty(KeepBlocking, history);
  }

  /** A blocked statement's records end with its only blocking violation; an accepted one's hold none. */
  predicate WellEnded(own: Run) {
    && (own.aborted ==>
          && own.history != [] && IsBlockViolation(own.history[|own.history| - 1])
          && forall i :: 0 <= i < |own.history| - 1 ==> IsViolation(own.history[i]) && own.history[i].conclusion == Pass)
    && (!own.aborted ==>
          forall i :: 0 <= i < |own.history| ==> LetsPass(own.history[i]) && !IsBlockViolation(own.history[i]))
  }

  lemma BlockViolationsOf(own: Run)
    requires WellEnded(own)
    ensures BlockViolations(own.history) == LastWord(own)
  {
    if own.aborted {
      var init, last := own.history[..|own.history| - 1], own.history[|own.history| - 1];
      NoBlockViolations(init);
      FlatMapAppend(KeepBlocking, init, [last]);
      assert own.history == init + [last];
      assert FlatMap(KeepBlocking, [last]) == KeepBlocking(last);
    } else {
      NoBlockViolations(own.history);
    }
  }

  /** From some point on, every violation that is not a blocking one concludes PASS. */
  ghost predicate OthersPass(history: seq<Record>, start: nat) {
    forall i :: start <= i < |history| ==> IsBlockViolation(history[i]) || LetsPass(history[i])
  }

  lemma OwnRecordsPass(history: seq<Record>, own: Run)
    requires WellEnded(own)
    ensures OthersPass(history + own.history, |history|)
  {
  }

  lemma LastWordStays(history: seq<Record>, own: Run)
    requires own.aborted ==> own.history != []
    ensures LastWord(Run(history + own.history, own.aborted)) == LastWord(own)
  {
  }

  lemma TrailOfActs(rules: Rules, history: seq<Record>, acts: seq<Action>)
    requires Closed(acts)
    ensures var r := Exec(rules, history, acts);
            && |LastWord(r)| == (if r.aborted then 1 else 0)
            && BlockViolations(r.history) == BlockViolations(history) + LastWord(r)
            && history <= r.history && OthersPass(r.history, |history|)
  {
    var own := Exec(rules, [], acts);
    HistoryIsAppended(rules, history, acts);
    TrailShape(rules, acts);
    assert WellEnded(own);
    BlockViolationsOf(own);
    LastWordStays(history, own);
    OwnRecordsPass(history, own);
    FlatMapAppend(KeepBlocking, history, own.history);
  }

  lemma PassExtends(all: seq<Record>, some: seq<Record>, start: nat)
    requires some <= all && OthersPass(some, start) && OthersPass(all, |some|)
    ensures OthersPass(all, start)
  {
    forall i | start <= i < |all|
      ensures IsBlockViolation(all[i]) || LetsPass(all[i])
    {
      assert i < |some| ==> all[i] == some[i];
    }
  }

  /** One statement adds its last record to the blocking violations if it was blocked, and nothing otherwise. */
  lemma TrailStep(s: Session, ev: Event)
    requires ev.Utility? ==> Honest(ev.stmt)
    ensures BlockViolations(Step(s, ev).history) == BlockViolations(s.history) + LastWordOf(s, ev)
    ensures |LastWordOf(s, ev)| == (if Rejects(s, ev) then 1 else 0)
    ensures s.history <= Step(s, ev).history && OthersPass(Step(s, ev).history, |s.history|)
  {
    if ev.Utility? {
      ScriptIsClosed(ev.stmt, ev.env, s.tcl);
      TrailOfActs(s.rules, s.history, Script(ev.stmt, ev.env, s.tcl));
    }
  }

  /**
   * Over any run, the violations with conclusion BLOCK in the trail are, in order, exactly the last
   * records of the blocked statements, one for each; every other violation that the run appends has
   * conclusion PASS.
   */
  lemma {:induction false} TrailIsFaithful(s: Session, evs: seq<Event>)
    requires AllHonest(evs)
    ensures BlockViolations(Play(s, evs).history) == BlockViolations(s.history) + LastWords(s, evs)
    ensures |LastWords(s, evs)| == CountRejected(s, evs)
    ensures s.history <= Play(s, evs).history && OthersPass(Play(s, evs).history, |s.history|)
    decreases |evs|
  {
    if evs != [] {
      HonestSplits(evs);
      var s' := Step(s, evs[0]);
      TrailStep(s, evs[0]);
      TrailIsFaithful(s', evs[1..]);
      Assoc(BlockViolations(s.history), LastWordOf(s, evs[0]), LastWords(s', evs[1..]));
      PassExtends(Play(s, evs).history, s'.history, |s.history|);
    }
  }
}
