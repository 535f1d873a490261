/** The ProcessUtility hook: dispatch, then the DDL counter (hook_utility.c). */
module Hook {
  import opened Core
  import opened Verdict
  import opened Ast
  import opened AuditorModule
  import opened Transactions
  import CreateTable
  import CreateIndex
  import CreateView
  import Program
  import Exists

  // ---- what a statement attempts ----------------------------------------------------

  function OneCheck(e: Emission): seq<Action> {
    [Emit(e)]
  }

  function ClosingActs(c: Option<Closing>): seq<Action> {
    match c
    case None => []
    case Some(c) => [Write(MakeRecord(c.stmtType, c.objectName, c.ruleId, c.level))]
  }

  function SimpleActs(s: SimpleAudit): seq<Action> {
    FlatMap(OneCheck, s.checks) + ClosingActs(s.closing)
  }

  function ContentActs(node: CreateNode, env: Env): seq<Action> {
    match node
    case Table(t) => CreateTable.TableActs(t, env)
    case ForeignTable(t) => CreateTable.TableActs(t, env)
    case Index(ix) => CreateIndex.IndexActs(ix, env)
    case View(v) => CreateView.ViewActs(v, env)
    case Other(_, _, _, _, _, audit) => SimpleActs(audit)
  }

  /** An existing object replaces all content rules by one check. */
  function CreateActs(node: CreateNode, env: Env): seq<Action> {
    if Exists.Conflict(node, env) then Exists.ConflictActs(node) else ContentActs(node, env)
  }

  /** The checks and records of a statement. The rule configuration plays no part in it. */
  ghost function Script(stmt: Stmt, env: Env, tcl: Tcl): seq<Action> {
    match stmt
    case Create(node) => CreateActs(node, env)
    case Function(f) => Program.FunctionActs(f, env)
    case Transaction(kind, _) => TxnActs(kind, tcl)
    case Simple(audit, _) => SimpleActs(audit)
    case Unmapped(cmdname) => [Write(MakeRecord(cmdname, None, "echo", Notice))]
  }

  /** Statements that count as DDL once their audit has passed. */
  predicate IsDdl(stmt: Stmt) {
    stmt.Create? || stmt.Function? || (stmt.Simple? && stmt.ddl)
  }

  /** The transaction state after an accepted statement. */
  function NextTcl(stmt: Stmt, tcl: Tcl): Tcl {
    if stmt.Transaction? then AfterTxn(stmt.kind, tcl)
    else if IsDdl(stmt) then AfterDdl(tcl)
    else tcl
  }

  /** C strings of a function body contain no NUL. */
  predicate CleanStrings(stmt: Stmt) {
    stmt.Function? ==> Program.Clean(stmt.func.options)
  }

  // ---- the hook ---------------------------------------------------------------------

  method AuditSimple(a: Auditor, s: SimpleAudit) returns (aborted: bool)
    requires a.Valid()
    modifies a.log, a.log.slots
    ensures a.Valid()
    ensures Run(a.log.history, aborted) == Exec(a.Rules(), old(a.log.history), SimpleActs(s))
  {
    aborted := false;
    ghost var last := ClosingActs(s.closing);
    var i := 0;
    while i < |s.checks|
      invariant 0 <= i <= |s.checks| && a.Valid() && !aborted
      invariant Exec(a.Rules(), old(a.log.history), SimpleActs(s))
             == Exec(a.Rules(), a.log.history, FlatMap(OneCheck, s.checks[i..]) + last)
    {
      ghost var rest := FlatMap(OneCheck, s.checks[i + 1..]);
      assert s.checks[i..][1..] == s.checks[i + 1..];
      assert FlatMap(OneCheck, s.checks[i..]) + last == [Emit(s.checks[i])] + (rest + last);
      ExecAppend(a.Rules(), a.log.history, [Emit(s.checks[i])], rest + last);
      match s.checks[i] {
        case Configured(rule, level) => aborted := a.Emit(level, rule);
        case Fixed(rule, level) => aborted := a.EmitFixed(level, rule);
        case Effective(rule, level) => aborted := a.EmitEffective(level, rule);
      }
      if aborted { return; }
      i := i + 1;
    }
    assert FlatMap(OneCheck, s.checks[i..]) + last == last;
    match s.closing {
      case None =>
      case Some(c) => a.log.Write(c.stmtType, c.objectName, c.ruleId, c.level);
    }
  }

  method AuditContent(a: Auditor, env: Env, node: CreateNode) returns (aborted: bool)
    requires a.Valid()
    modifies a.log, a.log.slots
    ensures a.Valid()
    ensures Run(a.log.history, aborted) == Exec(a.Rules(), old(a.log.history), ContentActs(node, env))
  {
    match node {
      case Table(t) => aborted := CreateTable.AuditCreateTable(a, env, t);
      case ForeignTable(t) => aborted := CreateTable.AuditCreateTable(a, env, t);
      case Index(ix) => aborted := CreateIndex.AuditIndex(a, env, ix);
      case View(v) => aborted := CreateView.AuditView(a, env, v);
      case Other(_, _, _, _, _, audit) => aborted := AuditSimple(a, audit);
    }
  }

  /** Two stages: the existence check, then the content rules unless it hit. */
  method AuditCreate(a: Auditor, env: Env, node: CreateNode) returns (aborted: bool)
    requires a.Valid()
    modifies a.log, a.log.slots
    ensures a.Valid()
    ensures Run(a.log.history, aborted) == Exec(a.Rules(), old(a.log.history), CreateActs(node, env))
  {
    var r;
    r, aborted := Exists.ObjExistsCheck(a, env, node);
    if aborted || r != Exists.CheckPass {
      return;
    }
    aborted := AuditContent(a, env, node);
  }

  /**
   * Audits one utility statement. `stmt` is missing for an empty parse tree.
   * An aborted statement is never executed and never reaches the DDL counter.
   */
  method ProcessUtility(a: Auditor, txn: TxnState, enabled: bool, creatingExtension: bool,
                        stmt: Option<Stmt>, env: Env) returns (aborted: bool)
    requires a.Valid() && (stmt.Some? ==> CleanStrings(stmt.value))
    modifies a.log, a.log.slots, txn
    ensures a.Valid()
    ensures enabled && !creatingExtension && stmt.Some? ==>
              && Run(a.log.history, aborted)
                 == Exec(a.Rules(), old(a.log.history), Script(stmt.value, env, old(txn.View())))
              && txn.View() == if aborted then old(txn.View()) else NextTcl(stmt.value, old(txn.View()))
    ensures !(enabled && !creatingExtension && stmt.Some?) ==>
              !aborted && a.log.history == old(a.log.history) && txn.View() == old(txn.View())
  {
    aborted := false;
    if enabled && stmt.Some? && !creatingExtension {
      match stmt.value {
        case Create(node) =>
          aborted := AuditCreate(a, env, node);
          if aborted { return; }
          txn.NoteDdl();
        case Function(f) =>
          aborted := Program.AuditFunction(a, env, f);
          if aborted { return; }
          txn.NoteDdl();
        case Transaction(kind, _) =>
          aborted := txn.AuditTransaction(a, kind);
        case Simple(audit, ddl) =>
          aborted := AuditSimple(a, audit);
          if aborted { return; }
          if ddl {
            txn.NoteDdl();
          }
        case Unmapped(cmdname) =>
          a.log.Write(cmdname, None, "echo", Notice);
      }
    }
  }
}
