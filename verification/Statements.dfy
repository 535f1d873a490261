/** What the hook guarantees for each single statement, whatever the rules are set to. */
module Statements {
  import opened Core
  import opened Registry
  import opened Verdict
  import opened Ast
  import opened RuleCommon
  import opened Transactions
  import opened Hook
  import CreateIndex
  import CreateView
  import Program
  import Exists
  import CreateTable

  // ---- the shape of every script ---------------------------------------------------------

  ghost predicate OnlyChecks(acts: seq<Action>) {
    forall a :: a in acts ==> a.Emit?
  }

  /** Checks first, then at most one plain record. */
  ghost predicate Closed(acts: seq<Action>) {
    ClosesLast(acts) && PlainWrites(acts)
  }

  lemma ChecksThenClosed(a: seq<Action>, b: seq<Action>)
    requires OnlyChecks(a) && Closed(b)
    ensures Closed(a + b)
  {
    forall i | 0 <= i < |a + b| - 1
      ensures (a + b)[i].Emit?
    {
      if i < |a| {
        assert (a + b)[i] == a[i] && a[i] in a;
      } else {
        assert (a + b)[i] == b[i - |a|];
      }
    }
  }

  lemma FlatMapChecks<T>(f: T -> seq<Action>, xs: seq<T>)
    requires forall x :: x in xs ==> OnlyChecks(f(x))
    ensures OnlyChecks(FlatMap(f, xs))
  {
    forall a | a in FlatMap(f, xs)
      ensures a.Emit?
    {
      FlatMapMember(f, xs, a);
    }
  }

  /** The shape that CREATE TABLE and CREATE FUNCTION share: four blocks of checks and one record. */
  lemma BlocksAreClosed(a: seq<Action>, b: seq<Action>, c: seq<Action>, rec: Record)
    requires OnlyChecks(a) && OnlyChecks(b) && OnlyChecks(c) && LetsPass(rec)
    ensures Closed(a + (b + (c + [Write(rec)])))
  {
    ChecksThenClosed(c, [Write(rec)]);
    ChecksThenClosed(b, c + [Write(rec)]);
    ChecksThenClosed(a, b + (c + [Write(rec)]));
  }

  lemma NoticeIsHarmless(stmtType: string, objectName: Option<string>, ruleId: string)
    ensures LetsPass(MakeRecord(stmtType, objectName, ruleId, Notice))
  {
  }

  lemma HeadChecks(stmt: CreateStmt, env: Env, rel: RangeVar)
    ensures OnlyChecks(CreateTable.HeadActs(stmt, env, rel))
  {
  }

  lemma PrefixChecks(stmt: CreateStmt)
    ensures OnlyChecks(FlatMap(CreateTable.PrefixOf, CreateTable.AllConstraints(stmt)))
  {
    FlatMapChecks(CreateTable.PrefixOf, CreateTable.AllConstraints(stmt));
  }

  lemma Both(a: seq<Action>, b: seq<Action>)
    requires OnlyChecks(a) && OnlyChecks(b)
    ensures OnlyChecks(a + b)
  {
  }

  lemma ColumnParts(stmt: CreateStmt, env: Env, col: ColumnDef, pk: Option<string>)
    ensures OnlyChecks(NameActs(env.reserved, Some(col.colname))) && OnlyChecks(TypeActs(col.typeName))
    ensures OnlyChecks(CreateTable.KeyTypeActs(pk, col)) && OnlyChecks(CreateTable.ColumnRest(stmt, col))
  {
  }

  lemma OneColumnChecks(stmt: CreateStmt, env: Env, col: ColumnDef)
    ensures OnlyChecks(CreateTable.ColumnActs(stmt, env, col))
  {
    var pk := CreateTable.PkColumn(stmt);
    ColumnParts(stmt, env, col, pk);
    var rest := CreateTable.ColumnRest(stmt, col);
    var key := CreateTable.KeyTypeActs(pk, col);
    Both(key, rest);
    Both(TypeActs(col.typeName), key + rest);
    Both(NameActs(env.reserved, Some(col.colname)), TypeActs(col.typeName) + (key + rest));
  }

  lemma ColumnChecks(stmt: CreateStmt, env: Env)
    ensures OnlyChecks(FlatMap(CreateTable.ColumnAudit(stmt, env), CreateTable.Columns(stmt)))
  {
    forall col: ColumnDef
      ensures OnlyChecks(CreateTable.ColumnAudit(stmt, env)(col))
    {
      OneColumnChecks(stmt, env, col);
    }
    FlatMapChecks(CreateTable.ColumnAudit(stmt, env), CreateTable.Columns(stmt));
  }

  lemma TableIsClosed(stmt: CreateStmt, env: Env)
    ensures Closed(CreateTable.TableActs(stmt, env))
  {
    if stmt.relation.Some? {
      var rel := stmt.relation.value;
      HeadChecks(stmt, env, rel);
      PrefixChecks(stmt);
      ColumnChecks(stmt, env);
      NoticeIsHarmless("CREATE TABLE", Some(rel.relname), "table");
      BlocksAreClosed(CreateTable.HeadActs(stmt, env, rel),
                      FlatMap(CreateTable.PrefixOf, CreateTable.AllConstraints(stmt)),
                      FlatMap(CreateTable.ColumnAudit(stmt, env), CreateTable.Columns(stmt)),
                      MakeRecord("CREATE TABLE", Some(rel.relname), "table", Notice));
    }
  }

  lemma CatalogChecks(stmt: IndexStmt, env: Env)
    ensures OnlyChecks(CreateIndex.CatalogActs(stmt, env))
  {
    FlatMapChecks(CreateIndex.SelectivityOf, CreateIndex.LowSelectivity(env.distinct, stmt.params));
  }

  lemma StaticChecks(stmt: IndexStmt, env: Env)
    ensures OnlyChecks(CreateIndex.StaticActs(stmt, env))
  {
  }

  lemma IndexIsClosed(stmt: IndexStmt, env: Env)
    ensures Closed(CreateIndex.IndexActs(stmt, env))
  {
    if !stmt.isConstraint {
      CatalogChecks(stmt, env);
      StaticChecks(stmt, env);
      var last := [Write(MakeRecord("CREATE INDEX", CreateIndex.Subject(stmt), "index", Notice))];
      ChecksThenClosed(CreateIndex.CatalogActs(stmt, env), last);
      var tail := if stmt.concurrent
        then [Write(MakeRecord("CREATE INDEX (concurrent)", CreateIndex.Subject(stmt), "index", Notice))]
        else CreateIndex.CatalogActs(stmt, env) + last;
      ChecksThenClosed(CreateIndex.StaticActs(stmt, env), tail);
    }
  }

  lemma ViewIsClosed(stmt: ViewStmt, env: Env)
    ensures Closed(CreateView.ViewActs(stmt, env))
  {
    if stmt.view.Some? {
      var name := stmt.view.value.relname;
      var last := [Write(MakeRecord("CREATE VIEW", Some(name), "view", Notice))];
      var query := CreateView.QueryActs(stmt.query);
      var prefix := PrefixActs(Some(name), "vw_", "name_vw_prefix");
      ChecksThenClosed(query, last);
      ChecksThenClosed(prefix, query + last);
      ChecksThenClosed(NameActs(env.reserved, Some(name)), prefix + (query + last));
    }
  }

  lemma ParamChecks(reserved: set<string>, params: seq<Param>)
    ensures OnlyChecks(FlatMap(Program.ParamAudit(reserved), params))
  {
    FlatMapChecks(Program.ParamAudit(reserved), params);
  }

  lemma FunctionIsClosed(f: FuncStmt, env: Env)
    ensures Closed(Program.FunctionActs(f, env))
  {
    if f.funcname != [] {
      var name := f.funcname[|f.funcname| - 1];
      var kind := if f.isProcedure then "CREATE PROCEDURE" else "CREATE FUNCTION";
      var text := Program.TextActs(Program.BodyText(f.options, Program.BODY_SIZE));
      var params := FlatMap(Program.ParamAudit(env.reserved), f.params);
      ParamChecks(env.reserved, f.params);
      NoticeIsHarmless(kind, Some(name), "program");
      BlocksAreClosed(NameActs(env.reserved, Some(name)), params, text, MakeRecord(kind, Some(name), "program", Notice));
    }
  }

  lemma SimpleIsClosed(s: SimpleAudit)
    requires HonestAudit(s)
    ensures Closed(SimpleActs(s))
  {
    FlatMapChecks(OneCheck, s.checks);
    ChecksThenClosed(FlatMap(OneCheck, s.checks), ClosingActs(s.closing));
  }

  /** The closing records of the source never use the tag that rule checks use. */
  predicate HonestAudit(s: SimpleAudit) {
    s.closing.Some? ==> CopyStr(Some(s.closing.value.stmtType), STMT_LEN) != "VIOLATION"
  }

  predicate Honest(stmt: Stmt) {
    match stmt
    case Simple(audit, _) => HonestAudit(audit)
    case Create(Other(_, _, _, _, _, audit)) => HonestAudit(audit)
    case _ => true
  }

  /** In every branch of the dispatcher the checks come before the one closing record. */
  lemma ScriptIsClosed(stmt: Stmt, env: Env, tcl: Tcl)
    requires Honest(stmt)
    ensures Closed(Script(stmt, env, tcl))
  {
    match stmt {
      case Create(node) =>
        match node {
          case Table(t) => TableIsClosed(t, env);
          case ForeignTable(t) => TableIsClosed(t, env);
          case Index(ix) => IndexIsClosed(ix, env);
          case View(v) => ViewIsClosed(v, env);
          case Other(_, _, _, _, _, audit) => SimpleIsClosed(audit);
        }
      case Function(f) => FunctionIsClosed(f, env);
      case Transaction(kind, _) => ChecksThenClosed(KindActs(kind, tcl), [Write(MakeRecord("TCL", Some(KindStr(kind)), "tcl", Notice))]);
      case Simple(audit, _) => SimpleIsClosed(audit);
      case Unmapped(_) =>
    }
  }

  // ---- the verdict -----------------------------------------------------------------------

  /** A check is attempted by a statement independently of the rule configuration. */
  ghost predicate Attempts(stmt: Stmt, env: Env, tcl: Tcl, e: Emission) {
    Emit(e) in Script(stmt, env, tcl)
  }

  ghost predicate Blocked(rules: Rules, stmt: Stmt, env: Env, tcl: Tcl) {
    Exec(rules, [], Script(stmt, env, tcl)).aborted
  }

  lemma VerdictOverActs(rules: Rules, acts: seq<Action>)
    ensures Exec(rules, [], acts).aborted
       <==> exists e :: Emit(e) in acts && !Disabled(rules, e.rule)
                        && FinalLevel(rules, e) in {Some(Warning), Some(Error)}
  {
    AbortsIffSomeBlocks(rules, [], acts);
    if Exec(rules, [], acts).aborted {
      var a :| a in acts && Blocks(rules, a);
      assert Emit(a.e) in acts;
    }
    forall e | Emit(e) in acts && FinalLevel(rules, e) in {Some(Warning), Some(Error)}
      ensures exists a :: a in acts && Blocks(rules, a)
    {
      assert Blocks(rules, Emit(e));
    }
  }

  /**
   * A statement is blocked exactly when some check that it attempts has an enabled rule and a final
   * level of WARNING or ERROR, although the code stops at the first one it reaches.
   */
  lemma VerdictRefinement(rules: Rules, stmt: Stmt, env: Env, tcl: Tcl)
    ensures Blocked(rules, stmt, env, tcl)
       <==> exists e :: Attempts(stmt, env, tcl, e) && !Disabled(rules, e.rule)
                        && FinalLevel(rules, e) in {Some(Warning), Some(Error)}
  {
    VerdictOverActs(rules, Script(stmt, env, tcl));
  }

  /** Enabling rules or raising levels never lets a blocked statement pass. */
  lemma StricterRulesBlockMore(a: Rules, b: Rules, stmt: Stmt, env: Env, tcl: Tcl)
    requires Stricter(a, b) && Blocked(a, stmt, env, tcl)
    ensures Blocked(b, stmt, env, tcl)
  {
    VerdictIsMonotone(a, b, [], [], Script(stmt, env, tcl));
  }

  /** Rules that the statement does not check influence neither its outcome nor its records. */
  lemma OtherRulesDoNotMatter(a: Rules, b: Rules, history: seq<Record>, stmt: Stmt, env: Env, tcl: Tcl)
    requires AgreeOn(a, b, Script(stmt, env, tcl))
    ensures Exec(a, history, Script(stmt, env, tcl)) == Exec(b, history, Script(stmt, env, tcl))
  {
    OtherRulesAreIrrelevant(a, b, history, Script(stmt, env, tcl));
  }

  /**
   * A blocked statement leaves violations only, and only the last of them blocks; every violation of an
   * accepted statement concludes PASS.
   */
  lemma TrailOfStatement(rules: Rules, stmt: Stmt, env: Env, tcl: Tcl)
    requires Honest(stmt)
    ensures var r := Exec(rules, [], Script(stmt, env, tcl));
            && (r.aborted ==>
                  && r.history != []
                  && IsBlockViolation(r.history[|r.history| - 1])
                  && forall i :: 0 <= i < |r.history| - 1 ==> IsViolation(r.history[i]) && r.history[i].conclusion == Pass)
            && (!r.aborted ==>
                  forall i :: 0 <= i < |r.history| ==> LetsPass(r.history[i]) && !IsBlockViolation(r.history[i]))
  {
    ScriptIsClosed(stmt, env, tcl);
    TrailShape(rules, Script(stmt, env, tcl));
  }

  lemma LastRecord(rules: Rules, acts: seq<Action>) returns (k: nat, e: Emission)
    requires Exec(rules, [], acts).aborted
    ensures k < |acts| && acts[k] == Emit(e) && IsCut(rules, acts, k) && FinalLevel(rules, e).Some?
    ensures FinalLevel(rules, e).value != Notice
    ensures var h := Exec(rules, [], acts).history; h != [] && h[|h| - 1] == Violation(e.rule, FinalLevel(rules, e).value)
  {
    k := TrailIsPrefix(rules, [], acts);
    e := acts[k].e;
    assert acts[..k + 1] == acts[..k] + [acts[k]];
    FlatMapAppend(Recorder(rules), acts[..k], [acts[k]]);
    assert FlatMap(Recorder(rules), [acts[k]]) == RecordsOf(rules, acts[k]);
  }

  lemma ViolationFields(rule: string, level: Level)
    ensures var r := Violation(rule, level);
            && r.stmtType == "VIOLATION" && r.objectName == "" && Fitted(r.ruleId, rule, 64)
            && r.level == level && (level != Notice ==> r.conclusion == Block)
  {
    FieldsOfRecord("VIOLATION", Some(""), rule, level);
  }

  /**
   * The last record of a blocked statement names the first check that blocks: its rule, no object, and the level
   * at which it reports.
   */
  lemma LastWordNamesTheRule(rules: Rules, stmt: Stmt, env: Env, tcl: Tcl) returns (k: nat, e: Emission)
    requires Blocked(rules, stmt, env, tcl)
    ensures k < |Script(stmt, env, tcl)| && Script(stmt, env, tcl)[k] == Emit(e) && IsCut(rules, Script(stmt, env, tcl), k)
    ensures var r := Exec(rules, [], Script(stmt, env, tcl));
            && r.history != []
            && var last := r.history[|r.history| - 1];
               && last.stmtType == "VIOLATION" && last.objectName == "" && Fitted(last.ruleId, e.rule, 64)
               && FinalLevel(rules, e) == Some(last.level) && last.level != Notice && last.conclusion == Block
  {
    k, e := LastRecord(rules, Script(stmt, env, tcl));
    ViolationFields(e.rule, FinalLevel(rules, e).value);
  }

  // ---- records of accepted statements that conclude BLOCK -------------------------------------

  lemma PassedRecord(rules: Rules, acts: seq<Action>, r: Record)
    requires !Exec(rules, [], acts).aborted
    ensures r in Exec(rules, [], acts).history && r.conclusion == Block <==> Write(r) in acts && r.conclusion == Block
  {
    var k := TrailIsPrefix(rules, [], acts);
    var f := Recorder(rules);
    assert acts[..k] == acts;
    assert [] + FlatMap(f, acts) == FlatMap(f, acts);
    FlatMapMember(f, acts, r);
    if r in FlatMap(f, acts) && r.conclusion == Block {
      var a :| a in acts && r in f(a);
      AbortsIffSomeBlocks(rules, [], acts);
      assert !Blocks(rules, a);
    }
    if Write(r) in acts {
      assert r in f(Write(r));
    }
  }

  // ---- nothing passes silently --------------------------------------------------------------

  predicate SomeAction(s: SimpleAudit) {
    s.checks != [] || s.closing.Some?
  }

  /** What the grammar guarantees about the statement's own names, and the source about its simple audits. */
  predicate WellFormed(stmt: Stmt) {
    match stmt
    case Create(Table(t)) => t.relation.Some?
    case Create(ForeignTable(t)) => t.relation.Some?
    case Create(Index(_)) => true
    case Create(View(v)) => v.view.Some?
    case Create(Other(_, _, _, _, _, audit)) => SomeAction(audit)
    case Function(f) => f.funcname != []
    case Simple(audit, _) => SomeAction(audit)
    case Transaction(_, _) => true
    case Unmapped(_) => true
  }

  lemma ScriptIsNotEmpty(stmt: Stmt, env: Env, tcl: Tcl)
    requires WellFormed(stmt)
    ensures Script(stmt, env, tcl) != []
  {
    match stmt {
      case Create(Other(_, _, _, _, _, audit)) => SimpleIsNotEmpty(audit);
      case Simple(audit, _) => SimpleIsNotEmpty(audit);
      case _ =>
    }
  }

  lemma SimpleIsNotEmpty(s: SimpleAudit)
    requires SomeAction(s)
    ensures SimpleActs(s) != []
  {
    if s.checks != [] {
      assert FlatMap(OneCheck, s.checks) == [Emit(s.checks[0])] + FlatMap(OneCheck, s.checks[1..]);
    }
  }

  predicate SimpleIsSilent(rules: Rules, s: SimpleAudit) {
    s.closing.None? && forall e :: e in s.checks ==> Disabled(rules, e.rule)
  }

  /** The content audit has nothing to look at, or writes no closing record and has all its rules off. */
  predicate ContentIsSilent(rules: Rules, node: CreateNode) {
    match node
    case Table(t) => t.relation.None?
    case ForeignTable(t) => t.relation.None?
    case Index(_) => false
    case View(v) => v.view.None?
    case Other(_, _, _, _, _, audit) => SimpleIsSilent(rules, audit)
  }

  /** When a statement leaves no trace, in terms of the statement and a few switches. */
  predicate IsSilent(rules: Rules, stmt: Stmt, env: Env) {
    match stmt
    case Create(node) =>
      if Exists.Conflict(node, env) then Disabled(rules, "obj_exists_check") else ContentIsSilent(rules, node)
    case Function(f) => f.funcname == []
    case Transaction(_, _) => false
    case Simple(audit, _) => SimpleIsSilent(rules, audit)
    case Unmapped(_) => false
  }

  ghost predicate AllOff(rules: Rules, acts: seq<Action>) {
    forall a :: a in acts ==> a.Emit? && Disabled(rules, a.e.rule)
  }

  lemma RecordIsNotOff(rules: Rules, acts: seq<Action>)
    requires acts != [] && acts[|acts| - 1].Write?
    ensures !AllOff(rules, acts)
  {
    assert acts[|acts| - 1] in acts;
  }

  lemma SimpleOffIff(rules: Rules, s: SimpleAudit)
    ensures AllOff(rules, SimpleActs(s)) <==> SimpleIsSilent(rules, s)
  {
    var checks := FlatMap(OneCheck, s.checks);
    forall a: Action
      ensures a in checks <==> a.Emit? && a.e in s.checks
    {
      FlatMapMember(OneCheck, s.checks, a);
    }
    forall e | e in s.checks
      ensures Emit(e) in SimpleActs(s)
    {
      assert Emit(e) in checks;
    }
    if s.closing.Some? {
      RecordIsNotOff(rules, SimpleActs(s));
    }
  }

  lemma TableOffIff(rules: Rules, stmt: CreateStmt, env: Env)
    ensures AllOff(rules, CreateTable.TableActs(stmt, env)) <==> stmt.relation.None?
  {
    if stmt.relation.Some? {
      RecordIsNotOff(rules, CreateTable.TableActs(stmt, env));
    }
  }

  lemma ViewOffIff(rules: Rules, stmt: ViewStmt, env: Env)
    ensures AllOff(rules, CreateView.ViewActs(stmt, env)) <==> stmt.view.None?
  {
    if stmt.view.Some? {
      RecordIsNotOff(rules, CreateView.ViewActs(stmt, env));
    }
  }

  lemma IndexIsNotOff(rules: Rules, stmt: IndexStmt, env: Env)
    ensures !AllOff(rules, CreateIndex.IndexActs(stmt, env))
  {
    RecordIsNotOff(rules, CreateIndex.IndexActs(stmt, env));
  }

  lemma ContentOffIff(rules: Rules, node: CreateNode, env: Env)
    ensures AllOff(rules, ContentActs(node, env)) <==> ContentIsSilent(rules, node)
  {
    match node {
      case Other(_, _, _, _, _, audit) => SimpleOffIff(rules, audit);
      case Table(t) => TableOffIff(rules, t, env);
      case ForeignTable(t) => TableOffIff(rules, t, env);
      case Index(ix) => IndexIsNotOff(rules, ix, env);
      case View(v) => ViewOffIff(rules, v, env);
    }
  }

  lemma ConflictOffIff(rules: Rules, node: CreateNode)
    ensures AllOff(rules, Exists.ConflictActs(node)) <==> Disabled(rules, "obj_exists_check")
  {
    var acts := Exists.ConflictActs(node);
    assert acts[0] in acts;
  }

  lemma CreateOffIff(rules: Rules, node: CreateNode, env: Env)
    ensures AllOff(rules, CreateActs(node, env))
       <==> if Exists.Conflict(node, env) then Disabled(rules, "obj_exists_check") else ContentIsSilent(rules, node)
  {
    ConflictOffIff(rules, node);
    ContentOffIff(rules, node, env);
  }

  lemma FunctionOffIff(rules: Rules, f: FuncStmt, env: Env)
    ensures AllOff(rules, Program.FunctionActs(f, env)) <==> f.funcname == []
  {
    if f.funcname != [] {
      RecordIsNotOff(rules, Program.FunctionActs(f, env));
    }
  }

  /**
   * A statement passes without a trace exactly when it names an existing object while the existence rule
   * is off, or has no closing record and all its rules off.
   */
  lemma SilentPassIff(rules: Rules, stmt: Stmt, env: Env, tcl: Tcl)
    ensures Exec(rules, [], Script(stmt, env, tcl)).history == [] <==> IsSilent(rules, stmt, env)
  {
    SilentIffAllDisabled(rules, Script(stmt, env, tcl));
    assert Exec(rules, [], Script(stmt, env, tcl)).history == [] <==> AllOff(rules, Script(stmt, env, tcl));
    match stmt {
      case Create(node) => CreateOffIff(rules, node, env);
      case Simple(audit, _) => SimpleOffIff(rules, audit);
      case Function(f) => FunctionOffIff(rules, f, env);
      case _ => RecordIsNotOff(rules, Script(stmt, env, tcl));
    }
  }

  predicate AllEnabled(rules: Rules) {
    rules.configs.Some? ==> forall i :: 0 <= i < |rules.configs.value| ==> rules.configs.value[i].enabled
  }

  /** With all rules enabled every well-formed statement makes the trail longer. */
  lemma NoSilentPass(rules: Rules, stmt: Stmt, env: Env, tcl: Tcl, history: seq<Record>)
    requires AllEnabled(rules) && WellFormed(stmt)
    ensures |Exec(rules, history, Script(stmt, env, tcl)).history| > |history|
  {
    var acts := Script(stmt, env, tcl);
    ScriptIsNotEmpty(stmt, env, tcl);
    SilentIffAllDisabled(rules, acts);
    assert acts[0] in acts;
    HistoryIsAppended(rules, history, acts);
  }

  // ---- the existence check -------------------------------------------------------------------

  /**
   * For an object that already exists only the existence rule decides. With IF NOT EXISTS its configured
   * level is irrelevant: the statement is blocked exactly when the rule is enabled. Without it the
   * configured level decides. No content rule is consulted, even when the existence rule is off.
   */
  lemma ConflictDecides(rules: Rules, node: CreateNode, env: Env, tcl: Tcl)
    requires Exists.Conflict(node, env)
    ensures Blocked(rules, Create(node), env, tcl)
       <==> !Disabled(rules, "obj_exists_check")
            && (Exists.IneOf(node) || Blocking(EffectiveLevel(rules, "obj_exists_check", Error)))
    ensures Disabled(rules, "obj_exists_check") ==>
              Exec(rules, [], Script(Create(node), env, tcl)) == Run([], false)
  {
    var acts := Script(Create(node), env, tcl);
    assert acts == Exists.ConflictActs(node) && acts[1..] == [];
    AbortsIffSomeBlocks(rules, [], acts);
    assert acts[0] in acts;
  }
}
