/** Every statement attempts exactly the checks of the rulebook and ends with its record (hook_utility.c). */
module RulebookTheorems {
  import opened Core
  import opened Registry
  import opened Verdict
  import opened Ast
  import opened RuleCommon
  import opened Transactions
  import opened Hook
  import opened Statements
  import opened Rulebook
  import opened RulebookParts
  import CreateTable
  import CreateIndex
  import CreateView
  import Program
  import Exists

  // ---- existing objects ---------------------------------------------------------------------------

  lemma RowSays(node: CreateNode)
    ensures var d := Exists.DescOf(node);
            && d.tag == Exists.TagOf(node) && d.objtype == LookedUp(d.tag, Exists.VariantOf(node))
            && (d.hasIne <==> d.tag in {CreateTag, CreateForeignTag, SeqTag, IndexTag, CtasTag, SchemaTag, DefineTag,
                                        ExtensionTag, PublicationTag, ConversionTag, StatsTag})
            && (d.hasNsp <==> d.tag in {CreateTag, CreateForeignTag, ViewTag, SeqTag, IndexTag, CtasTag, CompositeTag,
                                        DefineTag, PolicyTag, ConversionTag, StatsTag})
  {
    Exists.DescriptorIsUnique(node);
  }

  /** The statement is about an existing object exactly when the rulebook says so, kind by kind. */
  lemma ConflictIffTaken(node: CreateNode, env: Env)
    ensures Exists.Conflict(node, env) <==> Taken(node, env)
  {
    RowSays(node);
  }

  lemma IneIffTolerant(node: CreateNode)
    ensures Exists.IneOf(node) <==> Tolerant(node)
  {
    RowSays(node);
  }

  // ---- what is attempted ----------------------------------------------------------------------------

  lemma SimpleIs(s: SimpleAudit, e: Emission)
    ensures Emit(e) in SimpleActs(s) <==> e in s.checks
  {
    FlatMapMember(OneCheck, s.checks, Emit(e));
  }

  lemma ContentIs(node: CreateNode, env: Env, e: Emission)
    ensures Emit(e) in ContentActs(node, env) <==> BreaksContent(node, env, e)
  {
    match node {
      case Table(t) => if t.relation.Some? { TableBreaksIff(t, t.relation.value, env, e); }
      case ForeignTable(t) => if t.relation.Some? { TableBreaksIff(t, t.relation.value, env, e); }
      case Index(ix) => IndexBreaksIff(ix, env, e);
      case View(v) => ViewBreaksIff(v, env, e);
      case Other(_, _, _, _, _, audit) => SimpleIs(audit, e);
    }
  }

  lemma CreateIs(node: CreateNode, env: Env, e: Emission)
    ensures Emit(e) in CreateActs(node, env)
       <==> if Taken(node, env) then
              e == if Tolerant(node) then Fixed("obj_exists_check", Warning) else Effective("obj_exists_check", Error)
            else BreaksContent(node, env, e)
  {
    ConflictIffTaken(node, env);
    IneIffTolerant(node);
    ContentIs(node, env, e);
  }

  lemma TransactionIs(kind: TxnKind, tcl: Tcl, e: Emission)
    ensures Emit(e) in TxnActs(kind, tcl) <==> BreaksTransaction(kind, tcl.inTxn, tcl.ddlCount, e)
  {
  }

  /** For every statement in every state: the checks attempted are exactly those of the rulebook. */
  lemma AttemptsExactly(stmt: Stmt, env: Env, tcl: Tcl, e: Emission)
    ensures Attempts(stmt, env, tcl, e) <==> Breaks(stmt, env, tcl.inTxn, tcl.ddlCount, e)
  {
    match stmt {
      case Create(node) => CreateIs(node, env, e);
      case Function(f) => FunctionBreaksIff(f, env, e);
      case Transaction(kind, _) => TransactionIs(kind, tcl, e);
      case Simple(audit, _) => SimpleIs(audit, e);
      case Unmapped(_) =>
    }
  }

  /** With distinct ids the level at which a check reports is the one that the rulebook gives. */
  lemma ReportsExactly(rules: Rules, e: Emission, level: Level)
    requires DistinctIds(rules.defs)
    ensures FinalLevel(rules, e) == Some(level) <==> Reports(rules, e, level)
  {
    if k :| 0 <= k < |rules.defs| && rules.defs[k].id == e.rule {
      FindIsExact(rules.defs, k);
    }
  }

  /** For every statement and every configuration: blocked exactly when some rule it breaks reports at WARNING or ERROR. */
  lemma BlockedIffBroken(rules: Rules, stmt: Stmt, env: Env, tcl: Tcl)
    requires DistinctIds(rules.defs)
    ensures Blocked(rules, stmt, env, tcl)
       <==> exists e, level :: Breaks(stmt, env, tcl.inTxn, tcl.ddlCount, e) && Reports(rules, e, level) && level != Notice
  {
    AbortsIffSomeBlocks(rules, [], Script(stmt, env, tcl));
    if Blocked(rules, stmt, env, tcl) {
      var a :| a in Script(stmt, env, tcl) && Blocks(rules, a);
      AttemptsExactly(stmt, env, tcl, a.e);
      ReportsExactly(rules, a.e, FinalLevel(rules, a.e).value);
    }
    if e, level :| Breaks(stmt, env, tcl.inTxn, tcl.ddlCount, e) && Reports(rules, e, level) && level != Notice {
      AttemptsExactly(stmt, env, tcl, e);
      ReportsExactly(rules, e, level);
      assert Blocks(rules, Emit(e));
    }
  }

  /** CREATE TABLE for an existing table, with IF NOT EXISTS and without, in terms of the catalog and the stored entry. */
  lemma ExistingTableDecides(rules: Rules, t: CreateStmt, rel: RangeVar, env: Env, tcl: Tcl, k: nat)
    requires rules.configs.Some? && DistinctIds(rules.defs) && k < |rules.defs| && rules.defs[k].id == "obj_exists_check"
    requires t.relation == Some(rel)
    requires ObjKey(Relation, rel.relname, if rel.schemaname.Some? then rel.schemaname.value else "public") in env.catalog
    ensures var c := rules.configs.value[k];
            Blocked(rules, Create(Table(t)), env, tcl) <==> c.enabled && (t.ifNotExists || c.level != Notice)
  {
    ConflictIffTaken(Table(t), env);
    IneIffTolerant(Table(t));
    ConflictDecides(rules, Table(t), env, tcl);
    FindIsExact(rules.defs, k);
  }

  // ---- redundant indexes ------------------------------------------------------------------------------

  /** The existing index has the named columns of the new one, in some order, and no expression. */
  ghost predicate Permutes(ix: ExistingIndex, params: seq<Option<string>>) {
    None !in ix && forall c: Option<string> :: c.Some? ==> multiset(ix)[c] == multiset(params)[c]
  }

  lemma {:induction false} WrappedIs(params: seq<Option<string>>)
    ensures multiset(CreateIndex.Wrapped(CreateIndex.NamedColumns(params))) == multiset(params)[None := 0]
  {
    if params != [] {
      WrappedIs(params[1..]);
      assert params == [params[0]] + params[1..];
      assert multiset(params) == multiset{params[0]} + multiset(params[1..]);
      var rest := CreateIndex.NamedColumns(params[1..]);
      if params[0].Some? {
        assert CreateIndex.Wrapped([params[0].value] + rest) == [params[0]] + CreateIndex.Wrapped(rest);
      } else {
        assert CreateIndex.NamedColumns(params) == rest;
      }
    }
  }

  lemma PermutesIff(ix: ExistingIndex, params: seq<Option<string>>)
    ensures CreateIndex.SameColumns(ix, CreateIndex.NamedColumns(params)) <==> Permutes(ix, params)
  {
    WrappedIs(params);
    var m := multiset(params)[None := 0];
    assert None in ix <==> multiset(ix)[None] > 0;
    if Permutes(ix, params) {
      forall c: Option<string>
        ensures multiset(ix)[c] == m[c]
      {
      }
    }
  }

  /**
   * CREATE INDEX attempts the redundancy rule, where existing indexes repeat no column, exactly when it is built
   * at once for a free name and no constraint, names a table and a column, and permutes an existing index.
   */
  lemma RedundancyAttemptedIff(stmt: IndexStmt, env: Env, tcl: Tcl)
    requires forall ix :: ix in env.indexes ==> CreateIndex.Distinct(ix)
    ensures Attempts(Create(Index(stmt)), env, tcl, Configured("idx_redundant", Error))
       <==> && !Taken(Index(stmt), env) && !stmt.isConstraint && !stmt.concurrent && stmt.relation.Some?
            && (exists c :: c in stmt.params && c.Some?)
            && (exists ix :: ix in env.indexes && Permutes(ix, stmt.params))
  {
    var e := Configured("idx_redundant", Error);
    AttemptsExactly(Create(Index(stmt)), env, tcl, e);
    RedundantBreaks(stmt, env, e);
    RepeatsIffPermutes(stmt.params, env.indexes);
  }

  lemma RedundantBreaks(stmt: IndexStmt, env: Env, e: Emission)
    requires e == Configured("idx_redundant", Error)
    ensures BreaksIndex(stmt, env, e)
       <==> !stmt.isConstraint && !stmt.concurrent && stmt.relation.Some? && Repeats(stmt.params, env.indexes)
  {
  }

  lemma RepeatsIffPermutes(params: seq<Option<string>>, indexes: seq<ExistingIndex>)
    requires forall ix :: ix in indexes ==> CreateIndex.Distinct(ix)
    ensures Repeats(params, indexes)
       <==> (exists c :: c in params && c.Some?) && exists ix :: ix in indexes && Permutes(ix, params)
  {
    var named := CreateIndex.NamedColumns(params);
    RepeatsIff(params, indexes, Configured("idx_redundant", Error));
    CreateIndex.RedundantIffPermutation(indexes, named);
    forall ix | ix in indexes
      ensures CreateIndex.SameColumns(ix, named) <==> Permutes(ix, params)
    {
      PermutesIff(ix, params);
    }
    forall c: string
      ensures c in named <==> Some(c) in params
    {
      NamedMember(params, c);
    }
    assert named != [] ==> named[0] in named;
  }

  /** The selectivity rule is attempted once for every named column with few values, each time it is named. */
  lemma {:induction false} OneReportPerColumn(distinct: map<string, real>, params: seq<Option<string>>, c: string)
    ensures multiset(CreateIndex.LowSelectivity(distinct, params))[c]
         == if FewValues(distinct, Some(c)) then multiset(params)[Some(c)] else 0
  {
    if params != [] {
      OneReportPerColumn(distinct, params[1..], c);
      assert params == [params[0]] + params[1..];
      assert multiset(params) == multiset{params[0]} + multiset(params[1..]);
      var low, rest := CreateIndex.LowSelectivity(distinct, params), CreateIndex.LowSelectivity(distinct, params[1..]);
      assert CreateIndex.IsLow(distinct, params[0]) <==> FewValues(distinct, params[0]);
      if CreateIndex.IsLow(distinct, params[0]) {
        assert low == [params[0].value] + rest;
      } else {
        assert low == rest;
      }
    }
  }

  // ---- what is recorded ---------------------------------------------------------------------------------

  lemma WriteIsLast(acts: seq<Action>, r: Record)
    requires ClosesLast(acts)
    ensures Write(r) in acts <==> acts != [] && acts[|acts| - 1] == Write(r)
  {
  }

  function RecordOf(c: Option<Closing>): Option<Record> {
    match c
    case None => None
    case Some(c) => Some(MakeRecord(c.stmtType, c.objectName, c.ruleId, c.level))
  }

  lemma SimpleWrites(s: SimpleAudit, r: Record)
    ensures Write(r) in SimpleActs(s) <==> RecordOf(s.closing) == Some(r)
  {
    FlatMapMember(OneCheck, s.checks, Write(r));
  }

  lemma TableWrites(t: CreateStmt, env: Env, r: Record)
    ensures Write(r) in CreateTable.TableActs(t, env)
       <==> t.relation.Some? && r == MakeRecord("CREATE TABLE", Some(t.relation.value.relname), "table", Notice)
  {
    TableIsClosed(t, env);
    WriteIsLast(CreateTable.TableActs(t, env), r);
  }

  lemma IndexWrites(ix: IndexStmt, env: Env, r: Record)
    requires !Taken(Index(ix), env)
    ensures Write(r) in CreateIndex.IndexActs(ix, env) <==> RecordOf(Ending(Create(Index(ix)), env)) == Some(r)
  {
    IndexIsClosed(ix, env);
    WriteIsLast(CreateIndex.IndexActs(ix, env), r);
  }

  lemma ViewWrites(v: ViewStmt, env: Env, r: Record)
    ensures Write(r) in CreateView.ViewActs(v, env)
       <==> v.view.Some? && r == MakeRecord("CREATE VIEW", Some(v.view.value.relname), "view", Notice)
  {
    ViewIsClosed(v, env);
    WriteIsLast(CreateView.ViewActs(v, env), r);
  }

  lemma FunctionEnds(f: FuncStmt, env: Env, name: string)
    requires f.funcname != [] && name == f.funcname[|f.funcname| - 1]
    ensures var acts := Program.FunctionActs(f, env);
            acts != [] && acts[|acts| - 1] == Write(Program.FunctionRecord(f, name))
  {
  }

  lemma FunctionEnding(f: FuncStmt, env: Env, name: string)
    requires f.funcname != [] && name == f.funcname[|f.funcname| - 1]
    ensures RecordOf(Ending(Function(f), env)) == Some(Program.FunctionRecord(f, name))
  {
  }

  lemma FunctionWrites(f: FuncStmt, env: Env, r: Record)
    ensures Write(r) in Program.FunctionActs(f, env) <==> RecordOf(Ending(Function(f), env)) == Some(r)
  {
    FunctionIsClosed(f, env);
    WriteIsLast(Program.FunctionActs(f, env), r);
    if f.funcname != [] {
      FunctionEnds(f, env, f.funcname[|f.funcname| - 1]);
      FunctionEnding(f, env, f.funcname[|f.funcname| - 1]);
    }
  }

  lemma TransactionWrites(kind: TxnKind, chain: bool, env: Env, tcl: Tcl, r: Record)
    ensures Write(r) in TxnActs(kind, tcl) <==> RecordOf(Ending(Transaction(kind, chain), env)) == Some(r)
  {
  }

  lemma CreateWrites(node: CreateNode, env: Env, r: Record)
    ensures Write(r) in CreateActs(node, env) <==> RecordOf(Ending(Create(node), env)) == Some(r)
  {
    ConflictIffTaken(node, env);
    if !Taken(node, env) {
      match node {
        case Table(t) => TableWrites(t, env, r);
        case ForeignTable(t) => TableWrites(t, env, r);
        case Index(ix) => IndexWrites(ix, env, r);
        case View(v) => ViewWrites(v, env, r);
        case Other(_, _, _, _, _, audit) => SimpleWrites(audit, r);
      }
    }
  }

  /** For every statement: the only plain record it can write is the one that the rulebook gives. */
  lemma WritesExactly(stmt: Stmt, env: Env, tcl: Tcl, r: Record)
    ensures Write(r) in Script(stmt, env, tcl) <==> RecordOf(Ending(stmt, env)) == Some(r)
  {
    match stmt {
      case Create(node) => CreateWrites(node, env, r);
      case Function(f) => FunctionWrites(f, env, r);
      case Transaction(kind, chain) => TransactionWrites(kind, chain, env, tcl, r);
      case Simple(audit, _) => SimpleWrites(audit, r);
      case Unmapped(_) =>
    }
  }

  /**
   * An accepted statement leaves a record that concludes BLOCK exactly when its closing record is written at
   * WARNING or ERROR, whatever the rules are set to; that record is then the only one.
   */
  lemma BlockRecordOfAcceptedIff(rules: Rules, stmt: Stmt, env: Env, tcl: Tcl, r: Record)
    requires !Blocked(rules, stmt, env, tcl)
    ensures r in Exec(rules, [], Script(stmt, env, tcl)).history && r.conclusion == Block
       <==> Ending(stmt, env).Some? && Ending(stmt, env).value.level != Notice && RecordOf(Ending(stmt, env)) == Some(r)
  {
    PassedRecord(rules, Script(stmt, env, tcl), r);
    WritesExactly(stmt, env, tcl, r);
  }

  /** An accepted statement whose closing record is due has it as the last record of its trail. */
  lemma AcceptedIsRecorded(rules: Rules, stmt: Stmt, env: Env, tcl: Tcl)
    requires !Blocked(rules, stmt, env, tcl) && Ending(stmt, env).Some?
    ensures RecordOf(Ending(stmt, env)).value in Exec(rules, [], Script(stmt, env, tcl)).history
  {
    var acts, r := Script(stmt, env, tcl), RecordOf(Ending(stmt, env)).value;
    WritesExactly(stmt, env, tcl, r);
    var k := TrailIsPrefix(rules, [], acts);
    assert acts[..k] == acts;
    FlatMapMember(Recorder(rules), acts, r);
    assert r in Recorder(rules)(Write(r));
  }
}
