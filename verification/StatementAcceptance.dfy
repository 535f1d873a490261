/** Which views, indexes and functions the standard configuration accepts (rule_ddl.c, rule_program.c). */
module StatementAcceptance {
  import opened Core
  import opened Registry
  import opened Verdict
  import opened Ast
  import opened RuleCommon
  import opened Statements
  import opened Transactions
  import opened Acceptance
  import Text
  import CreateIndex
  import CreateView
  import Exists
  import Program

  lemma CalmRecord(rules: Rules, rec: Record)
    ensures Calm(rules, [Write(rec)])
  {
  }

  lemma CalmThree(rules: Rules, a: seq<Action>, b: seq<Action>, c: seq<Action>)
    ensures Calm(rules, a + (b + c)) <==> Calm(rules, a) && Calm(rules, b) && Calm(rules, c)
  {
    CalmBoth(rules, b, c);
    CalmBoth(rules, a, b + c);
  }

  // ---- views ---------------------------------------------------------------------------------------

  /** No operand of the set operations lists a star; the top level neither sorts nor nests. */
  predicate GoodQuery(query: Option<SelectStmt>) {
    && (forall o :: o in CreateView.Operands(query) ==> !CreateView.ListsStar(o.targetList))
    && (query.Some? ==> !query.value.sorted && !CreateView.FromNests(query.value.fromClause))
  }

  lemma CalmShape(rules: Rules, sorted: bool, nests: bool)
    requires Standard(rules)
    ensures Calm(rules, When(sorted, Err("view_order_by")) + When(nests, Adv("view_nested"))) <==> !sorted && !nests
  {
    CalmCheck(rules, ViewOrderBy, sorted, Err("view_order_by"));
    CalmCheck(rules, ViewNested, nests, Adv("view_nested"));
    CalmBoth(rules, When(sorted, Err("view_order_by")), When(nests, Adv("view_nested")));
  }

  lemma CalmQuery(rules: Rules, query: Option<SelectStmt>)
    requires Standard(rules)
    ensures Calm(rules, CreateView.QueryActs(query)) <==> GoodQuery(query)
  {
    var sorted, nests := query.Some? && query.value.sorted, query.Some? && CreateView.FromNests(query.value.fromClause);
    CalmShape(rules, sorted, nests);
    CalmCheck(rules, ViewSelectStar, CreateView.HasStar(query), Err("view_select_star"));
    CalmBoth(rules, When(CreateView.HasStar(query), Err("view_select_star")),
             When(sorted, Err("view_order_by")) + When(nests, Adv("view_nested")));
    CreateView.StarIffSomeOperand(query);
  }

  lemma CalmView(rules: Rules, stmt: ViewStmt, env: Env, name: string)
    requires Standard(rules) && stmt.view.Some? && name == stmt.view.value.relname
    ensures Calm(rules, CreateView.ViewActs(stmt, env))
       <==> LegalName(env.reserved, name) && HasPrefix(name, "vw_") && GoodQuery(stmt.query)
  {
    var rec := MakeRecord("CREATE VIEW", Some(name), "view", Notice);
    var query, prefix := CreateView.QueryActs(stmt.query), PrefixActs(Some(name), "vw_", "name_vw_prefix");
    CalmName(rules, env.reserved, name);
    CalmPrefix(rules, VwPrefix, name, "vw_");
    CalmQuery(rules, stmt.query);
    CalmRecord(rules, rec);
    CalmThree(rules, prefix, query, [Write(rec)]);
    CalmBoth(rules, NameActs(env.reserved, Some(name)), prefix + (query + [Write(rec)]));
    ViewParts(stmt, env, name);
  }

  lemma ViewParts(stmt: ViewStmt, env: Env, name: string)
    requires stmt.view.Some? && name == stmt.view.value.relname
    ensures CreateView.ViewActs(stmt, env)
         == NameActs(env.reserved, Some(name))
            + (PrefixActs(Some(name), "vw_", "name_vw_prefix")
               + (CreateView.QueryActs(stmt.query) + [Write(MakeRecord("CREATE VIEW", Some(name), "view", Notice))]))
  {
  }

  /** A CREATE VIEW whose name is free is accepted exactly when its name and its query follow the standard. */
  lemma ViewAcceptedIff(rules: Rules, stmt: ViewStmt, env: Env, tcl: Tcl, name: string)
    requires Standard(rules) && stmt.view.Some? && name == stmt.view.value.relname
    requires !Exists.Conflict(View(stmt), env)
    ensures !Blocked(rules, Create(View(stmt)), env, tcl)
       <==> LegalName(env.reserved, name) && HasPrefix(name, "vw_") && GoodQuery(stmt.query)
  {
    AbortsIffSomeBlocks(rules, [], CreateView.ViewActs(stmt, env));
    CalmView(rules, stmt, env, name);
  }

  lemma FlatClauseHasNoStar(query: SelectStmt)
    requires !CreateView.FromNests(query.fromClause)
    ensures !CreateView.StarInClause(query)
  {
    forall i | 0 <= i < |query.fromClause|
      ensures !CreateView.StarInFrom(query.fromClause[i])
    {
      assert !CreateView.Nests(query.fromClause[i]);
    }
  }

  /**
   * Which views that contain a star somewhere are accepted: those of which no operand lists it and whose
   * top level neither sorts nor nests in FROM. The star then stands in FROM of another operand, in the
   * WITH clause or in an expression.
   */
  lemma StarViewAcceptedIff(rules: Rules, stmt: ViewStmt, env: Env, tcl: Tcl, name: string, query: SelectStmt)
    requires Standard(rules) && stmt.view.Some? && name == stmt.view.value.relname && stmt.query == Some(query)
    requires !Exists.Conflict(View(stmt), env) && CreateView.StarAnywhere(query)
    ensures !Blocked(rules, Create(View(stmt)), env, tcl)
       <==> LegalName(env.reserved, name) && HasPrefix(name, "vw_")
            && (forall o :: o in CreateView.Operands(Some(query)) ==> !CreateView.ListsStar(o.targetList))
            && !query.sorted && !CreateView.FromNests(query.fromClause)
    ensures !Blocked(rules, Create(View(stmt)), env, tcl) ==>
              exists o :: o in CreateView.Operands(Some(query))
                          && (CreateView.StarInOthers(o) || (o != query && CreateView.StarInClause(o)))
  {
    ViewAcceptedIff(rules, stmt, env, tcl, name);
    CreateView.StarIffSomeOperand(Some(query));
    CreateView.StarsSplit(query);
    if !Blocked(rules, Create(View(stmt)), env, tcl) {
      var o :| o in CreateView.Operands(Some(query)) && (CreateView.StarInClause(o) || CreateView.StarInOthers(o));
      FlatClauseHasNoStar(query);
    }
  }

  function Plain(targets: seq<Target>, from: seq<FromItem>): SelectStmt {
    SelectStmt(targets, from, false, None, None, [])
  }

  /** select a from t union select b from (select * from u) s */
  function HiddenStar(): SelectStmt {
    var inner := Plain([Star], [OtherFrom]);
    SelectStmt([], [], false, Some(Plain([ColumnRef(false)], [OtherFrom])),
               Some(Plain([ColumnRef(false)], [RangeSubselect(inner)])), [])
  }

  lemma HiddenStarParts(query: SelectStmt)
    requires query == HiddenStar()
    ensures CreateView.StarAnywhere(query) && !CreateView.HasStar(Some(query))
    ensures !query.sorted && !CreateView.FromNests(query.fromClause)
  {
    var r := query.rarg.value;
    var inner := r.fromClause[0].query;
    assert inner.targetList[0] == Star && CreateView.IsStar(Star) && Star in inner.targetList;
    assert CreateView.ListsStar(inner.targetList) && CreateView.StarAnywhere(inner);
    assert CreateView.StarInFrom(r.fromClause[0]) && CreateView.StarAnywhere(r);
  }

  /** A star in a subquery of one operand passes all checks. */
  lemma HiddenStarIsAccepted(rules: Rules, stmt: ViewStmt, env: Env, tcl: Tcl, name: string)
    requires Standard(rules) && stmt.view.Some? && name == stmt.view.value.relname && stmt.query == Some(HiddenStar())
    requires !Exists.Conflict(View(stmt), env) && LegalName(env.reserved, name) && HasPrefix(name, "vw_")
    ensures CreateView.StarAnywhere(HiddenStar()) && !Blocked(rules, Create(View(stmt)), env, tcl)
  {
    HiddenStarParts(HiddenStar());
    CreateView.StarIffSomeOperand(Some(HiddenStar()));
    StarViewAcceptedIff(rules, stmt, env, tcl, name, HiddenStar());
  }

  // ---- indexes ---------------------------------------------------------------------------------------

  predicate GoodIndexName(reserved: set<string>, name: Option<string>) {
    name.Some? ==> LegalName(reserved, name.value) && HasPrefix(name.value, "idx_")
  }

  predicate GoodIndex(reserved: set<string>, stmt: IndexStmt) {
    && GoodIndexName(reserved, stmt.idxname)
    && stmt.concurrent
    && (stmt.accessMethod == Some("hash") ==> |stmt.params| <= 1)
    && |stmt.params| <= 5
  }

  lemma CalmIndexName(rules: Rules, reserved: set<string>, name: string)
    requires Standard(rules)
    ensures Calm(rules, NameActs(reserved, Some(name)) + PrefixActs(Some(name), "idx_", "name_idx_prefix"))
       <==> GoodIndexName(reserved, Some(name))
  {
    CalmName(rules, reserved, name);
    CalmPrefix(rules, IdxPrefix, name, "idx_");
    CalmBoth(rules, NameActs(reserved, Some(name)), PrefixActs(Some(name), "idx_", "name_idx_prefix"));
  }

  lemma CalmStatic(rules: Rules, stmt: IndexStmt, env: Env)
    requires Standard(rules)
    ensures Calm(rules, CreateIndex.StaticActs(stmt, env)) <==> GoodIndex(env.reserved, stmt)
  {
    var hash := stmt.accessMethod == Some("hash") && |stmt.params| > 1;
    var a, b, c := When(!stmt.concurrent, Err("idx_concurrently")), When(hash, Err("idx_method")),
                   When(|stmt.params| > 5, Adv("idx_field_count"));
    CalmCheck(rules, IdxConcurrently, !stmt.concurrent, Err("idx_concurrently"));
    CalmCheck(rules, IdxMethod, hash, Err("idx_method"));
    CalmCheck(rules, IdxFieldCount, |stmt.params| > 5, Adv("idx_field_count"));
    CalmThree(rules, a, b, c);
    if stmt.idxname.Some? {
      var name := stmt.idxname.value;
      CalmIndexName(rules, env.reserved, name);
      CalmBoth(rules, NameActs(env.reserved, Some(name)) + PrefixActs(Some(name), "idx_", "name_idx_prefix"), a + (b + c));
    } else {
      CalmBoth(rules, [], a + (b + c));
    }
  }

  lemma CalmIndex(rules: Rules, stmt: IndexStmt, env: Env)
    requires Standard(rules)
    ensures Calm(rules, CreateIndex.IndexActs(stmt, env)) <==> stmt.isConstraint || GoodIndex(env.reserved, stmt)
  {
    if !stmt.isConstraint {
      CalmStatic(rules, stmt, env);
      var rec := MakeRecord("CREATE INDEX (concurrent)", CreateIndex.Subject(stmt), "index", Notice);
      var tail := if stmt.concurrent then [Write(rec)]
        else CreateIndex.CatalogActs(stmt, env) + [Write(MakeRecord("CREATE INDEX", CreateIndex.Subject(stmt), "index", Notice))];
      CalmBoth(rules, CreateIndex.StaticActs(stmt, env), tail);
    }
  }

  /**
   * A CREATE INDEX whose name is free is accepted exactly when it belongs to a constraint or is built
   * concurrently and follows the naming and method rules. The catalog never matters: where it would be
   * consulted, `idx_concurrently` has already stopped the statement.
   */
  lemma IndexAcceptedIff(rules: Rules, stmt: IndexStmt, env: Env, tcl: Tcl)
    requires Standard(rules) && !Exists.Conflict(Index(stmt), env)
    ensures !Blocked(rules, Create(Index(stmt)), env, tcl) <==> stmt.isConstraint || GoodIndex(env.reserved, stmt)
  {
    AbortsIffSomeBlocks(rules, [], CreateIndex.IndexActs(stmt, env));
    CalmIndex(rules, stmt, env);
  }

  // ---- functions ----------------------------------------------------------------------------------------

  predicate GoodParam(reserved: set<string>, p: Param) {
    (p.name.Some? ==> LegalName(reserved, p.name.value)) && GoodType(TypeNameOf(p.argType))
  }

  ghost predicate GoodBody(text: string) {
    && (forall k :: k in Program.DDL_KEYWORDS ==> !Text.OccursNoCase(text, k))
    && (Text.OccursNoCase(text, "declare") ==> Text.OccursNoCase(text, "close"))
    && |text| <= 500
  }

  lemma CalmText(rules: Rules, text: string)
    requires Standard(rules)
    ensures Calm(rules, Program.TextActs(text)) <==> GoodBody(text)
  {
    var ddl, open, long := Program.MentionsDdl(text), Program.LeavesCursorOpen(text), |text| > 500;
    CalmCheck(rules, ProgDdlForbidden, ddl, Adv("prog_ddl_forbidden"));
    CalmCheck(rules, ProgCloseCursor, open, Adv("prog_close_cursor"));
    CalmCheck(rules, ProgBusinessLogic, long, Adv("prog_business_logic"));
    CalmThree(rules, When(ddl, Adv("prog_ddl_forbidden")), When(open, Adv("prog_close_cursor")),
              When(long, Adv("prog_business_logic")));
  }

  lemma CalmParam(rules: Rules, reserved: set<string>, p: Param)
    requires Standard(rules)
    ensures Calm(rules, Program.ParamActs(reserved, p)) <==> GoodParam(reserved, p)
  {
    CalmType(rules, p.argType);
    CalmBoth(rules, Program.MaybeName(reserved, p.name), TypeActs(p.argType));
    if p.name.Some? {
      CalmName(rules, reserved, p.name.value);
    }
  }

  lemma CalmParams(rules: Rules, reserved: set<string>, params: seq<Param>)
    requires Standard(rules)
    ensures Calm(rules, FlatMap(Program.ParamAudit(reserved), params)) <==> forall p :: p in params ==> GoodParam(reserved, p)
  {
    var f := Program.ParamAudit(reserved);
    CalmFlatMap(rules, f, params);
    forall p: Param
      ensures Calm(rules, f(p)) <==> GoodParam(reserved, p)
    {
      CalmParam(rules, reserved, p);
    }
  }

  /** CREATE FUNCTION is accepted exactly when its names, parameter types and examined text follow the standard. */
  lemma FunctionAcceptedIff(rules: Rules, f: FuncStmt, env: Env, tcl: Tcl, name: string)
    requires Standard(rules) && f.funcname != [] && name == f.funcname[|f.funcname| - 1]
    ensures !Blocked(rules, Function(f), env, tcl)
       <==> LegalName(env.reserved, name)
            && (forall p :: p in f.params ==> GoodParam(env.reserved, p))
            && GoodBody(Program.BodyText(f.options, Program.BODY_SIZE))
  {
    var rec := Program.FunctionRecord(f, name);
    var params := FlatMap(Program.ParamAudit(env.reserved), f.params);
    var text := Program.TextActs(Program.BodyText(f.options, Program.BODY_SIZE));
    AbortsIffSomeBlocks(rules, [], Program.FunctionActs(f, env));
    CalmName(rules, env.reserved, name);
    CalmParams(rules, env.reserved, f.params);
    CalmText(rules, Program.BodyText(f.options, Program.BODY_SIZE));
    CalmRecord(rules, rec);
    CalmThree(rules, params, text, [Write(rec)]);
    CalmBoth(rules, NameActs(env.reserved, Some(name)), params + (text + [Write(rec)]));
  }

  /** For a body that fits the buffer this is a condition on the body as written. */
  lemma FittingFunctionAcceptedIff(rules: Rules, f: FuncStmt, env: Env, tcl: Tcl, name: string)
    requires Standard(rules) && f.funcname != [] && name == f.funcname[|f.funcname| - 1]
    requires Program.Fits(f.options, Program.BODY_SIZE)
    ensures !Blocked(rules, Function(f), env, tcl)
       <==> LegalName(env.reserved, name)
            && (forall p :: p in f.params ==> GoodParam(env.reserved, p))
            && GoodBody(Program.FullSource(f.options))
  {
    FunctionAcceptedIff(rules, f, env, tcl, name);
    Program.BodyIsSourceIff(f.options, Program.BODY_SIZE);
  }

  lemma EmptyBodyIsGood()
    ensures GoodBody("")
  {
    assert forall k :: k in Program.DDL_KEYWORDS ==> |k| > 0;
  }

  /**
   * A body in one piece is accepted when it follows the standard, or when it is too long for the buffer:
   * of bodies beyond 500 characters those below the buffer size are blocked and all longer ones pass.
   */
  lemma OnePieceFunctionAcceptedIff(rules: Rules, f: FuncStmt, env: Env, tcl: Tcl, name: string, source: string)
    requires Standard(rules) && f.funcname != [] && name == f.funcname[|f.funcname| - 1]
    requires Program.LastWhole(f.options).None? && Program.Pieces(f.options) == [Some(source)]
    ensures !Blocked(rules, Function(f), env, tcl)
       <==> LegalName(env.reserved, name)
            && (forall p :: p in f.params ==> GoodParam(env.reserved, p))
            && (GoodBody(source) || |source| + 1 >= Program.BODY_SIZE)
  {
    FunctionAcceptedIff(rules, f, env, tcl, name);
    Program.OnePieceBody(f.options, source, Program.BODY_SIZE);
    EmptyBodyIsGood();
  }
}
