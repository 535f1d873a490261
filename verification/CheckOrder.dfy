/** The order in which the checks of one statement are attempted, which decides the one that is reported last. */
module CheckOrder {
  import opened Core
  import opened Registry
  import opened Verdict
  import opened Ast
  import opened RuleCommon
  import opened Transactions
  import opened Hook
  import opened Statements
  import opened Rulebook
  import CreateTable
  import CreateIndex
  import CreateView
  import Program
  import Exists
  import TableTheorems

  /** The stage of each rule among the checks of one name, column, index, view or function. */
  function Stage(rule: string): nat {
    match rule
    case "name_charset" | "name_start" | "name_len" | "name_reserved" => 0
    case "name_idx_prefix" | "name_vw_prefix" | "type_jsonb" | "type_numeric" | "type_varchar" => 1
    case "idx_concurrently" | "view_select_star" | "table_pk_type_serial" | "type_min_size" | "prog_ddl_forbidden" => 2
    case "idx_method" | "view_order_by" | "table_column_not_null" | "prog_close_cursor" => 3
    case "idx_field_count" | "view_nested" | "table_no_reserved_column" | "prog_business_logic" => 4
    case "idx_redundant" => 5
    case "idx_selectivity" => 6
    case _ => 7
  }

  /** The stage of each rule of CREATE TABLE behind the check of the table name: all column rules come last. */
  function TableStage(rule: string): nat {
    match rule
    case "name_tmp_prefix" => 0
    case "dml_array_vs_tmp" => 1
    case "table_pk_required" | "table_pk_name_id" => 2
    case "table_no_foreign_key" => 3
    case "name_pk_prefix" | "name_uk_prefix" | "name_ck_prefix" => 4
    case _ => 5
  }

  /** Names and types of parameters mix; the text of the body comes behind them. */
  function BodyStage(rule: string): nat {
    if Stage(rule) < 2 then 1 else Stage(rule)
  }

  lemma ColumnStages()
    ensures Stage("table_pk_type_serial") == 2 && Stage("type_min_size") == 2
    ensures TableStage("table_pk_type_serial") == 5 && TableStage("type_min_size") == 5
  {
  }

  lemma RestStages()
    ensures Stage("table_column_not_null") == 3 && Stage("table_no_reserved_column") == 4
    ensures TableStage("table_column_not_null") == 5 && TableStage("table_no_reserved_column") == 5
  {
  }

  lemma RedundantStage()
    ensures Stage("idx_redundant") == 5
  {
  }

  lemma SelectivityStage()
    ensures Stage("idx_selectivity") == 6
  {
  }

  lemma CountStage()
    ensures Stage("idx_table_count") == 7
  {
  }

  /** Only checks, at stages that never fall, between the two bounds. */
  ghost predicate Spans(acts: seq<Action>, stage: string -> nat, lo: nat, hi: nat) {
    && (forall i :: 0 <= i < |acts| ==> acts[i].Emit? && lo <= stage(acts[i].e.rule) <= hi)
    && (forall i, j :: 0 <= i < j < |acts| ==> stage(acts[i].e.rule) <= stage(acts[j].e.rule))
  }

  /** The checks follow their stages, and the closing record, if any, comes last. */
  ghost predicate InOrder(acts: seq<Action>, stage: string -> nat) {
    forall i, j :: 0 <= i < j < |acts| ==>
      acts[i].Emit? && (acts[j].Emit? ==> stage(acts[i].e.rule) <= stage(acts[j].e.rule))
  }

  lemma SpanBoth(a: seq<Action>, b: seq<Action>, stage: string -> nat, lo: nat, mid: nat, hi: nat)
    requires Spans(a, stage, lo, mid) && Spans(b, stage, mid, hi) && lo <= mid <= hi
    ensures Spans(a + b, stage, lo, hi)
  {
    var all := a + b;
    forall i | 0 <= i < |all|
      ensures all[i].Emit? && lo <= stage(all[i].e.rule) <= hi
      ensures i < |a| ==> stage(all[i].e.rule) <= mid
      ensures i >= |a| ==> mid <= stage(all[i].e.rule)
    {
      assert i >= |a| ==> all[i] == b[i - |a|];
    }
    forall i, j | 0 <= i < j < |all|
      ensures stage(all[i].e.rule) <= stage(all[j].e.rule)
    {
      assert i >= |a| ==> all[i] == b[i - |a|] && all[j] == b[j - |a|];
    }
  }

  lemma Wider(a: seq<Action>, stage: string -> nat, lo: nat, hi: nat, lo': nat, hi': nat)
    requires Spans(a, stage, lo, hi) && lo' <= lo && hi <= hi'
    ensures Spans(a, stage, lo', hi')
  {
  }

  lemma SpanEnds(a: seq<Action>, rec: Record, stage: string -> nat, hi: nat)
    requires Spans(a, stage, 0, hi)
    ensures InOrder(a + [Write(rec)], stage)
  {
  }

  lemma WhenSpans(cond: bool, act: Action, stage: string -> nat, at: nat)
    requires act.Emit? && stage(act.e.rule) == at
    ensures Spans(When(cond, act), stage, at, at)
  {
  }

  lemma Adjacent(a: seq<Action>, b: seq<Action>, stage: string -> nat, lo: nat, mid: nat, mid': nat, hi: nat)
    requires Spans(a, stage, lo, mid) && Spans(b, stage, mid', hi) && lo <= mid <= mid' <= hi
    ensures Spans(a + b, stage, lo, hi)
  {
    Wider(b, stage, mid', hi, mid, hi);
    SpanBoth(a, b, stage, lo, mid, hi);
  }

  lemma SpanOfWalk<T>(f: T -> seq<Action>, xs: seq<T>, stage: string -> nat, at: nat)
    requires forall x :: x in xs ==> Spans(f(x), stage, at, at)
    ensures Spans(FlatMap(f, xs), stage, at, at)
  {
    var all := FlatMap(f, xs);
    forall i | 0 <= i < |all|
      ensures all[i].Emit? && stage(all[i].e.rule) == at
    {
      FlatMapMember(f, xs, all[i]);
      var x :| x in xs && all[i] in f(x);
    }
  }

  // ---- names and types -------------------------------------------------------------------------

  lemma NameSpans(reserved: set<string>, name: Option<string>)
    ensures Spans(NameActs(reserved, name), Stage, 0, 0)
    ensures Spans(NameActs(reserved, name), TableStage, 5, 5)
  {
  }

  lemma TypeSpansAt(t: Option<TypeName>, stage: string -> nat, at: nat)
    requires stage("type_jsonb") == at && stage("type_numeric") == at && stage("type_varchar") == at
    ensures Spans(TypeActs(t), stage, at, at)
  {
    if TypeNameOf(t).Some? {
      var name := TypeNameOf(t).value;
      var a, b, c := When(name == "json", Adv("type_jsonb")), When(FloatType(name), Adv("type_numeric")),
                     When(FixedCharType(name), Adv("type_varchar"));
      WhenSpans(name == "json", Adv("type_jsonb"), stage, at);
      WhenSpans(FloatType(name), Adv("type_numeric"), stage, at);
      WhenSpans(FixedCharType(name), Adv("type_varchar"), stage, at);
      SpanBoth(b, c, stage, at, at, at);
      SpanBoth(a, b + c, stage, at, at, at);
    }
  }

  lemma TypeSpans(t: Option<TypeName>)
    ensures Spans(TypeActs(t), Stage, 1, 1)
    ensures Spans(TypeActs(t), TableStage, 5, 5)
  {
    TypeSpansAt(t, Stage, 1);
    TypeSpansAt(t, TableStage, 5);
  }

  // ---- CREATE TABLE ------------------------------------------------------------------------------

  lemma KeyTypeSpans(pk: Option<string>, col: ColumnDef, stage: string -> nat, at: nat)
    requires stage("table_pk_type_serial") == at && stage("type_min_size") == at
    ensures Spans(CreateTable.KeyTypeActs(pk, col), stage, at, at)
  {
    var t := TypeNameOf(col.typeName);
    var big, bare := CreateTable.BigInt(t), CreateTable.BareNumeric(col);
    WhenSpans(!CreateTable.SerialType(t), Err("table_pk_type_serial"), stage, at);
    WhenSpans(big, Err("type_min_size"), stage, at);
    WhenSpans(bare, Err("type_min_size"), stage, at);
    SpanBoth(When(big, Err("type_min_size")), When(bare, Err("type_min_size")), stage, at, at, at);
  }

  lemma RestSpans(t: CreateStmt, col: ColumnDef)
    ensures Spans(CreateTable.ColumnRest(t, col), Stage, 3, 4)
    ensures Spans(CreateTable.ColumnRest(t, col), TableStage, 5, 5)
  {
    var nulls, odd := CreateTable.NullActs(t, col), CreateTable.ReservedColumn(col.colname);
    RestStages();
    WhenSpans(!CreateTable.NotNullDeclared(col) && !CreateTable.InPk(t, col), Err("table_column_not_null"), Stage, 3);
    WhenSpans(odd, Adv("table_no_reserved_column"), Stage, 4);
    Adjacent(nulls, When(odd, Adv("table_no_reserved_column")), Stage, 3, 3, 4, 4);
    WhenSpans(!CreateTable.NotNullDeclared(col) && !CreateTable.InPk(t, col), Err("table_column_not_null"), TableStage, 5);
    WhenSpans(odd, Adv("table_no_reserved_column"), TableStage, 5);
    SpanBoth(nulls, When(odd, Adv("table_no_reserved_column")), TableStage, 5, 5, 5);
  }

  /** The rules of one column: name, type, key or size, NOT NULL, placeholder. */
  lemma ColumnOrder(t: CreateStmt, env: Env, col: ColumnDef)
    ensures Spans(CreateTable.ColumnActs(t, env, col), Stage, 0, 4)
    ensures Spans(CreateTable.ColumnActs(t, env, col), TableStage, 5, 5)
  {
    var name, types := NameActs(env.reserved, Some(col.colname)), TypeActs(col.typeName);
    var key, rest := CreateTable.KeyTypeActs(CreateTable.PkColumn(t), col), CreateTable.ColumnRest(t, col);
    NameSpans(env.reserved, Some(col.colname));
    TypeSpans(col.typeName);
    ColumnStages();
    KeyTypeSpans(CreateTable.PkColumn(t), col, Stage, 2);
    KeyTypeSpans(CreateTable.PkColumn(t), col, TableStage, 5);
    RestSpans(t, col);
    Adjacent(key, rest, Stage, 2, 2, 3, 4);
    Adjacent(types, key + rest, Stage, 1, 1, 2, 4);
    Adjacent(name, types + (key + rest), Stage, 0, 0, 1, 4);
    SpanBoth(key, rest, TableStage, 5, 5, 5);
    SpanBoth(types, key + rest, TableStage, 5, 5, 5);
    SpanBoth(name, types + (key + rest), TableStage, 5, 5, 5);
  }

  lemma TempSpans(rel: RangeVar)
    ensures Spans(CreateTable.TempActs(rel), TableStage, 0, 1)
  {
  }

  lemma KeySpans(t: CreateStmt)
    ensures Spans(CreateTable.KeyActs(CreateTable.PkColumn(t)), TableStage, 2, 2)
    ensures Spans(CreateTable.ForeignActs(t), TableStage, 3, 3)
  {
  }

  lemma PrefixSpans(con: Constraint)
    ensures Spans(CreateTable.PrefixOf(con), TableStage, 4, 4)
  {
  }

  /** Everything CREATE TABLE checks behind the table name, without the closing record. */
  function BehindName(t: CreateStmt, env: Env, rel: RangeVar): seq<Action> {
    CreateTable.TempActs(rel)
    + (CreateTable.KeyActs(CreateTable.PkColumn(t))
       + (CreateTable.ForeignActs(t)
          + (FlatMap(CreateTable.PrefixOf, CreateTable.AllConstraints(t))
             + FlatMap(CreateTable.ColumnAudit(t, env), CreateTable.Columns(t)))))
  }

  lemma BehindNameSpans(t: CreateStmt, env: Env, rel: RangeVar)
    ensures Spans(BehindName(t, env, rel), TableStage, 0, 5)
  {
    var temp, key, foreign := CreateTable.TempActs(rel), CreateTable.KeyActs(CreateTable.PkColumn(t)), CreateTable.ForeignActs(t);
    var names := FlatMap(CreateTable.PrefixOf, CreateTable.AllConstraints(t));
    var cols := FlatMap(CreateTable.ColumnAudit(t, env), CreateTable.Columns(t));
    TempSpans(rel);
    KeySpans(t);
    forall con: Constraint ensures Spans(CreateTable.PrefixOf(con), TableStage, 4, 4) { PrefixSpans(con); }
    SpanOfWalk(CreateTable.PrefixOf, CreateTable.AllConstraints(t), TableStage, 4);
    forall col: ColumnDef ensures Spans(CreateTable.ColumnAudit(t, env)(col), TableStage, 5, 5) { ColumnOrder(t, env, col); }
    SpanOfWalk(CreateTable.ColumnAudit(t, env), CreateTable.Columns(t), TableStage, 5);
    Adjacent(names, cols, TableStage, 4, 4, 5, 5);
    Adjacent(foreign, names + cols, TableStage, 3, 3, 4, 5);
    Adjacent(key, foreign + (names + cols), TableStage, 2, 2, 3, 5);
    Adjacent(temp, key + (foreign + (names + cols)), TableStage, 0, 1, 2, 5);
  }

  lemma TableSplits(t: CreateStmt, env: Env, rel: RangeVar)
    requires t.relation == Some(rel)
    ensures CreateTable.TableActs(t, env)
         == NameActs(env.reserved, Some(rel.relname))
            + (BehindName(t, env, rel) + [Write(MakeRecord("CREATE TABLE", Some(rel.relname), "table", Notice))])
  {
    var temp, key, foreign := CreateTable.TempActs(rel), CreateTable.KeyActs(CreateTable.PkColumn(t)), CreateTable.ForeignActs(t);
    var names := FlatMap(CreateTable.PrefixOf, CreateTable.AllConstraints(t));
    var cols := FlatMap(CreateTable.ColumnAudit(t, env), CreateTable.Columns(t));
    Regrouped(NameActs(env.reserved, Some(rel.relname)), temp, key, foreign, names, cols,
              [Write(MakeRecord("CREATE TABLE", Some(rel.relname), "table", Notice))]);
  }

  lemma Regrouped<T>(a: seq<T>, b: seq<T>, c: seq<T>, d: seq<T>, e: seq<T>, f: seq<T>, g: seq<T>)
    ensures (a + (b + (c + d))) + (e + (f + g)) == a + ((b + (c + (d + (e + f)))) + g)
  {
    Assoc(e, f, g);
    Assoc(a, b + (c + d), (e + f) + g);
    Assoc(b, c + d, (e + f) + g);
    Assoc(c, d, (e + f) + g);
    var ef := e + f;
    Assoc(d, ef, g);
    Assoc(c, d + ef, g);
    Assoc(b, c + (d + ef), g);
  }

  /**
   * CREATE TABLE: the table name, the temporary-table rules, the key, foreign keys, constraint names, then the
   * columns, and the record last.
   */
  lemma TableOrder(t: CreateStmt, env: Env, rel: RangeVar, behind: seq<Action>)
    requires t.relation == Some(rel) && behind == BehindName(t, env, rel)
    ensures var rec := MakeRecord("CREATE TABLE", Some(rel.relname), "table", Notice);
            && CreateTable.TableActs(t, env) == NameActs(env.reserved, Some(rel.relname)) + (behind + [Write(rec)])
            && InOrder(behind + [Write(rec)], TableStage)
  {
    TableSplits(t, env, rel);
    BehindNameSpans(t, env, rel);
    SpanEnds(behind, MakeRecord("CREATE TABLE", Some(rel.relname), "table", Notice), TableStage, 5);
  }

  // ---- CREATE INDEX, VIEW and FUNCTION ---------------------------------------------------------------

  lemma PrefixIsFirst(name: Option<string>, prefix: string, rule: string)
    requires Stage(rule) == 1
    ensures Spans(PrefixActs(name, prefix, rule), Stage, 1, 1)
  {
    WhenSpans(name.None? || !HasPrefix(name.value, prefix), Err(rule), Stage, 1);
  }

  lemma StaticSpans(stmt: IndexStmt, env: Env)
    ensures Spans(CreateIndex.StaticActs(stmt, env), Stage, 0, 4)
  {
    var hash := stmt.accessMethod == Some("hash") && |stmt.params| > 1;
    var c, m, n := When(!stmt.concurrent, Err("idx_concurrently")), When(hash, Err("idx_method")),
                   When(|stmt.params| > 5, Adv("idx_field_count"));
    WhenSpans(!stmt.concurrent, Err("idx_concurrently"), Stage, 2);
    WhenSpans(hash, Err("idx_method"), Stage, 3);
    WhenSpans(|stmt.params| > 5, Adv("idx_field_count"), Stage, 4);
    Adjacent(m, n, Stage, 3, 3, 4, 4);
    Adjacent(c, m + n, Stage, 2, 2, 3, 4);
    if stmt.idxname.Some? {
      var name, prefix := NameActs(env.reserved, stmt.idxname), PrefixActs(stmt.idxname, "idx_", "name_idx_prefix");
      NameSpans(env.reserved, stmt.idxname);
      PrefixIsFirst(stmt.idxname, "idx_", "name_idx_prefix");
      Adjacent(name, prefix, Stage, 0, 0, 1, 1);
      Adjacent(name + prefix, c + (m + n), Stage, 0, 1, 2, 4);
    } else {
      Wider(c + (m + n), Stage, 2, 4, 0, 4);
      assert [] + (c + (m + n)) == c + (m + n);
    }
  }

  lemma LowSpans(cols: seq<string>)
    ensures Spans(FlatMap(CreateIndex.SelectivityOf, cols), Stage, 6, 6)
  {
    SelectivityStage();
    WhenSpans(true, Err("idx_selectivity"), Stage, 6);
    SpanOfWalk(CreateIndex.SelectivityOf, cols, Stage, 6);
  }

  lemma RedundantSpans(indexes: seq<ExistingIndex>, columns: seq<string>)
    ensures Spans(CreateIndex.RedundantActs(indexes, columns), Stage, 5, 5)
  {
    RedundantStage();
    WhenSpans(columns != [] && exists ix :: ix in indexes && CreateIndex.Reported(ix, columns), Err("idx_redundant"), Stage, 5);
  }

  lemma CatalogSpans(stmt: IndexStmt, env: Env)
    ensures Spans(CreateIndex.CatalogActs(stmt, env), Stage, 5, 7)
  {
    if stmt.relation.Some? {
      var columns, cols := CreateIndex.NamedColumns(stmt.params), CreateIndex.LowSelectivity(env.distinct, stmt.params);
      RedundantSpans(env.indexes, columns);
      LowSpans(cols);
      CountSpans(|env.indexes| > 5);
      ThreeSpans(CreateIndex.RedundantActs(env.indexes, columns), FlatMap(CreateIndex.SelectivityOf, cols),
                 When(|env.indexes| > 5, Adv("idx_table_count")));
    }
  }

  lemma CountSpans(many: bool)
    ensures Spans(When(many, Adv("idx_table_count")), Stage, 7, 7)
  {
    CountStage();
    WhenSpans(many, Adv("idx_table_count"), Stage, 7);
  }

  lemma ThreeSpans(a: seq<Action>, b: seq<Action>, c: seq<Action>)
    requires Spans(a, Stage, 5, 5) && Spans(b, Stage, 6, 6) && Spans(c, Stage, 7, 7)
    ensures Spans(a + (b + c), Stage, 5, 7)
  {
    Adjacent(b, c, Stage, 6, 6, 7, 7);
    Adjacent(a, b + c, Stage, 5, 5, 6, 7);
  }

  /** CREATE INDEX: name, prefix, CONCURRENTLY, method, width; then redundancy, selectivity, number; the record last. */
  lemma IndexOrder(stmt: IndexStmt, env: Env)
    ensures InOrder(CreateIndex.IndexActs(stmt, env), Stage)
  {
    var fixed, catalog := CreateIndex.StaticActs(stmt, env), CreateIndex.CatalogActs(stmt, env);
    StaticSpans(stmt, env);
    CatalogSpans(stmt, env);
    Adjacent(fixed, catalog, Stage, 0, 4, 5, 7);
    var rec := MakeRecord(if stmt.concurrent then "CREATE INDEX (concurrent)" else "CREATE INDEX", CreateIndex.Subject(stmt), "index", Notice);
    SpanEnds(fixed, rec, Stage, 4);
    SpanEnds(fixed + catalog, rec, Stage, 7);
    Assoc(fixed, catalog, [Write(rec)]);
  }

  lemma QuerySpans(query: Option<SelectStmt>)
    ensures Spans(CreateView.QueryActs(query), Stage, 2, 4)
  {
    var star, sorted := CreateView.HasStar(query), query.Some? && query.value.sorted;
    var nests := query.Some? && CreateView.FromNests(query.value.fromClause);
    WhenSpans(star, Err("view_select_star"), Stage, 2);
    WhenSpans(sorted, Err("view_order_by"), Stage, 3);
    WhenSpans(nests, Adv("view_nested"), Stage, 4);
    Adjacent(When(sorted, Err("view_order_by")), When(nests, Adv("view_nested")), Stage, 3, 3, 4, 4);
    Adjacent(When(star, Err("view_select_star")), When(sorted, Err("view_order_by")) + When(nests, Adv("view_nested")), Stage, 2, 2, 3, 4);
  }

  /** CREATE VIEW: name, prefix, star, ORDER BY, nesting; the record last. */
  lemma ViewOrder(stmt: ViewStmt, env: Env)
    ensures InOrder(CreateView.ViewActs(stmt, env), Stage)
  {
    if stmt.view.Some? {
      var name := stmt.view.value.relname;
      var names, prefix := NameActs(env.reserved, Some(name)), PrefixActs(Some(name), "vw_", "name_vw_prefix");
      var query := CreateView.QueryActs(stmt.query);
      var rec := MakeRecord("CREATE VIEW", Some(name), "view", Notice);
      NameSpans(env.reserved, Some(name));
      PrefixIsFirst(Some(name), "vw_", "name_vw_prefix");
      QuerySpans(stmt.query);
      Adjacent(prefix, query, Stage, 1, 1, 2, 4);
      Adjacent(names, prefix + query, Stage, 0, 0, 1, 4);
      SpanEnds(names + (prefix + query), rec, Stage, 4);
      Assoc(prefix, query, [Write(rec)]);
      Assoc(names, prefix + query, [Write(rec)]);
    }
  }

  lemma ParamSpans(reserved: set<string>, p: Param)
    ensures Spans(Program.ParamActs(reserved, p), BodyStage, 1, 1)
  {
    NameSpans(reserved, p.name);
    TypeSpans(p.argType);
  }

  lemma TextSpans(text: string)
    ensures Spans(Program.TextActs(text), BodyStage, 2, 4)
  {
    var ddl, open, long := Program.MentionsDdl(text), Program.LeavesCursorOpen(text), |text| > 500;
    WhenSpans(ddl, Adv("prog_ddl_forbidden"), BodyStage, 2);
    WhenSpans(open, Adv("prog_close_cursor"), BodyStage, 3);
    WhenSpans(long, Adv("prog_business_logic"), BodyStage, 4);
    Adjacent(When(open, Adv("prog_close_cursor")), When(long, Adv("prog_business_logic")), BodyStage, 3, 3, 4, 4);
    Adjacent(When(ddl, Adv("prog_ddl_forbidden")), When(open, Adv("prog_close_cursor")) + When(long, Adv("prog_business_logic")),
             BodyStage, 2, 2, 3, 4);
  }

  /** CREATE FUNCTION: its name, then the parameters, then DDL, cursors and length of the body; the record last. */
  lemma FunctionOrder(f: FuncStmt, env: Env)
    ensures InOrder(Program.FunctionActs(f, env), BodyStage)
  {
    if f.funcname != [] {
      var name := f.funcname[|f.funcname| - 1];
      var names, params := NameActs(env.reserved, Some(name)), FlatMap(Program.ParamAudit(env.reserved), f.params);
      var text, rec := Program.TextActs(Program.BodyText(f.options, Program.BODY_SIZE)), Program.FunctionRecord(f, name);
      NameSpans(env.reserved, Some(name));
      assert Spans(names, BodyStage, 0, 1);
      forall p: Param ensures Spans(Program.ParamAudit(env.reserved)(p), BodyStage, 1, 1) { ParamSpans(env.reserved, p); }
      SpanOfWalk(Program.ParamAudit(env.reserved), f.params, BodyStage, 1);
      TextSpans(Program.BodyText(f.options, Program.BODY_SIZE));
      Adjacent(params, text, BodyStage, 1, 1, 2, 4);
      SpanBoth(names, params + text, BodyStage, 0, 1, 4);
      SpanEnds(names + (params + text), rec, BodyStage, 4);
      Assoc(params, text, [Write(rec)]);
      Assoc(names, params + text, [Write(rec)]);
    }
  }
}
