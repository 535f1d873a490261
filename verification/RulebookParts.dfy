/** The checks shared by several statements, and those of single blocks, against the rulebook. */
module RulebookParts {
  import opened Core
  import opened Verdict
  import opened Ast
  import opened RuleCommon
  import opened Rulebook
  import CreateTable
  import CreateIndex
  import CreateView
  import Program
  import Text

  lemma WhenIs(cond: bool, act: Action, e: Emission)
    ensures Emit(e) in When(cond, act) <==> cond && act == Emit(e)
  {
  }

  // ---- names and types -----------------------------------------------------------------------

  lemma NameIs(reserved: set<string>, name: string, e: Emission)
    ensures Emit(e) in NameActs(reserved, Some(name)) <==> BreaksName(reserved, name, e)
  {
  }

  lemma PrefixIs(name: string, prefix: string, rule: string, e: Emission)
    ensures Emit(e) in PrefixActs(Some(name), prefix, rule) <==> e == Configured(rule, Error) && !Begins(name, prefix)
  {
  }

  lemma TypeIs(t: Option<TypeName>, e: Emission)
    ensures Emit(e) in TypeActs(t) <==> BreaksType(t, e)
  {
  }

  // ---- CREATE TABLE: what the walks over the elements find -----------------------------------------

  lemma DeclaredIs(t: CreateStmt, con: Constraint)
    ensures con in CreateTable.AllConstraints(t) <==> Declares(t, con)
  {
    FlatMapMember(CreateTable.EltConstraints, t.tableElts, con);
    if elt :| elt in t.tableElts && con in CreateTable.EltConstraints(elt) {
      match elt {
        case TableConstraint(c) =>
        case Column(col) => assert Column(col) in t.tableElts;
      }
    }
    if TableConstraint(con) in t.tableElts {
      assert con in CreateTable.EltConstraints(TableConstraint(con));
    }
    if col :| Column(col) in t.tableElts && con in col.constraints {
      assert con in CreateTable.EltConstraints(Column(col));
    }
  }

  lemma {:induction false} ColumnIs(elts: seq<TableElt>, col: ColumnDef)
    ensures col in CreateTable.ColumnsOf(elts) <==> Column(col) in elts
  {
    if elts != [] {
      ColumnIs(elts[1..], col);
      assert elts == [elts[0]] + elts[1..];
    }
  }

  ghost predicate FirstIs<T>(f: T -> seq<string>, xs: seq<T>, k: string) {
    exists i :: 0 <= i < |xs| && f(xs[i]) == [k] && forall j :: 0 <= j < i ==> f(xs[j]) == []
  }

  /** The head of a concatenation of short lists is the first that is not empty. */
  lemma {:induction false} HeadOfWalk<T>(f: T -> seq<string>, xs: seq<T>, k: string)
    requires forall x :: |f(x)| <= 1
    ensures FlatMap(f, xs) != [] && FlatMap(f, xs)[0] == k <==> FirstIs(f, xs, k)
  {
    if xs != [] {
      var rest := xs[1..];
      HeadOfWalk(f, rest, k);
      if f(xs[0]) == [] {
        if i :| 0 <= i < |rest| && f(rest[i]) == [k] && forall j :: 0 <= j < i ==> f(rest[j]) == [] {
          assert xs[i + 1] == rest[i];
          assert forall j :: 0 <= j < i + 1 ==> f(xs[j]) == [] by {
            forall j | 0 <= j < i + 1 ensures f(xs[j]) == [] {
              assert j > 0 ==> xs[j] == rest[j - 1];
            }
          }
        }
        if i :| 0 <= i < |xs| && f(xs[i]) == [k] && forall j :: 0 <= j < i ==> f(xs[j]) == [] {
          assert i > 0 && rest[i - 1] == xs[i];
          assert forall j :: 0 <= j < i - 1 ==> rest[j] == xs[j + 1];
        }
      } else {
        assert FirstIs(f, xs, k) <==> f(xs[0]) == [k];
      }
    }
  }

  lemma KeyOfConstraint(con: Constraint, k: string)
    ensures CreateTable.PkOfConstraint(con) == [k] <==> KeyFrom(con, k)
    ensures CreateTable.PkOfConstraint(con) == [] <==> forall k' :: !KeyFrom(con, k')
  {
    if con.contype.Primary? && |con.keys| > 0 {
      assert KeyFrom(con, con.keys[0]);
    }
  }

  lemma KeyOfElt(elt: TableElt, k: string)
    ensures CreateTable.PkOfElt(elt) == [k] <==> EltKeyFrom(elt, k)
    ensures CreateTable.PkOfElt(elt) == [] <==> forall k' :: !EltKeyFrom(elt, k')
  {
    match elt {
      case TableConstraint(con) =>
        KeyOfConstraint(con, k);
        assert forall k' :: EltKeyFrom(elt, k') == KeyFrom(con, k');
      case Column(col) =>
        if CreateTable.HasPrimary(col) {
          assert EltKeyFrom(elt, col.colname);
        }
    }
  }

  /** The column that the audit takes for the key is the one that the rulebook names. */
  lemma LeadIs(t: CreateStmt, k: string)
    ensures CreateTable.PkColumn(t) == Some(k) <==> LeadsKey(t, k)
  {
    var f, g := CreateTable.PkOfConstraint, CreateTable.PkOfElt;
    HeadOfWalk(f, t.constraints, k);
    HeadOfWalk(g, t.tableElts, k);
    FlatMapEmpty(f, t.constraints);
    forall con: Constraint
      ensures f(con) == [k] <==> KeyFrom(con, k)
      ensures f(con) == [] <==> forall k' :: !KeyFrom(con, k')
    {
      KeyOfConstraint(con, k);
    }
    forall elt: TableElt
      ensures g(elt) == [k] <==> EltKeyFrom(elt, k)
      ensures g(elt) == [] <==> forall k' :: !EltKeyFrom(elt, k')
    {
      KeyOfElt(elt, k);
    }
  }

  lemma KeyColumnIs(t: CreateStmt, col: ColumnDef)
    ensures CreateTable.InPk(t, col) <==> KeyColumn(t, col)
  {
    forall con: Constraint
      ensures con in CreateTable.TableConstraints(t) <==> con in t.constraints || TableConstraint(con) in t.tableElts
    {
      CreateTable.ConstraintMember(t.tableElts, con);
    }
  }

  // ---- CREATE TABLE: one column --------------------------------------------------------------------

  lemma SerialIs(t: Option<TypeName>)
    ensures CreateTable.SerialType(TypeNameOf(t)) <==> SerialTyped(t)
  {
  }

  lemma KeyTypeIs(t: CreateStmt, col: ColumnDef, e: Emission)
    ensures Emit(e) in CreateTable.KeyTypeActs(CreateTable.PkColumn(t), col)
       <==> (e == Configured("table_pk_type_serial", Error) && LeadsKey(t, col.colname)
             && !SerialTyped(col.typeName))
            || (e == Configured("type_min_size", Error) && !LeadsKey(t, col.colname)
                && (Typed(col.typeName, "bigint") || Typed(col.typeName, "int8")
                    || (Typed(col.typeName, "numeric") && !col.typeName.value.hasTypmods)))
  {
    LeadIs(t, col.colname);
    SerialIs(col.typeName);
    var type_ := TypeNameOf(col.typeName);
    WhenIs(!CreateTable.SerialType(type_), Err("table_pk_type_serial"), e);
    WhenIs(CreateTable.BigInt(type_), Err("type_min_size"), e);
    WhenIs(CreateTable.BareNumeric(col), Err("type_min_size"), e);
  }

  lemma TokenIs(name: string, token: string)
    ensures Text.StrStr(name, token).Some? <==> Contains(name, token)
  {
    Text.StrStrFromIsFirst(name, token, 0);
  }

  lemma ReservedIs(name: string)
    ensures CreateTable.ReservedColumn(name) <==> HoldsPlaceholder(name)
  {
    forall token: string
      ensures Text.StrStr(name, token).Some? <==> Contains(name, token)
    {
      TokenIs(name, token);
    }
    var tokens := CreateTable.RESERVED_TOKENS;
    assert tokens == [tokens[0], tokens[1], tokens[2], tokens[3], tokens[4], tokens[5], tokens[6], tokens[7]];
    assert CreateTable.ReservedColumn(name) <==> exists i :: 0 <= i < 8 && Text.StrStr(name, tokens[i]).Some?;
  }

  lemma RestIs(t: CreateStmt, col: ColumnDef, e: Emission)
    ensures Emit(e) in CreateTable.ColumnRest(t, col)
       <==> (e == Configured("table_column_not_null", Error) && !col.isNotNull && !KeyColumn(t, col)
             && !(exists con :: con in col.constraints && con.contype.NotNull?))
            || (e == Configured("table_no_reserved_column", Warning)
                && HoldsPlaceholder(col.colname))
  {
    KeyColumnIs(t, col);
    ReservedIs(col.colname);
  }

  lemma ColumnBreaksIff(t: CreateStmt, env: Env, col: ColumnDef, e: Emission)
    ensures Emit(e) in CreateTable.ColumnActs(t, env, col) <==> BreaksColumn(t, env, col, e)
  {
    NameIs(env.reserved, col.colname, e);
    TypeIs(col.typeName, e);
    KeyTypeIs(t, col, e);
    RestIs(t, col, e);
  }

  // ---- CREATE TABLE: the statement -----------------------------------------------------------------

  lemma ConstraintNameIs(con: Constraint, e: Emission)
    ensures Emit(e) in CreateTable.PrefixOf(con) <==> BreaksConstraintName(con, e)
  {
    if con.conname.Some? {
      PrefixIs(con.conname.value, "pk_", "name_pk_prefix", e);
      PrefixIs(con.conname.value, "uk_", "name_uk_prefix", e);
      PrefixIs(con.conname.value, "ck_", "name_ck_prefix", e);
    }
  }

  lemma ConstraintNamesAre(t: CreateStmt, e: Emission)
    ensures Emit(e) in FlatMap(CreateTable.PrefixOf, CreateTable.AllConstraints(t))
       <==> exists con :: Declares(t, con) && BreaksConstraintName(con, e)
  {
    FlatMapMember(CreateTable.PrefixOf, CreateTable.AllConstraints(t), Emit(e));
    forall con: Constraint
      ensures con in CreateTable.AllConstraints(t) && Emit(e) in CreateTable.PrefixOf(con)
         <==> Declares(t, con) && BreaksConstraintName(con, e)
    {
      DeclaredIs(t, con);
      ConstraintNameIs(con, e);
    }
  }

  lemma ColumnsAre(t: CreateStmt, env: Env, e: Emission)
    ensures Emit(e) in FlatMap(CreateTable.ColumnAudit(t, env), CreateTable.Columns(t))
       <==> exists col :: Column(col) in t.tableElts && BreaksColumn(t, env, col, e)
  {
    FlatMapMember(CreateTable.ColumnAudit(t, env), CreateTable.Columns(t), Emit(e));
    forall col: ColumnDef
      ensures col in CreateTable.Columns(t) && Emit(e) in CreateTable.ColumnAudit(t, env)(col)
         <==> Column(col) in t.tableElts && BreaksColumn(t, env, col, e)
    {
      ColumnIs(t.tableElts, col);
      ColumnBreaksIff(t, env, col, e);
    }
  }

  lemma KeyIs(t: CreateStmt, e: Emission)
    ensures Emit(e) in CreateTable.KeyActs(CreateTable.PkColumn(t))
       <==> (e == Configured("table_pk_required", Error) && !exists k :: LeadsKey(t, k))
            || (e == Configured("table_pk_name_id", Error) && exists k :: k != "id" && LeadsKey(t, k))
  {
    forall k: string
      ensures CreateTable.PkColumn(t) == Some(k) <==> LeadsKey(t, k)
    {
      LeadIs(t, k);
    }
  }

  lemma ForeignIs(t: CreateStmt, e: Emission)
    ensures Emit(e) in CreateTable.ForeignActs(t)
       <==> e == Configured("table_no_foreign_key", Error) && exists con :: Declares(t, con) && con.contype.Foreign?
  {
    forall con: Constraint
      ensures con in CreateTable.AllConstraints(t) <==> Declares(t, con)
    {
      DeclaredIs(t, con);
    }
  }

  lemma TempIs(rel: RangeVar, e: Emission)
    ensures Emit(e) in CreateTable.TempActs(rel)
       <==> (e == Configured("name_tmp_prefix", Error) && rel.temp && !Begins(rel.relname, "tmp"))
            || (e == Configured("dml_array_vs_tmp", Notice) && rel.temp)
  {
  }

  lemma TableBreaksIff(t: CreateStmt, rel: RangeVar, env: Env, e: Emission)
    requires t.relation == Some(rel)
    ensures Emit(e) in CreateTable.TableActs(t, env) <==> BreaksTable(t, rel, env, e)
  {
    NameIs(env.reserved, rel.relname, e);
    TempIs(rel, e);
    KeyIs(t, e);
    ForeignIs(t, e);
    ConstraintNamesAre(t, e);
    ColumnsAre(t, env, e);
    var a := Emit(e);
    assert a in CreateTable.TableActs(t, env)
      <==> a in CreateTable.HeadActs(t, env, rel) || a in CreateTable.BodyActs(t, env, rel);
    assert a in CreateTable.BodyActs(t, env, rel)
      <==> a in FlatMap(CreateTable.PrefixOf, CreateTable.AllConstraints(t))
           || a in FlatMap(CreateTable.ColumnAudit(t, env), CreateTable.Columns(t));
  }

  // ---- CREATE INDEX ----------------------------------------------------------------------------------

  lemma {:induction false} NamedMember(params: seq<Option<string>>, c: string)
    ensures c in CreateIndex.NamedColumns(params) <==> Some(c) in params
    ensures |CreateIndex.NamedColumns(params)| == |params| - multiset(params)[None]
  {
    if params != [] {
      NamedMember(params[1..], c);
      assert params == [params[0]] + params[1..];
    }
  }

  lemma RepeatsIff(params: seq<Option<string>>, indexes: seq<ExistingIndex>, e: Emission)
    ensures Emit(e) in CreateIndex.RedundantActs(indexes, CreateIndex.NamedColumns(params))
       <==> e == Configured("idx_redundant", Error) && Repeats(params, indexes)
  {
    var named := CreateIndex.NamedColumns(params);
    forall c: string
      ensures c in named <==> Some(c) in params
    {
      NamedMember(params, c);
    }
    NamedMember(params, "");
    forall ix: ExistingIndex
      ensures CreateIndex.Reported(ix, named) <==> |ix| == |named| && forall c :: c in ix ==> c.Some? && c in params
    {
      if CreateIndex.Reported(ix, named) {
        forall c | c in ix
          ensures c.Some? && c in params
        {
          var i :| 0 <= i < |ix| && ix[i] == c;
          assert c == Some(c.value);
        }
      }
      if forall c :: c in ix ==> c.Some? && c in params {
        forall i | 0 <= i < |ix|
          ensures ix[i].Some? && ix[i].value in named
        {
          assert ix[i] in ix && ix[i] == Some(ix[i].value);
        }
      }
    }
  }

  lemma {:induction false} LowMember(distinct: map<string, real>, params: seq<Option<string>>)
    ensures CreateIndex.LowSelectivity(distinct, params) != [] <==> exists c :: c in params && FewValues(distinct, c)
  {
    if params != [] {
      LowMember(distinct, params[1..]);
      assert params == [params[0]] + params[1..];
      assert CreateIndex.IsLow(distinct, params[0]) <==> FewValues(distinct, params[0]);
    }
  }

  lemma SelectivityIs(distinct: map<string, real>, params: seq<Option<string>>, e: Emission)
    ensures Emit(e) in FlatMap(CreateIndex.SelectivityOf, CreateIndex.LowSelectivity(distinct, params))
       <==> e == Configured("idx_selectivity", Error) && exists c :: c in params && FewValues(distinct, c)
  {
    var low := CreateIndex.LowSelectivity(distinct, params);
    LowMember(distinct, params);
    FlatMapMember(CreateIndex.SelectivityOf, low, Emit(e));
    if low != [] {
      assert low[0] in low;
    }
  }

  lemma CatalogIs(stmt: IndexStmt, env: Env, e: Emission)
    ensures Emit(e) in CreateIndex.CatalogActs(stmt, env)
       <==> stmt.relation.Some?
            && (|| (e == Configured("idx_redundant", Error) && Repeats(stmt.params, env.indexes))
                || (e == Configured("idx_selectivity", Error) && exists c :: c in stmt.params && FewValues(env.distinct, c))
                || (e == Configured("idx_table_count", Warning) && |env.indexes| > 5))
  {
    RepeatsIff(stmt.params, env.indexes, e);
    SelectivityIs(env.distinct, stmt.params, e);
  }

  lemma StaticIs(stmt: IndexStmt, env: Env, e: Emission)
    ensures Emit(e) in CreateIndex.StaticActs(stmt, env)
       <==> || (stmt.idxname.Some? && BreaksName(env.reserved, stmt.idxname.value, e))
            || (e == Configured("name_idx_prefix", Error) && stmt.idxname.Some? && !Begins(stmt.idxname.value, "idx_"))
            || (e == Configured("idx_concurrently", Error) && !stmt.concurrent)
            || (e == Configured("idx_method", Error) && stmt.accessMethod == Some("hash") && |stmt.params| > 1)
            || (e == Configured("idx_field_count", Warning) && |stmt.params| > 5)
  {
    if stmt.idxname.Some? {
      NameIs(env.reserved, stmt.idxname.value, e);
      PrefixIs(stmt.idxname.value, "idx_", "name_idx_prefix", e);
    }
  }

  lemma IndexBreaksIff(stmt: IndexStmt, env: Env, e: Emission)
    ensures Emit(e) in CreateIndex.IndexActs(stmt, env) <==> BreaksIndex(stmt, env, e)
  {
    StaticIs(stmt, env, e);
    CatalogIs(stmt, env, e);
  }

  // ---- CREATE VIEW -----------------------------------------------------------------------------------

  lemma StarIs(query: Option<SelectStmt>)
    ensures CreateView.HasStar(query) <==> exists o, t :: o in CreateView.Operands(query) && t in o.targetList && ShowsAll(t)
  {
    CreateView.StarIffSomeOperand(query);
    forall o: SelectStmt
      ensures CreateView.ListsStar(o.targetList) <==> exists t :: t in o.targetList && ShowsAll(t)
    {
      assert forall t :: CreateView.IsStar(t) == ShowsAll(t);
    }
  }

  lemma QueryIs(query: Option<SelectStmt>, e: Emission)
    ensures Emit(e) in CreateView.QueryActs(query) <==> BreaksQuery(query, e)
  {
    StarIs(query);
    assert forall f :: CreateView.Nests(f) <==> !f.OtherFrom?;
  }

  lemma ViewBreaksIff(stmt: ViewStmt, env: Env, e: Emission)
    ensures Emit(e) in CreateView.ViewActs(stmt, env) <==> BreaksView(stmt, env, e)
  {
    if stmt.view.Some? {
      NameIs(env.reserved, stmt.view.value.relname, e);
      PrefixIs(stmt.view.value.relname, "vw_", "name_vw_prefix", e);
      QueryIs(stmt.query, e);
    }
  }

  // ---- CREATE FUNCTION ---------------------------------------------------------------------------------

  lemma BodyIs(text: string, e: Emission)
    ensures Emit(e) in Program.TextActs(text) <==> BreaksBody(text, e)
  {
    KeywordsAre(text);
    WhenIs(Program.MentionsDdl(text), Adv("prog_ddl_forbidden"), e);
    WhenIs(Program.LeavesCursorOpen(text), Adv("prog_close_cursor"), e);
    WhenIs(|text| > 500, Adv("prog_business_logic"), e);
  }

  lemma KeywordsAre(text: string)
    ensures Program.MentionsDdl(text)
       <==> Text.OccursNoCase(text, "create ") || Text.OccursNoCase(text, "alter ")
            || Text.OccursNoCase(text, "drop ") || Text.OccursNoCase(text, "truncate")
  {
    var words := Program.DDL_KEYWORDS;
    assert forall k :: k in words <==> k == words[0] || k == words[1] || k == words[2] || k == words[3];
  }

  lemma ParamIs(reserved: set<string>, p: Param, e: Emission)
    ensures Emit(e) in Program.ParamActs(reserved, p) <==> BreaksParam(reserved, p, e)
  {
    if p.name.Some? {
      NameIs(reserved, p.name.value, e);
    }
    TypeIs(p.argType, e);
  }

  lemma ParamsAre(reserved: set<string>, params: seq<Param>, e: Emission)
    ensures Emit(e) in FlatMap(Program.ParamAudit(reserved), params)
       <==> exists p :: p in params && BreaksParam(reserved, p, e)
  {
    FlatMapMember(Program.ParamAudit(reserved), params, Emit(e));
    forall p: Param
      ensures Emit(e) in Program.ParamAudit(reserved)(p) <==> BreaksParam(reserved, p, e)
    {
      ParamIs(reserved, p, e);
    }
  }

  lemma FunctionBreaksIff(f: FuncStmt, env: Env, e: Emission)
    ensures Emit(e) in Program.FunctionActs(f, env) <==> BreaksFunction(f, env, e)
  {
    if f.funcname != [] {
      var name := f.funcname[|f.funcname| - 1];
      var text := Program.BodyText(f.options, Program.BODY_SIZE);
      NameIs(env.reserved, name, e);
      ParamsAre(env.reserved, f.params, e);
      BodyIs(text, e);
      assert text == Program.BodyText(f.options, 8192);
      assert Program.FunctionActs(f, env)
          == NameActs(env.reserved, Some(name))
             + (FlatMap(Program.ParamAudit(env.reserved), f.params)
                + (Program.TextActs(text) + [Write(Program.FunctionRecord(f, name))]));
    }
  }
}
