/** Which tables the standard configuration accepts, without reference to any check (rule_ddl.c). */
module TableAcceptance {
  import opened Core
  import opened Registry
  import opened Verdict
  import opened Ast
  import opened RuleCommon
  import opened CreateTable
  import opened TableTheorems
  import opened Statements
  import opened Transactions
  import opened Acceptance
  import Exists
  import Text

  // ---- the declarative conditions --------------------------------------------------------------

  predicate GoodTemp(rel: RangeVar) {
    rel.temp ==> HasPrefix(rel.relname, "tmp")
  }

  predicate GoodConstraintName(con: Constraint) {
    con.conname.Some? ==>
      && (con.contype.Primary? ==> HasPrefix(con.conname.value, "pk_"))
      && (con.contype.Unique? ==> HasPrefix(con.conname.value, "uk_"))
      && (con.contype.Check? ==> HasPrefix(con.conname.value, "ck_"))
  }

  predicate GoodKeyType(col: ColumnDef) {
    if col.colname == "id" then SerialType(TypeNameOf(col.typeName))
    else !BigInt(TypeNameOf(col.typeName)) && !BareNumeric(col)
  }

  predicate GoodColumn(reserved: set<string>, stmt: CreateStmt, col: ColumnDef) {
    && LegalName(reserved, col.colname)
    && GoodType(TypeNameOf(col.typeName))
    && GoodKeyType(col)
    && (NotNullDeclared(col) || InPk(stmt, col))
    && !ReservedColumn(col.colname)
  }

  /** The table design that the rules ask for. */
  predicate Acceptable(reserved: set<string>, stmt: CreateStmt, rel: RangeVar) {
    && LegalName(reserved, rel.relname)
    && GoodTemp(rel)
    && PkColumn(stmt) == Some("id")
    && !HasForeign(AllConstraints(stmt))
    && (forall con :: con in AllConstraints(stmt) ==> GoodConstraintName(con))
    && (forall col :: col in Columns(stmt) ==> GoodColumn(reserved, stmt, col))
  }

  // ---- one condition per block of checks ---------------------------------------------------------

  lemma CalmTemp(rules: Rules, rel: RangeVar)
    requires Standard(rules)
    ensures Calm(rules, TempActs(rel)) <==> GoodTemp(rel)
  {
    if rel.temp {
      var note := Note(ARRAY_HINT);
      CalmCheck(rules, TmpPrefix, !HasPrefix(rel.relname, "tmp"), Err("name_tmp_prefix"));
      CalmBoth(rules, When(!HasPrefix(rel.relname, "tmp"), Err("name_tmp_prefix")), [note]);
      assert !Blocks(rules, note);
    }
  }

  lemma CalmKey(rules: Rules, pk: Option<string>)
    requires Standard(rules)
    ensures Calm(rules, KeyActs(pk)) <==> pk == Some("id")
  {
    match pk {
      case None => CalmCheck(rules, PkRequired, true, Err("table_pk_required"));
      case Some(name) => CalmCheck(rules, PkNameId, name != "id", Err("table_pk_name_id"));
    }
  }

  lemma CalmForeign(rules: Rules, stmt: CreateStmt)
    requires Standard(rules)
    ensures Calm(rules, ForeignActs(stmt)) <==> !HasForeign(AllConstraints(stmt))
  {
    CalmCheck(rules, NoForeignKey, HasForeign(AllConstraints(stmt)), Err("table_no_foreign_key"));
  }

  lemma CalmHead(rules: Rules, stmt: CreateStmt, env: Env, rel: RangeVar)
    requires Standard(rules)
    ensures Calm(rules, HeadActs(stmt, env, rel))
       <==> LegalName(env.reserved, rel.relname) && GoodTemp(rel) && PkColumn(stmt) == Some("id")
            && !HasForeign(AllConstraints(stmt))
  {
    CalmName(rules, env.reserved, rel.relname);
    CalmTemp(rules, rel);
    CalmKey(rules, PkColumn(stmt));
    CalmForeign(rules, stmt);
    var tail := KeyActs(PkColumn(stmt)) + ForeignActs(stmt);
    CalmBoth(rules, KeyActs(PkColumn(stmt)), ForeignActs(stmt));
    CalmBoth(rules, TempActs(rel), tail);
    CalmBoth(rules, NameActs(env.reserved, Some(rel.relname)), TempActs(rel) + tail);
  }

  lemma CalmConstraint(rules: Rules, con: Constraint)
    requires Standard(rules)
    ensures Calm(rules, PrefixOf(con)) <==> GoodConstraintName(con)
  {
    if con.conname.Some? {
      match con.contype {
        case Primary => CalmPrefix(rules, PkPrefix, con.conname.value, "pk_");
        case Unique => CalmPrefix(rules, UkPrefix, con.conname.value, "uk_");
        case Check => CalmPrefix(rules, CkPrefix, con.conname.value, "ck_");
        case _ =>
      }
    }
  }

  lemma CalmSizes(rules: Rules, big: bool, bare: bool)
    requires Standard(rules)
    ensures Calm(rules, When(big, Err("type_min_size")) + When(bare, Err("type_min_size"))) <==> !big && !bare
  {
    CalmCheck(rules, TypeMinSize, big, Err("type_min_size"));
    CalmCheck(rules, TypeMinSize, bare, Err("type_min_size"));
    CalmBoth(rules, When(big, Err("type_min_size")), When(bare, Err("type_min_size")));
  }

  lemma CalmKeyType(rules: Rules, col: ColumnDef)
    requires Standard(rules)
    ensures Calm(rules, KeyTypeActs(Some("id"), col)) <==> GoodKeyType(col)
  {
    var t := TypeNameOf(col.typeName);
    if col.colname == "id" {
      CalmCheck(rules, PkTypeSerial, !SerialType(t), Err("table_pk_type_serial"));
    } else {
      CalmSizes(rules, BigInt(t), BareNumeric(col));
    }
  }

  lemma CalmRest(rules: Rules, stmt: CreateStmt, col: ColumnDef)
    requires Standard(rules)
    ensures Calm(rules, ColumnRest(stmt, col))
       <==> (NotNullDeclared(col) || InPk(stmt, col)) && !ReservedColumn(col.colname)
  {
    CalmTwo(rules, !NotNullDeclared(col) && !InPk(stmt, col), ReservedColumn(col.colname));
  }

  lemma CalmNullable(rules: Rules, nullable: bool)
    requires Standard(rules)
    ensures Calm(rules, When(nullable, Err("table_column_not_null"))) <==> !nullable
  {
    CalmCheck(rules, ColumnNotNull, nullable, Err("table_column_not_null"));
  }

  lemma CalmOdd(rules: Rules, odd: bool)
    requires Standard(rules)
    ensures Calm(rules, When(odd, Adv("table_no_reserved_column"))) <==> !odd
  {
    CalmCheck(rules, NoReservedColumn, odd, Adv("table_no_reserved_column"));
  }

  lemma CalmTwo(rules: Rules, nullable: bool, odd: bool)
    requires Standard(rules)
    ensures Calm(rules, When(nullable, Err("table_column_not_null")) + When(odd, Adv("table_no_reserved_column")))
       <==> !nullable && !odd
  {
    CalmNullable(rules, nullable);
    CalmOdd(rules, odd);
    CalmBoth(rules, When(nullable, Err("table_column_not_null")), When(odd, Adv("table_no_reserved_column")));
  }

  lemma CalmColumn(rules: Rules, stmt: CreateStmt, env: Env, col: ColumnDef)
    requires Standard(rules) && PkColumn(stmt) == Some("id")
    ensures Calm(rules, ColumnActs(stmt, env, col)) <==> GoodColumn(env.reserved, stmt, col)
  {
    var name, types := NameActs(env.reserved, Some(col.colname)), TypeActs(col.typeName);
    var key, rest := KeyTypeActs(Some("id"), col), ColumnRest(stmt, col);
    CalmName(rules, env.reserved, col.colname);
    CalmType(rules, col.typeName);
    CalmKeyType(rules, col);
    CalmRest(rules, stmt, col);
    CalmBoth(rules, key, rest);
    CalmBoth(rules, types, key + rest);
    CalmBoth(rules, name, types + (key + rest));
  }

  lemma CalmBody(rules: Rules, stmt: CreateStmt, env: Env, rel: RangeVar)
    requires Standard(rules) && PkColumn(stmt) == Some("id")
    ensures Calm(rules, BodyActs(stmt, env, rel))
       <==> (forall con :: con in AllConstraints(stmt) ==> GoodConstraintName(con))
            && (forall col :: col in Columns(stmt) ==> GoodColumn(env.reserved, stmt, col))
  {
    var f := ColumnAudit(stmt, env);
    var names, cols := FlatMap(PrefixOf, AllConstraints(stmt)), FlatMap(f, Columns(stmt));
    var last := [Write(MakeRecord("CREATE TABLE", Some(rel.relname), "table", Notice))];
    CalmBoth(rules, cols, last);
    CalmBoth(rules, names, cols + last);
    CalmFlatMap(rules, PrefixOf, AllConstraints(stmt));
    CalmFlatMap(rules, f, Columns(stmt));
    forall con: Constraint ensures Calm(rules, PrefixOf(con)) <==> GoodConstraintName(con) {
      CalmConstraint(rules, con);
    }
    forall col: ColumnDef ensures Calm(rules, f(col)) <==> GoodColumn(env.reserved, stmt, col) {
      CalmColumn(rules, stmt, env, col);
    }
  }

  lemma CalmTable(rules: Rules, stmt: CreateStmt, env: Env, rel: RangeVar)
    requires Standard(rules) && stmt.relation == Some(rel)
    ensures Calm(rules, TableActs(stmt, env)) <==> Acceptable(env.reserved, stmt, rel)
  {
    CalmBoth(rules, HeadActs(stmt, env, rel), BodyActs(stmt, env, rel));
    CalmHead(rules, stmt, env, rel);
    if PkColumn(stmt) == Some("id") {
      CalmBody(rules, stmt, env, rel);
    }
  }

  // ---- the statement -------------------------------------------------------------------------------

  /**
   * In the standard configuration a CREATE TABLE whose name is free is accepted exactly when its design
   * is the one the rules ask for, whatever the order in which they are checked.
   */
  lemma AcceptedIffAcceptable(rules: Rules, stmt: CreateStmt, env: Env, tcl: Tcl)
    requires Standard(rules) && stmt.relation.Some? && !Exists.Conflict(Table(stmt), env)
    ensures !Blocked(rules, Create(Table(stmt)), env, tcl) <==> Acceptable(env.reserved, stmt, stmt.relation.value)
  {
    AbortsIffSomeBlocks(rules, [], TableActs(stmt, env));
    CalmTable(rules, stmt, env, stmt.relation.value);
  }

  lemma SameConflict(a: CreateStmt, b: CreateStmt, env: Env)
    requires a.relation == b.relation && a.ifNotExists == b.ifNotExists
    ensures Exists.Conflict(Table(a), env) == Exists.Conflict(Table(b), env)
    ensures Exists.ConflictActs(Table(a)) == Exists.ConflictActs(Table(b))
  {
    Exists.DescriptorIsUnique(Table(a));
  }

  /**
   * For a settled table, in particular for one with at most one primary key, it makes no difference
   * under any rules in which of the two lists and in which order the table constraints stand.
   */
  lemma PlacementNeverDecides(rules: Rules, a: CreateStmt, b: CreateStmt, env: Env, tcl: Tcl)
    requires Rearranged(a, b) && Settled(a)
    ensures Blocked(rules, Create(Table(a)), env, tcl) == Blocked(rules, Create(Table(b)), env, tcl)
  {
    SameConflict(a, b, env);
    PlacementIsIrrelevant(rules, a, b, env);
  }

  // ---- two primary keys -----------------------------------------------------------------------------

  function IntColumn(name: string): ColumnDef {
    ColumnDef(name, Some(TypeName(["pg_catalog", "int4"], false)), true, [])
  }

  function KeyOn(name: string): Constraint {
    Constraint(Primary, None, [name])
  }

  /** create table t (id int not null, no int not null, primary key (first), primary key (second)) */
  function TwoKeys(first: string, second: string): CreateStmt {
    CreateStmt(Some(RangeVar("t", None, false)),
               ColumnElts([IntColumn("id"), IntColumn("no")]) + ConstraintElts([KeyOn(first), KeyOn(second)]), [], false)
  }

  lemma TwoKeyNames(first: string, second: string)
    ensures FlatMap(PkOfConstraint, [KeyOn(first), KeyOn(second)]) == [first, second]
  {
    FlatMapCons(PkOfConstraint, KeyOn(first), [KeyOn(second)]);
    assert [KeyOn(first)] + [KeyOn(second)] == [KeyOn(first), KeyOn(second)];
    assert [KeyOn(second)][1..] == [];
  }

  lemma TwoKeysParts(t: CreateStmt, first: string, second: string)
    requires t == TwoKeys(first, second)
    ensures Columns(t) == [IntColumn("id"), IntColumn("no")] && TableConstraints(t) == [KeyOn(first), KeyOn(second)]
    ensures forall con :: con in AllConstraints(t) <==> con in [KeyOn(first), KeyOn(second)]
    ensures PkColumn(t) == Some(first)
  {
    var cons := [KeyOn(first), KeyOn(second)];
    PlainTable(t, [IntColumn("id"), IntColumn("no")], cons);
    SameElements(AllConstraints(t), cons);
    TwoKeyNames(first, second);
  }

  lemma ShortNameIsNotReserved(name: string)
    requires |name| < 5
    ensures !ReservedColumn(name)
  {
    forall t | t in RESERVED_TOKENS
      ensures Text.StrStr(name, t).None?
    {
      assert |t| >= 5;
      Text.StrStrFromIsFirst(name, t, 0);
    }
  }

  lemma GoodIntColumn(stmt: CreateStmt, name: string)
    requires name == "id" || name == "no"
    ensures GoodColumn({}, stmt, IntColumn(name))
  {
    ShortNameIsNotReserved(name);
    var t := TypeNameOf(IntColumn(name).typeName);
    assert t == Some("int4");
  }

  lemma TwoColumnsAcceptable(stmt: CreateStmt, rel: RangeVar, first: string, second: string)
    requires Columns(stmt) == [IntColumn("id"), IntColumn("no")]
    requires forall con :: con in AllConstraints(stmt) <==> con in [KeyOn(first), KeyOn(second)]
    requires PkColumn(stmt) == Some(first)
    requires rel == RangeVar("t", None, false)
    ensures Acceptable({}, stmt, rel) <==> first == "id"
  {
    GoodIntColumn(stmt, "id");
    GoodIntColumn(stmt, "no");
    assert LegalName({}, rel.relname);
    forall con | con in AllConstraints(stmt)
      ensures con.contype == Primary && GoodConstraintName(con)
    {
      assert con == KeyOn(first) || con == KeyOn(second);
    }
    forall col | col in Columns(stmt)
      ensures GoodColumn({}, stmt, col)
    {
      assert col == IntColumn("id") || col == IntColumn("no");
    }
  }

  lemma TwoKeysAcceptedIff(rules: Rules, stmt: CreateStmt, env: Env, tcl: Tcl, first: string, second: string)
    requires Standard(rules) && env.reserved == {} && !Exists.Conflict(Table(stmt), env)
    requires stmt == TwoKeys(first, second)
    ensures Blocked(rules, Create(Table(stmt)), env, tcl) <==> first != "id"
  {
    TwoKeysParts(stmt, first, second);
    TwoColumnsAcceptable(stmt, stmt.relation.value, first, second);
    AcceptedIffAcceptable(rules, stmt, env, tcl);
  }

  lemma TwoKeysAreRearranged(a: CreateStmt, b: CreateStmt)
    requires a == TwoKeys("id", "no") && b == TwoKeys("no", "id")
    ensures Rearranged(a, b)
  {
    TwoKeysParts(a, "id", "no");
    TwoKeysParts(b, "no", "id");
  }

  /** With keys on `id` and on another column the order decides: one order is accepted, the other is blocked. */
  lemma TwoKeysDecide(rules: Rules, a: CreateStmt, b: CreateStmt, env: Env, tcl: Tcl)
    requires Standard(rules) && env.reserved == {} && !Exists.Conflict(Table(a), env)
    requires a == TwoKeys("id", "no") && b == TwoKeys("no", "id")
    ensures Rearranged(a, b)
    ensures !Blocked(rules, Create(Table(a)), env, tcl) && Blocked(rules, Create(Table(b)), env, tcl)
  {
    TwoKeysAreRearranged(a, b);
    SameConflict(a, b, env);
    TwoKeysAcceptedIff(rules, a, env, tcl, "id", "no");
    TwoKeysAcceptedIff(rules, b, env, tcl, "no", "id");
  }
}
