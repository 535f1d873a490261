/** CREATE TABLE (rule_ddl.c). */
module CreateTable {
  import opened Core
  import opened Verdict
  import opened Ast
  import opened AuditorModule
  import opened RuleCommon
  import Registry
  import Text

  // ---- what the statement contains, wherever the grammar put it -----------------

  function ColumnsOf(elts: seq<TableElt>): seq<ColumnDef> {
    if elts == [] then []
    else (if elts[0].Column? then [elts[0].col] else []) + ColumnsOf(elts[1..])
  }

  function Columns(stmt: CreateStmt): seq<ColumnDef> {
    ColumnsOf(stmt.tableElts)
  }

  function ConstraintsOf(elts: seq<TableElt>): seq<Constraint> {
    if elts == [] then []
    else (if elts[0].TableConstraint? then [elts[0].con] else []) + ConstraintsOf(elts[1..])
  }

  /** Table-level constraints of both lists. */
  function TableConstraints(stmt: CreateStmt): seq<Constraint> {
    stmt.constraints + ConstraintsOf(stmt.tableElts)
  }

  function EltConstraints(e: TableElt): seq<Constraint> {
    match e
    case TableConstraint(con) => [con]
    case Column(col) => col.constraints
  }

  /** Every constraint, in the order in which the audit visits them. */
  function AllConstraints(stmt: CreateStmt): seq<Constraint> {
    stmt.constraints + FlatMap(EltConstraints, stmt.tableElts)
  }

  predicate IsTablePk(con: Constraint) {
    con.contype == Primary && con.keys != []
  }

  predicate HasPrimary(col: ColumnDef) {
    exists con :: con in col.constraints && con.contype == Primary
  }

  predicate HasForeign(cons: seq<Constraint>) {
    exists con :: con in cons && con.contype == Foreign
  }

  // ---- primary key ----------------------------------------------------------------

  function PkOfConstraint(con: Constraint): seq<string> {
    if IsTablePk(con) then [con.keys[0]] else []
  }

  function PkOfElt(e: TableElt): seq<string> {
    match e
    case TableConstraint(con) => PkOfConstraint(con)
    case Column(col) => if HasPrimary(col) then [col.colname] else []
  }

  /** The leading column of every primary key declared, in visiting order. */
  function PkCandidates(stmt: CreateStmt): seq<string> {
    FlatMap(PkOfConstraint, stmt.constraints) + FlatMap(PkOfElt, stmt.tableElts)
  }

  function PkColumn(stmt: CreateStmt): Option<string> {
    var c := PkCandidates(stmt);
    if c == [] then None else Some(c[0])
  }

  /** The loop over a column's own constraints. */
  method DeclaresPrimary(col: ColumnDef) returns (r: bool)
    ensures r == HasPrimary(col)
  {
    var i := 0;
    while i < |col.constraints|
      invariant 0 <= i <= |col.constraints|
      invariant forall k :: 0 <= k < i ==> col.constraints[k].contype != Primary
    {
      if col.constraints[i].contype == Primary {
        return true;
      }
      i := i + 1;
    }
    return false;
  }

  method FindPkColumn(stmt: CreateStmt) returns (r: Option<string>)
    ensures r == PkColumn(stmt)
  {
    ghost var tail := FlatMap(PkOfElt, stmt.tableElts);
    var i := 0;
    while i < |stmt.constraints|
      invariant 0 <= i <= |stmt.constraints|
      invariant PkCandidates(stmt) == FlatMap(PkOfConstraint, stmt.constraints[i..]) + tail
    {
      var con := stmt.constraints[i];
      assert stmt.constraints[i..][1..] == stmt.constraints[i + 1..];
      if con.contype == Primary && con.keys != [] {
        return Some(con.keys[0]);
      }
      i := i + 1;
    }
    i := 0;
    while i < |stmt.tableElts|
      invariant 0 <= i <= |stmt.tableElts|
      invariant PkCandidates(stmt) == FlatMap(PkOfElt, stmt.tableElts[i..])
    {
      var e := stmt.tableElts[i];
      assert stmt.tableElts[i..][1..] == stmt.tableElts[i + 1..];
      match e {
        case TableConstraint(con) =>
          if con.contype == Primary && con.keys != [] {
            return Some(con.keys[0]);
          }
        case Column(col) =>
          var declares := DeclaresPrimary(col);
          if declares {
            return Some(col.colname);
          }
      }
      i := i + 1;
    }
    return None;
  }

  /** The column belongs to some declared primary key. */
  predicate InPk(stmt: CreateStmt, col: ColumnDef) {
    || (exists con :: con in TableConstraints(stmt) && con.contype == Primary && col.colname in con.keys)
    || HasPrimary(col)
  }

  lemma {:induction false} ConstraintMember(elts: seq<TableElt>, con: Constraint)
    ensures con in ConstraintsOf(elts) <==> TableConstraint(con) in elts
  {
    if elts != [] {
      ConstraintMember(elts[1..], con);
      assert elts == [elts[0]] + elts[1..];
    }
  }

  method ColIsInPk(stmt: CreateStmt, col: ColumnDef) returns (r: bool)
    ensures r == InPk(stmt, col)
  {
    var i := 0;
    while i < |stmt.constraints|
      invariant 0 <= i <= |stmt.constraints|
      invariant forall k :: 0 <= k < i ==> !(stmt.constraints[k].contype == Primary && col.colname in stmt.constraints[k].keys)
    {
      var con := stmt.constraints[i];
      if con.contype == Primary && col.colname in con.keys {
        assert con in TableConstraints(stmt);
        return true;
      }
      i := i + 1;
    }
    i := 0;
    while i < |stmt.tableElts|
      invariant 0 <= i <= |stmt.tableElts|
      invariant forall k :: 0 <= k < i && stmt.tableElts[k].TableConstraint? ==>
                  !(stmt.tableElts[k].con.contype == Primary && col.colname in stmt.tableElts[k].con.keys)
    {
      if stmt.tableElts[i].TableConstraint? {
        var con := stmt.tableElts[i].con;
        if con.contype == Primary && col.colname in con.keys {
          ConstraintMember(stmt.tableElts, con);
          assert con in TableConstraints(stmt);
          return true;
        }
      }
      i := i + 1;
    }
    forall con | con in TableConstraints(stmt)
      ensures !(con.contype == Primary && col.colname in con.keys)
    {
      ConstraintMember(stmt.tableElts, con);
    }
    r := DeclaresPrimary(col);
  }

  // ---- foreign keys -----------------------------------------------------------------

  method HasForeignKey(stmt: CreateStmt) returns (r: bool)
    ensures r == HasForeign(AllConstraints(stmt))
  {
    var i := 0;
    while i < |stmt.constraints|
      invariant 0 <= i <= |stmt.constraints|
      invariant forall k :: 0 <= k < i ==> stmt.constraints[k].contype != Foreign
    {
      if stmt.constraints[i].contype == Foreign {
        assert stmt.constraints[i] in AllConstraints(stmt);
        return true;
      }
      i := i + 1;
    }
    i := 0;
    while i < |stmt.tableElts|
      invariant 0 <= i <= |stmt.tableElts|
      invariant HasForeign(AllConstraints(stmt)) <==> HasForeign(FlatMap(EltConstraints, stmt.tableElts[i..]))
    {
      var e := stmt.tableElts[i];
      ghost var rest := FlatMap(EltConstraints, stmt.tableElts[i + 1..]);
      assert stmt.tableElts[i..][1..] == stmt.tableElts[i + 1..];
      assert FlatMap(EltConstraints, stmt.tableElts[i..]) == EltConstraints(e) + rest;
      match e {
        case TableConstraint(con) =>
          if con.contype == Foreign {
            assert con in EltConstraints(e) + rest;
            return true;
          }
        case Column(col) =>
          var j := 0;
          while j < |col.constraints|
            invariant 0 <= j <= |col.constraints|
            invariant forall k :: 0 <= k < j ==> col.constraints[k].contype != Foreign
          {
            if col.constraints[j].contype == Foreign {
              assert col.constraints[j] in EltConstraints(e) + rest;
              return true;
            }
            j := j + 1;
          }
      }
      i := i + 1;
    }
    return false;
  }

  // ---- constraint names -----------------------------------------------------------

  function PrefixOf(con: Constraint): seq<Action> {
    if con.conname.None? then []
    else match con.contype
      case Primary => PrefixActs(con.conname, "pk_", "name_pk_prefix")
      case Unique => PrefixActs(con.conname, "uk_", "name_uk_prefix")
      case Check => PrefixActs(con.conname, "ck_", "name_ck_prefix")
      case _ => []
  }

  method CheckOnePrefix(a: Auditor, con: Constraint) returns (aborted: bool)
    requires a.Valid()
    modifies a.log, a.log.slots
    ensures a.Valid()
    ensures Run(a.log.history, aborted) == Exec(a.Rules(), old(a.log.history), PrefixOf(con))
  {
    aborted := false;
    if con.conname.None? {
      return;
    }
    var ok;
    match con.contype {
      case Primary => ok, aborted := AuditCheckPrefix(a, con.conname, "pk_", "name_pk_prefix");
      case Unique => ok, aborted := AuditCheckPrefix(a, con.conname, "uk_", "name_uk_prefix");
      case Check => ok, aborted := AuditCheckPrefix(a, con.conname, "ck_", "name_ck_prefix");
      case _ =>
    }
  }

  /** Walks one list of constraints. */
  method CheckPrefixList(a: Auditor, cons: seq<Constraint>) returns (aborted: bool)
    requires a.Valid()
    modifies a.log, a.log.slots
    ensures a.Valid()
    ensures Run(a.log.history, aborted) == Exec(a.Rules(), old(a.log.history), FlatMap(PrefixOf, cons))
  {
    aborted := false;
    var i := 0;
    while i < |cons|
      invariant 0 <= i <= |cons| && a.Valid() && !aborted
      invariant Exec(a.Rules(), old(a.log.history), FlatMap(PrefixOf, cons))
             == Exec(a.Rules(), a.log.history, FlatMap(PrefixOf, cons[i..]))
    {
      assert cons[i..][1..] == cons[i + 1..];
      ExecAppend(a.Rules(), a.log.history, PrefixOf(cons[i]), FlatMap(PrefixOf, cons[i + 1..]));
      aborted := CheckOnePrefix(a, cons[i]);
      if aborted { return; }
      i := i + 1;
    }
  }

  method CheckEltPrefixes(a: Auditor, e: TableElt) returns (aborted: bool)
    requires a.Valid()
    modifies a.log, a.log.slots
    ensures a.Valid()
    ensures Run(a.log.history, aborted) == Exec(a.Rules(), old(a.log.history), FlatMap(PrefixOf, EltConstraints(e)))
  {
    match e {
      case TableConstraint(con) =>
        assert FlatMap(PrefixOf, [con]) == PrefixOf(con);
        aborted := CheckOnePrefix(a, con);
      case Column(col) =>
        aborted := CheckPrefixList(a, col.constraints);
    }
  }

  lemma PrefixStep(elts: seq<TableElt>, i: nat)
    requires i < |elts|
    ensures FlatMap(PrefixOf, FlatMap(EltConstraints, elts[i..]))
         == FlatMap(PrefixOf, EltConstraints(elts[i])) + FlatMap(PrefixOf, FlatMap(EltConstraints, elts[i + 1..]))
  {
    assert elts[i..] == [elts[i]] + elts[i + 1..];
    FlatMapCons(EltConstraints, elts[i], elts[i + 1..]);
    FlatMapAppend(PrefixOf, EltConstraints(elts[i]), FlatMap(EltConstraints, elts[i + 1..]));
  }

  /** What is left of the walk over the elements. */
  function PrefixesFrom(elts: seq<TableElt>, i: nat): seq<Action>
    requires i <= |elts|
  {
    FlatMap(PrefixOf, FlatMap(EltConstraints, elts[i..]))
  }

  method CheckEltListPrefixes(a: Auditor, elts: seq<TableElt>) returns (aborted: bool)
    requires a.Valid()
    modifies a.log, a.log.slots
    ensures a.Valid()
    ensures Run(a.log.history, aborted) == Exec(a.Rules(), old(a.log.history), PrefixesFrom(elts, 0))
  {
    aborted := false;
    var i := 0;
    while i < |elts|
      invariant 0 <= i <= |elts| && a.Valid() && !aborted
      invariant Exec(a.Rules(), old(a.log.history), PrefixesFrom(elts, 0))
             == Exec(a.Rules(), a.log.history, PrefixesFrom(elts, i))
    {
      PrefixStep(elts, i);
      ExecAppend(a.Rules(), a.log.history, FlatMap(PrefixOf, EltConstraints(elts[i])), PrefixesFrom(elts, i + 1));
      aborted := CheckEltPrefixes(a, elts[i]);
      if aborted { return; }
      i := i + 1;
    }
  }

  method CheckConstraintPrefixes(a: Auditor, stmt: CreateStmt) returns (aborted: bool)
    requires a.Valid()
    modifies a.log, a.log.slots
    ensures a.Valid()
    ensures Run(a.log.history, aborted)
         == Exec(a.Rules(), old(a.log.history), FlatMap(PrefixOf, AllConstraints(stmt)))
  {
    var elts := stmt.tableElts;
    assert elts[0..] == elts;
    FlatMapAppend(PrefixOf, stmt.constraints, FlatMap(EltConstraints, elts));
    ExecAppend(a.Rules(), a.log.history, FlatMap(PrefixOf, stmt.constraints), PrefixesFrom(elts, 0));
    aborted := CheckPrefixList(a, stmt.constraints);
    if aborted { return; }
    aborted := CheckEltListPrefixes(a, elts);
  }

  // ---- columns ----------------------------------------------------------------------

  predicate SerialType(t: Option<string>) {
    t.Some? && t.value in ["serial", "bigserial", "smallserial", "int2", "int4", "int8", "smallint", "integer", "bigint"]
  }

  predicate NotNullDeclared(col: ColumnDef) {
    col.isNotNull || exists con :: con in col.constraints && con.contype == NotNull
  }

  method ColIsNotNull(col: ColumnDef) returns (r: bool)
    ensures r == NotNullDeclared(col)
  {
    if col.isNotNull {
      return true;
    }
    var i := 0;
    while i < |col.constraints|
      invariant 0 <= i <= |col.constraints|
      invariant forall k :: 0 <= k < i ==> col.constraints[k].contype != NotNull
    {
      if col.constraints[i].contype == NotNull {
        return true;
      }
      i := i + 1;
    }
    return false;
  }

  const RESERVED_TOKENS := ["reserve1", "reserve2", "reserve3", "reserved", "ext_col", "ext_field", "spare", "future"]

  predicate ReservedColumn(name: string) {
    exists t :: t in RESERVED_TOKENS && Text.StrStr(name, t).Some?
  }

  method IsReservedColumnName(name: string) returns (r: bool)
    ensures r == ReservedColumn(name)
  {
    var i := 0;
    while i < |RESERVED_TOKENS|
      invariant 0 <= i <= |RESERVED_TOKENS|
      invariant forall k :: 0 <= k < i ==> Text.StrStr(name, RESERVED_TOKENS[k]).None?
    {
      if Text.StrStr(name, RESERVED_TOKENS[i]).Some? {
        assert RESERVED_TOKENS[i] in RESERVED_TOKENS;
        return true;
      }
      i := i + 1;
    }
    return false;
  }

  predicate BigInt(t: Option<string>) {
    t == Some("bigint") || t == Some("int8")
  }

  predicate BareNumeric(col: ColumnDef) {
    TypeNameOf(col.typeName) == Some("numeric") && !col.typeName.value.hasTypmods
  }

  /** Type rules that depend on whether the column is the leading key column. */
  function KeyTypeActs(pk: Option<string>, col: ColumnDef): seq<Action> {
    var t := TypeNameOf(col.typeName);
    if pk == Some(col.colname) then When(!SerialType(t), Err("table_pk_type_serial"))
    else When(BigInt(t), Err("type_min_size")) + When(BareNumeric(col), Err("type_min_size"))
  }

  function NullActs(stmt: CreateStmt, col: ColumnDef): seq<Action> {
    When(!NotNullDeclared(col) && !InPk(stmt, col), Err("table_column_not_null"))
  }

  function ColumnRest(stmt: CreateStmt, col: ColumnDef): seq<Action> {
    NullActs(stmt, col) + When(ReservedColumn(col.colname), Adv("table_no_reserved_column"))
  }

  function ColumnActs(stmt: CreateStmt, env: Env, col: ColumnDef): seq<Action> {
    NameActs(env.reserved, Some(col.colname))
    + (TypeActs(col.typeName) + (KeyTypeActs(PkColumn(stmt), col) + ColumnRest(stmt, col)))
  }

  function ColumnAudit(stmt: CreateStmt, env: Env): ColumnDef -> seq<Action> {
    col => ColumnActs(stmt, env, col)
  }

  method AuditKeyType(a: Auditor, pk: Option<string>, col: ColumnDef) returns (aborted: bool)
    requires a.Valid()
    modifies a.log, a.log.slots
    ensures a.Valid()
    ensures Run(a.log.history, aborted) == Exec(a.Rules(), old(a.log.history), KeyTypeActs(pk, col))
  {
    aborted := false;
    var t := TypeNameOf(col.typeName);
    if pk.None? || col.colname != pk.value {
      ExecAppend(a.Rules(), a.log.history, When(BigInt(t), Err("type_min_size")), When(BareNumeric(col), Err("type_min_size")));
      if t.Some? && (t.value == "bigint" || t.value == "int8") {
        aborted := a.Emit(Error, "type_min_size");
        if aborted { return; }
      }
      if t.Some? && t.value == "numeric" && !col.typeName.value.hasTypmods {
        aborted := a.Emit(Error, "type_min_size");
        if aborted { return; }
      }
    }
    if pk.Some? && col.colname == pk.value {
      if !SerialType(t) {
        aborted := a.Emit(Error, "table_pk_type_serial");
      }
    }
  }

  method AuditColumnRest(a: Auditor, stmt: CreateStmt, col: ColumnDef) returns (aborted: bool)
    requires a.Valid()
    modifies a.log, a.log.slots
    ensures a.Valid()
    ensures Run(a.log.history, aborted) == Exec(a.Rules(), old(a.log.history), ColumnRest(stmt, col))
  {
    ghost var last := When(ReservedColumn(col.colname), Adv("table_no_reserved_column"));
    ExecAppend(a.Rules(), a.log.history, NullActs(stmt, col), last);
    var notNull := ColIsNotNull(col);
    var inPk := ColIsInPk(stmt, col);
    if !notNull && !inPk {
      aborted := a.Emit(Error, "table_column_not_null");
      if aborted { return; }
    }
    aborted := false;
    var odd := IsReservedColumnName(col.colname);
    if odd {
      aborted := a.Emit(Warning, "table_no_reserved_column");
    }
  }

  method AuditColumn(a: Auditor, env: Env, stmt: CreateStmt, pk: Option<string>, col: ColumnDef) returns (aborted: bool)
    requires a.Valid() && pk == PkColumn(stmt)
    modifies a.log, a.log.slots
    ensures a.Valid()
    ensures Run(a.log.history, aborted) == Exec(a.Rules(), old(a.log.history), ColumnActs(stmt, env, col))
  {
    ghost var r3 := ColumnRest(stmt, col);
    ghost var r2 := KeyTypeActs(pk, col) + r3;
    ghost var r1 := TypeActs(col.typeName) + r2;
    ExecAppend(a.Rules(), a.log.history, NameActs(env.reserved, Some(col.colname)), r1);
    var ok;
    ok, aborted := AuditCheckName(a, env.reserved, Some(col.colname));
    if aborted { return; }
    ExecAppend(a.Rules(), a.log.history, TypeActs(col.typeName), r2);
    aborted := AuditCheckType(a, col.typeName);
    if aborted { return; }
    ExecAppend(a.Rules(), a.log.history, KeyTypeActs(pk, col), r3);
    aborted := AuditKeyType(a, pk, col);
    if aborted { return; }
    aborted := AuditColumnRest(a, stmt, col);
  }

  lemma ColumnStep(rules: Registry.Rules, history: seq<Record>, stmt: CreateStmt, env: Env, col: ColumnDef, rest: seq<ColumnDef>)
    ensures var f := ColumnAudit(stmt, env);
            var r := Exec(rules, history, ColumnActs(stmt, env, col));
            Exec(rules, history, FlatMap(f, [col] + rest)) == if r.aborted then r else Exec(rules, r.history, FlatMap(f, rest))
  {
    var f := ColumnAudit(stmt, env);
    FlatMapCons(f, col, rest);
    ExecAppend(rules, history, ColumnActs(stmt, env, col), FlatMap(f, rest));
  }

  method AuditColumns(a: Auditor, env: Env, stmt: CreateStmt, pk: Option<string>) returns (aborted: bool)
    requires a.Valid() && pk == PkColumn(stmt)
    modifies a.log, a.log.slots
    ensures a.Valid()
    ensures Run(a.log.history, aborted)
         == Exec(a.Rules(), old(a.log.history), FlatMap(ColumnAudit(stmt, env), Columns(stmt)))
  {
    aborted := false;
    ghost var f := ColumnAudit(stmt, env);
    var elts := stmt.tableElts;
    var i := 0;
    while i < |elts|
      invariant 0 <= i <= |elts| && a.Valid() && !aborted
      invariant Exec(a.Rules(), old(a.log.history), FlatMap(f, Columns(stmt)))
             == Exec(a.Rules(), a.log.history, FlatMap(f, ColumnsOf(elts[i..])))
    {
      assert elts[i..][1..] == elts[i + 1..];
      ghost var rest := ColumnsOf(elts[i + 1..]);
      if elts[i].Column? {
        ColumnStep(a.Rules(), a.log.history, stmt, env, elts[i].col, rest);
        aborted := AuditColumn(a, env, stmt, pk, elts[i].col);
        if aborted { return; }
      } else {
        assert ColumnsOf(elts[i..]) == rest;
      }
      i := i + 1;
    }
  }

  // ---- the whole statement -----------------------------------------------------------

  function TempActs(rel: RangeVar): seq<Action> {
    if rel.temp then When(!HasPrefix(rel.relname, "tmp"), Err("name_tmp_prefix")) + [Note("dml_array_vs_tmp")]
    else []
  }

  function KeyActs(pk: Option<string>): seq<Action> {
    match pk
    case None => [Err("table_pk_required")]
    case Some(pk) => When(pk != "id", Err("table_pk_name_id"))
  }

  function ForeignActs(stmt: CreateStmt): seq<Action> {
    When(HasForeign(AllConstraints(stmt)), Err("table_no_foreign_key"))
  }

  function HeadActs(stmt: CreateStmt, env: Env, rel: RangeVar): seq<Action> {
    NameActs(env.reserved, Some(rel.relname)) + (TempActs(rel) + (KeyActs(PkColumn(stmt)) + ForeignActs(stmt)))
  }

  function BodyActs(stmt: CreateStmt, env: Env, rel: RangeVar): seq<Action> {
    FlatMap(PrefixOf, AllConstraints(stmt))
    + (FlatMap(ColumnAudit(stmt, env), Columns(stmt))
       + [Write(MakeRecord("CREATE TABLE", Some(rel.relname), "table", Notice))])
  }

  /** Everything CREATE TABLE attempts, in order. */
  function TableActs(stmt: CreateStmt, env: Env): seq<Action> {
    match stmt.relation
    case None => []
    case Some(rel) => HeadActs(stmt, env, rel) + BodyActs(stmt, env, rel)
  }

  method AuditTemp(a: Auditor, rel: RangeVar) returns (aborted: bool)
    requires a.Valid()
    modifies a.log, a.log.slots
    ensures a.Valid()
    ensures Run(a.log.history, aborted) == Exec(a.Rules(), old(a.log.history), TempActs(rel))
  {
    aborted := false;
    if rel.temp {
      ExecAppend(a.Rules(), a.log.history, When(!HasPrefix(rel.relname, "tmp"), Err("name_tmp_prefix")), [Note("dml_array_vs_tmp")]);
      if !HasPrefix(rel.relname, "tmp") {
        aborted := a.Emit(Error, "name_tmp_prefix");
        if aborted { return; }
      }
      aborted := a.Emit(Notice, "dml_array_vs_tmp");
    }
  }

  method AuditKey(a: Auditor, stmt: CreateStmt) returns (pk: Option<string>, aborted: bool)
    requires a.Valid()
    modifies a.log, a.log.slots
    ensures a.Valid() && pk == PkColumn(stmt)
    ensures Run(a.log.history, aborted) == Exec(a.Rules(), old(a.log.history), KeyActs(PkColumn(stmt)))
  {
    aborted := false;
    pk := FindPkColumn(stmt);
    if pk.None? {
      aborted := a.Emit(Error, "table_pk_required");
    } else {
      if pk.value != "id" {
        aborted := a.Emit(Error, "table_pk_name_id");
      }
    }
  }

  method AuditTableHead(a: Auditor, env: Env, stmt: CreateStmt, rel: RangeVar)
    returns (pk: Option<string>, aborted: bool)
    requires a.Valid()
    modifies a.log, a.log.slots
    ensures a.Valid()
    ensures !aborted ==> pk == PkColumn(stmt)
    ensures Run(a.log.history, aborted) == Exec(a.Rules(), old(a.log.history), HeadActs(stmt, env, rel))
  {
    pk := None;
    ghost var r2 := KeyActs(PkColumn(stmt)) + ForeignActs(stmt);
    ExecAppend(a.Rules(), a.log.history, NameActs(env.reserved, Some(rel.relname)), TempActs(rel) + r2);
    var ok;
    ok, aborted := AuditCheckName(a, env.reserved, Some(rel.relname));
    if aborted { return; }
    ExecAppend(a.Rules(), a.log.history, TempActs(rel), r2);
    aborted := AuditTemp(a, rel);
    if aborted { return; }
    ExecAppend(a.Rules(), a.log.history, KeyActs(PkColumn(stmt)), ForeignActs(stmt));
    pk, aborted := AuditKey(a, stmt);
    if aborted { return; }
    var foreign := HasForeignKey(stmt);
    if foreign {
      aborted := a.Emit(Error, "table_no_foreign_key");
    }
  }

  method AuditCreateTable(a: Auditor, env: Env, stmt: CreateStmt) returns (aborted: bool)
    requires a.Valid()
    modifies a.log, a.log.slots
    ensures a.Valid()
    ensures Run(a.log.history, aborted) == Exec(a.Rules(), old(a.log.history), TableActs(stmt, env))
  {
    if stmt.relation.None? {
      return false;
    }
    var rel := stmt.relation.value;
    ghost var last := [Write(MakeRecord("CREATE TABLE", Some(rel.relname), "table", Notice))];
    ghost var cols := FlatMap(ColumnAudit(stmt, env), Columns(stmt));
    ghost var names := FlatMap(PrefixOf, AllConstraints(stmt));
    ExecAppend(a.Rules(), a.log.history, HeadActs(stmt, env, rel), BodyActs(stmt, env, rel));
    var pk;
    pk, aborted := AuditTableHead(a, env, stmt, rel);
    if aborted { return; }
    ExecAppend(a.Rules(), a.log.history, names, cols + last);
    aborted := CheckConstraintPrefixes(a, stmt);
    if aborted { return; }
    ExecAppend(a.Rules(), a.log.history, cols, last);
    aborted := AuditColumns(a, env, stmt, pk);
    if aborted { return; }
    a.log.Write("CREATE TABLE", Some(rel.relname), "table", Notice);
  }
}
