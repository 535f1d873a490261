/** When moving table constraints can change the verdict on CREATE TABLE (rule_ddl.c). */
module PlacementVerdict {
  import opened Core
  import opened Registry
  import opened Verdict
  import opened Ast
  import opened RuleCommon
  import opened CreateTable
  import opened TableTheorems
  import opened Acceptance
  import opened Statements
  import opened Transactions
  import SourceTable
  import TableAcceptance
  import Exists

  // ---- the condition ------------------------------------------------------------------------

  /** Some arrangement of the constraints makes this the key column. */
  predicate CanBeKey(stmt: CreateStmt, k: string) {
    k in ConstraintKeys(stmt) || (ColumnKeys(stmt) != [] && k == ColumnKeys(stmt)[0])
  }

  /** A column of that name has a type that is not allowed for keys. */
  predicate NonSerial(cols: seq<ColumnDef>, k: string) {
    exists col :: col in cols && col.colname == k && !SerialType(TypeNameOf(col.typeName))
  }

  /** A column of another name has a type that is allowed for keys only. */
  predicate Oversized(cols: seq<ColumnDef>, k: string) {
    exists col :: col in cols && col.colname != k && (BigInt(TypeNameOf(col.typeName)) || BareNumeric(col))
  }

  predicate Alike(cols: seq<ColumnDef>, p: string, q: string) {
    && (p == "id" <==> q == "id")
    && (NonSerial(cols, p) <==> NonSerial(cols, q))
    && (Oversized(cols, p) <==> Oversized(cols, q))
  }

  /** All columns that could become the key column are alike for the three rules about it. */
  ghost predicate Harmless(stmt: CreateStmt) {
    forall p, q :: CanBeKey(stmt, p) && CanBeKey(stmt, q) ==> Alike(Columns(stmt), p, q)
  }

  lemma SettledIsHarmless(stmt: CreateStmt)
    requires Settled(stmt)
    ensures Harmless(stmt)
  {
    forall p, q | CanBeKey(stmt, p) && CanBeKey(stmt, q)
      ensures p == q
    {
    }
  }

  // ---- what depends on the key column -----------------------------------------------------------

  function ColumnFixed(stmt: CreateStmt, env: Env, col: ColumnDef): seq<Action> {
    NameActs(env.reserved, Some(col.colname)) + (TypeActs(col.typeName) + ColumnRest(stmt, col))
  }

  /** Attempted whatever the key column is. */
  ghost predicate FixedPart(a: Action, stmt: CreateStmt, env: Env, rel: RangeVar) {
    || a in NameActs(env.reserved, Some(rel.relname))
    || a in TempActs(rel)
    || a in ForeignActs(stmt)
    || a in FlatMap(PrefixOf, AllConstraints(stmt))
    || (exists col :: col in Columns(stmt) && a in ColumnFixed(stmt, env, col))
    || a == Write(MakeRecord("CREATE TABLE", Some(rel.relname), "table", Notice))
  }

  ghost predicate KeyPart(a: Action, cols: seq<ColumnDef>, pk: Option<string>) {
    a in KeyActs(pk) || exists col :: col in cols && a in KeyTypeActs(pk, col)
  }

  lemma ColumnMembers(stmt: CreateStmt, env: Env, col: ColumnDef, pk: Option<string>, a: Action)
    requires pk == PkColumn(stmt)
    ensures a in ColumnActs(stmt, env, col) <==> a in ColumnFixed(stmt, env, col) || a in KeyTypeActs(pk, col)
  {
    var name, types, key, rest := NameActs(env.reserved, Some(col.colname)), TypeActs(col.typeName),
                                  KeyTypeActs(pk, col), ColumnRest(stmt, col);
    assert ColumnActs(stmt, env, col) == name + (types + (key + rest));
    assert ColumnFixed(stmt, env, col) == name + (types + rest);
  }

  lemma AllColumnsMembers(stmt: CreateStmt, env: Env, pk: Option<string>, a: Action)
    requires pk == PkColumn(stmt)
    ensures a in FlatMap(ColumnAudit(stmt, env), Columns(stmt))
       <==> (exists col :: col in Columns(stmt) && a in ColumnFixed(stmt, env, col))
            || exists col :: col in Columns(stmt) && a in KeyTypeActs(pk, col)
  {
    FlatMapMember(ColumnAudit(stmt, env), Columns(stmt), a);
    forall col: ColumnDef
      ensures a in ColumnAudit(stmt, env)(col) <==> a in ColumnFixed(stmt, env, col) || a in KeyTypeActs(pk, col)
    {
      ColumnMembers(stmt, env, col, pk, a);
    }
  }

  lemma Members(stmt: CreateStmt, env: Env, rel: RangeVar, pk: Option<string>, a: Action)
    requires stmt.relation == Some(rel) && pk == PkColumn(stmt)
    ensures a in TableActs(stmt, env) <==> FixedPart(a, stmt, env, rel) || KeyPart(a, Columns(stmt), pk)
  {
    AllColumnsMembers(stmt, env, pk, a);
    var name, temp, key, foreign := NameActs(env.reserved, Some(rel.relname)), TempActs(rel), KeyActs(pk), ForeignActs(stmt);
    var names, cols := FlatMap(PrefixOf, AllConstraints(stmt)), FlatMap(ColumnAudit(stmt, env), Columns(stmt));
    var last := [Write(MakeRecord("CREATE TABLE", Some(rel.relname), "table", Notice))];
    assert TableActs(stmt, env) == (name + (temp + (key + foreign))) + (names + (cols + last));
  }

  lemma KeyPartIs(a: Action, cols: seq<ColumnDef>, pk: string)
    ensures KeyPart(a, cols, Some(pk))
       <==> (a == Err("table_pk_name_id") && pk != "id")
            || (a == Err("table_pk_type_serial") && NonSerial(cols, pk))
            || (a == Err("type_min_size") && Oversized(cols, pk))
  {
    forall col | col in cols
      ensures a in KeyTypeActs(Some(pk), col)
         <==> (a == Err("table_pk_type_serial") && col.colname == pk && !SerialType(TypeNameOf(col.typeName)))
              || (a == Err("type_min_size") && col.colname != pk && (BigInt(TypeNameOf(col.typeName)) || BareNumeric(col)))
    {
    }
  }

  lemma SameFixedPart(a: Action, s: CreateStmt, t: CreateStmt, env: Env, rel: RangeVar)
    requires Rearranged(s, t)
    ensures FixedPart(a, s, env, rel) <==> FixedPart(a, t, env, rel)
  {
    SameConstraints(s, t);
    FlatMapPermutes(PrefixOf, AllConstraints(s), AllConstraints(t));
    SameElements(FlatMap(PrefixOf, AllConstraints(s)), FlatMap(PrefixOf, AllConstraints(t)));
    forall col: ColumnDef
      ensures ColumnFixed(s, env, col) == ColumnFixed(t, env, col)
    {
      SameColumnRest(s, t, col);
    }
  }

  // ---- harmless tables ------------------------------------------------------------------------------

  lemma PickedCanBeKey(s: CreateStmt, t: CreateStmt)
    requires Rearranged(s, t)
    ensures PkColumn(t).Some? ==> CanBeKey(s, PkColumn(t).value)
    ensures PkColumn(t).None? <==> PkColumn(s).None?
  {
    FirstCandidate(s);
    FirstCandidate(t);
    FlatMapPermutes(PkOfConstraint, TableConstraints(s), TableConstraints(t));
    SameElements(ConstraintKeys(s), ConstraintKeys(t));
  }

  lemma KeyPartSame(a: Action, cols: seq<ColumnDef>, p: Option<string>, q: Option<string>)
    requires p == q || (p.Some? && q.Some? && Alike(cols, p.value, q.value))
    ensures KeyPart(a, cols, p) <==> KeyPart(a, cols, q)
  {
    if p != q {
      KeyPartIs(a, cols, p.value);
      KeyPartIs(a, cols, q.value);
    }
  }

  lemma PicksAreAlike(s: CreateStmt, t: CreateStmt, p: Option<string>, q: Option<string>)
    requires Rearranged(s, t) && Harmless(s) && p == PkColumn(s) && q == PkColumn(t)
    ensures p == q || (p.Some? && q.Some? && Alike(Columns(s), p.value, q.value))
  {
    PickedCanBeKey(s, s);
    PickedCanBeKey(s, t);
  }

  lemma SameActions(s: CreateStmt, t: CreateStmt, env: Env, rel: RangeVar, p: Option<string>, q: Option<string>, a: Action)
    requires Rearranged(s, t) && s.relation == Some(rel) && p == PkColumn(s) && q == PkColumn(t)
    requires p == q || (p.Some? && q.Some? && Alike(Columns(s), p.value, q.value))
    ensures a in TableActs(s, env) <==> a in TableActs(t, env)
  {
    Members(s, env, rel, p, a);
    Members(t, env, rel, q, a);
    SameFixedPart(a, s, t, env, rel);
    KeyPartSame(a, Columns(s), p, q);
  }

  /** No configuration of any registry separates two arrangements of a harmless table. */
  lemma HarmlessPlacement(rules: Rules, s: CreateStmt, t: CreateStmt, env: Env, tcl: Tcl)
    requires Rearranged(s, t) && Harmless(s)
    ensures Blocked(rules, Create(Table(s)), env, tcl) == Blocked(rules, Create(Table(t)), env, tcl)
  {
    TableAcceptance.SameConflict(s, t, env);
    if s.relation.Some? {
      PicksAreAlike(s, t, PkColumn(s), PkColumn(t));
      AbortsIffSomeBlocks(rules, [], TableActs(s, env));
      AbortsIffSomeBlocks(rules, [], TableActs(t, env));
      forall a: Action
        ensures a in TableActs(s, env) <==> a in TableActs(t, env)
      {
        SameActions(s, t, env, s.relation.value, PkColumn(s), PkColumn(t), a);
      }
    }
  }

  // ---- a configuration with one rule ------------------------------------------------------------------

  function Only(defs: seq<RuleDef>, id: string): seq<RuleConfig> {
    seq(|defs|, i requires 0 <= i < |defs| => RuleConfig(defs[i].id == id, Error))
  }

  lemma OnlyBlocks(defs: seq<RuleDef>, id: string, a: Action)
    requires a.Emit? ==> a.e.Configured? && Find(defs, a.e.rule) >= 0
    ensures Blocks(RuleTable(defs, Some(Only(defs, id))), a) <==> a.Emit? && a.e.rule == id
  {
  }

  predicate KeyRule(r: StrictRule) {
    r.PkNameId? || r.PkTypeSerial? || r.TypeMinSize?
  }

  predicate KeyId(id: string) {
    id == "table_pk_name_id" || id == "table_pk_type_serial" || id == "type_min_size"
  }

  lemma KeyIds(r: StrictRule)
    ensures KeyId(IdOf(r)) <==> KeyRule(r)
  {
  }

  /** A record, or a check of a rule that has nothing to do with the key column. */
  ghost predicate Unrelated(a: Action) {
    a.Write? || (a.e.Configured? && (a.e.rule == ARRAY_HINT || exists r :: !KeyRule(r) && a.e.rule == IdOf(r)))
  }

  ghost predicate AllUnrelated(acts: seq<Action>) {
    forall a :: a in acts ==> Unrelated(a)
  }

  lemma CheckIsUnrelated(r: StrictRule, cond: bool, act: Action)
    requires !KeyRule(r) && (act == Err(IdOf(r)) || act == Adv(IdOf(r)))
    ensures AllUnrelated(When(cond, act))
  {
  }

  lemma NamesAreUnrelated(reserved: set<string>, name: string)
    ensures AllUnrelated(NameActs(reserved, Some(name)))
  {
    var r := if name == "" then NameStart else if !CharsetOk(name) then NameCharset
             else if !StartOk(name) then NameStart else if |name| > NAME_MAXLEN then NameLen else NameReserved;
    assert NameActs(reserved, Some(name)) == [] || NameActs(reserved, Some(name)) == [Err(IdOf(r))];
  }

  lemma PrefixIsUnrelated(con: Constraint)
    ensures AllUnrelated(PrefixOf(con))
  {
    if con.conname.Some? {
      match con.contype {
        case Primary => CheckIsUnrelated(PkPrefix, !HasPrefix(con.conname.value, "pk_"), Err("name_pk_prefix"));
        case Unique => CheckIsUnrelated(UkPrefix, !HasPrefix(con.conname.value, "uk_"), Err("name_uk_prefix"));
        case Check => CheckIsUnrelated(CkPrefix, !HasPrefix(con.conname.value, "ck_"), Err("name_ck_prefix"));
        case _ =>
      }
    }
  }

  lemma TypesAreUnrelated(t: Option<TypeName>)
    ensures AllUnrelated(TypeActs(t))
  {
    if TypeNameOf(t).Some? {
      var name := TypeNameOf(t).value;
      CheckIsUnrelated(TypeJsonb, name == "json", Adv("type_jsonb"));
      CheckIsUnrelated(TypeNumeric, FloatType(name), Adv("type_numeric"));
      CheckIsUnrelated(TypeVarchar, FixedCharType(name), Adv("type_varchar"));
    }
  }

  lemma ColumnIsUnrelated(stmt: CreateStmt, env: Env, col: ColumnDef)
    ensures AllUnrelated(ColumnFixed(stmt, env, col))
  {
    NamesAreUnrelated(env.reserved, col.colname);
    TypesAreUnrelated(col.typeName);
    CheckIsUnrelated(ColumnNotNull, !NotNullDeclared(col) && !InPk(stmt, col), Err("table_column_not_null"));
    CheckIsUnrelated(NoReservedColumn, ReservedColumn(col.colname), Adv("table_no_reserved_column"));
  }

  lemma TempIsUnrelated(rel: RangeVar)
    ensures AllUnrelated(TempActs(rel))
  {
    CheckIsUnrelated(TmpPrefix, !HasPrefix(rel.relname, "tmp"), Err("name_tmp_prefix"));
  }

  lemma FixedIsUnrelated(a: Action, stmt: CreateStmt, env: Env, rel: RangeVar)
    requires FixedPart(a, stmt, env, rel)
    ensures Unrelated(a)
  {
    NamesAreUnrelated(env.reserved, rel.relname);
    TempIsUnrelated(rel);
    CheckIsUnrelated(NoForeignKey, HasForeign(AllConstraints(stmt)), Err("table_no_foreign_key"));
    if a in FlatMap(PrefixOf, AllConstraints(stmt)) {
      FlatMapMember(PrefixOf, AllConstraints(stmt), a);
      var con :| con in AllConstraints(stmt) && a in PrefixOf(con);
      PrefixIsUnrelated(con);
    } else if exists col :: col in Columns(stmt) && a in ColumnFixed(stmt, env, col) {
      var col :| col in Columns(stmt) && a in ColumnFixed(stmt, env, col);
      ColumnIsUnrelated(stmt, env, col);
    }
  }

  /** The registry contains the rules of CREATE TABLE. */
  ghost predicate Knows(defs: seq<RuleDef>) {
    (forall r :: Find(defs, IdOf(r)) >= 0) && Find(defs, ARRAY_HINT) >= 0
  }

  /** The registry of the source does. */
  lemma SourceKnows(defs: seq<RuleDef>)
    requires SourceTable.Mirrors(defs)
    ensures Knows(defs)
  {
    SourceTable.SourceStartsStandard(defs);
    assert Standard(RuleTable(defs, Some(Defaults(defs))));
  }

  /** With one key rule switched on alone, the table is blocked exactly when that rule is attempted. */
  lemma OnlyDecides(defs: seq<RuleDef>, id: string, stmt: CreateStmt, env: Env, rel: RangeVar, pk: string)
    requires Knows(defs) && KeyId(id) && stmt.relation == Some(rel) && PkColumn(stmt) == Some(pk)
    ensures Exec(RuleTable(defs, Some(Only(defs, id))), [], TableActs(stmt, env)).aborted
       <==> KeyPart(Err(id), Columns(stmt), Some(pk))
  {
    var rules: Rules := RuleTable(defs, Some(Only(defs, id)));
    AbortsIffSomeBlocks(rules, [], TableActs(stmt, env));
    forall a | a in TableActs(stmt, env)
      ensures Blocks(rules, a) <==> a == Err(id) && KeyPart(a, Columns(stmt), Some(pk))
    {
      ActionUnderOnly(defs, id, stmt, env, rel, pk, a);
    }
    Members(stmt, env, rel, Some(pk), Err(id));
  }

  lemma KeyIdsAreKnown(defs: seq<RuleDef>)
    requires Knows(defs)
    ensures Find(defs, "table_pk_name_id") >= 0 && Find(defs, "table_pk_type_serial") >= 0 && Find(defs, "type_min_size") >= 0
  {
    assert Find(defs, IdOf(PkNameId)) >= 0 && Find(defs, IdOf(PkTypeSerial)) >= 0 && Find(defs, IdOf(TypeMinSize)) >= 0;
  }

  lemma HintIsNoKeyId()
    ensures !KeyId(ARRAY_HINT)
  {
  }

  lemma ActionUnderOnly(defs: seq<RuleDef>, id: string, stmt: CreateStmt, env: Env, rel: RangeVar, pk: string, a: Action)
    requires Knows(defs) && KeyId(id) && stmt.relation == Some(rel) && PkColumn(stmt) == Some(pk)
    requires a in TableActs(stmt, env)
    ensures Blocks(RuleTable(defs, Some(Only(defs, id))), a) <==> a == Err(id) && KeyPart(a, Columns(stmt), Some(pk))
  {
    Members(stmt, env, rel, Some(pk), a);
    if FixedPart(a, stmt, env, rel) {
      FixedIsUnrelated(a, stmt, env, rel);
      UnrelatedUnderOnly(defs, id, a);
    } else {
      KeyPartIs(a, Columns(stmt), pk);
      KeyIdsAreKnown(defs);
      OnlyBlocks(defs, id, a);
    }
  }

  lemma UnrelatedUnderOnly(defs: seq<RuleDef>, id: string, a: Action)
    requires Knows(defs) && KeyId(id) && Unrelated(a)
    ensures !Blocks(RuleTable(defs, Some(Only(defs, id))), a) && a != Err(id)
  {
    HintIsNoKeyId();
    if a.Emit? && a.e.rule != ARRAY_HINT {
      var r :| !KeyRule(r) && a.e.rule == IdOf(r);
      KeyIds(r);
    }
    OnlyBlocks(defs, id, a);
  }

  // ---- the exact condition -----------------------------------------------------------------------------

  ghost predicate SameVerdict(defs: seq<RuleDef>, configs: seq<RuleConfig>, s: CreateStmt, t: CreateStmt, env: Env, tcl: Tcl)
    requires |configs| == |defs|
  {
    var rules: Rules := RuleTable(defs, Some(configs));
    Blocked(rules, Create(Table(s)), env, tcl) == Blocked(rules, Create(Table(t)), env, tcl)
  }

  /** No configuration of this registry accepts one arrangement and blocks another. */
  ghost predicate NeverSeparated(defs: seq<RuleDef>, stmt: CreateStmt, env: Env, tcl: Tcl) {
    forall configs, t :: |configs| == |defs| && Rearranged(stmt, t) ==> SameVerdict(defs, configs, stmt, t, env, tcl)
  }

  /** Some arrangement has the given column as its key column. */
  lemma ArrangeFor(stmt: CreateStmt, k: string) returns (t: CreateStmt)
    requires CanBeKey(stmt, k)
    ensures Rearranged(stmt, t) && PkColumn(t) == Some(k)
  {
    var cons := TableConstraints(stmt);
    if k in ConstraintKeys(stmt) {
      var front := KeyFirst(cons, k);
      ArrangedIsRearranged(stmt, front, false);
      t := Arranged(stmt, front, false);
    } else {
      ArrangedIsRearranged(stmt, cons, true);
      t := Arranged(stmt, cons, true);
    }
  }

  /** The key rule for which two columns are not alike. */
  lemma Distinguish(cols: seq<ColumnDef>, p: string, q: string) returns (id: string)
    requires !Alike(cols, p, q)
    ensures KeyId(id) && (KeyPart(Err(id), cols, Some(p)) <==> !KeyPart(Err(id), cols, Some(q)))
  {
    id := if !(p == "id" <==> q == "id") then "table_pk_name_id"
          else if !(NonSerial(cols, p) <==> NonSerial(cols, q)) then "table_pk_type_serial"
          else "type_min_size";
    KeyPartIs(Err(id), cols, p);
    KeyPartIs(Err(id), cols, q);
  }

  lemma OnlySeparates(defs: seq<RuleDef>, stmt: CreateStmt, env: Env, tcl: Tcl, p: string, q: string)
    requires Knows(defs) && stmt.relation.Some? && !Exists.Conflict(Table(stmt), env)
    requires CanBeKey(stmt, p) && CanBeKey(stmt, q) && !Alike(Columns(stmt), p, q)
    ensures !NeverSeparated(defs, stmt, env, tcl)
  {
    var s := ArrangeFor(stmt, p);
    var t := ArrangeFor(stmt, q);
    var id := Distinguish(Columns(stmt), p, q);
    var configs := Only(defs, id);
    TableAcceptance.SameConflict(stmt, s, env);
    TableAcceptance.SameConflict(stmt, t, env);
    OnlyDecides(defs, id, s, env, stmt.relation.value, p);
    OnlyDecides(defs, id, t, env, stmt.relation.value, q);
    assert !SameVerdict(defs, configs, stmt, s, env, tcl) || !SameVerdict(defs, configs, stmt, t, env, tcl);
  }

  /**
   * Moving or reordering table constraints can change the verdict on a CREATE TABLE for a free name under
   * some configuration exactly when two columns that could become the key column differ in being `id`,
   * in having a type that keys may not have, or in what they leave to the other columns.
   */
  lemma PlacementDecidesIff(defs: seq<RuleDef>, stmt: CreateStmt, env: Env, tcl: Tcl)
    requires Knows(defs) && stmt.relation.Some? && !Exists.Conflict(Table(stmt), env)
    ensures NeverSeparated(defs, stmt, env, tcl) <==> Harmless(stmt)
  {
    if Harmless(stmt) {
      forall configs, t | |configs| == |defs| && Rearranged(stmt, t)
        ensures SameVerdict(defs, configs, stmt, t, env, tcl)
      {
        HarmlessPlacement(RuleTable(defs, Some(configs)), stmt, t, env, tcl);
      }
    } else {
      var p, q :| CanBeKey(stmt, p) && CanBeKey(stmt, q) && !Alike(Columns(stmt), p, q);
      OnlySeparates(defs, stmt, env, tcl, p, q);
    }
  }

  lemma IntColumnsAreAlike(cols: seq<ColumnDef>, p: string, q: string)
    requires forall col :: col in cols ==> TypeNameOf(col.typeName) == Some("int4")
    requires p != "id" && q != "id"
    ensures Alike(cols, p, q)
  {
    assert SerialType(Some("int4")) && !BigInt(Some("int4"));
    assert forall col :: col in cols ==> !BareNumeric(col);
  }

  /** Different keys alone do not matter: with keys on two int columns, neither called `id`, no order is better. */
  lemma UnsettledYetHarmless(stmt: CreateStmt, a: string, b: string, cols: seq<ColumnDef>)
    requires a != b && a != "id" && b != "id" && stmt.constraints == []
    requires cols == [TableAcceptance.IntColumn(a), TableAcceptance.IntColumn(b)]
    requires stmt.tableElts == ColumnElts(cols) + ConstraintElts([TableAcceptance.KeyOn(a), TableAcceptance.KeyOn(b)])
    ensures !Settled(stmt) && Harmless(stmt)
  {
    PlainTable(stmt, cols, [TableAcceptance.KeyOn(a), TableAcceptance.KeyOn(b)]);
    TableAcceptance.TwoKeyNames(a, b);
    TwoKeysUnsettled(stmt, a, b);
    OtherNamesAreAlike(stmt, cols);
  }

  lemma TwoKeysUnsettled(stmt: CreateStmt, a: string, b: string)
    requires a != b && ConstraintKeys(stmt) == [a, b]
    ensures !Settled(stmt)
  {
    assert ConstraintKeys(stmt)[0] == a && ConstraintKeys(stmt)[1] == b;
  }

  lemma OtherNamesAreAlike(stmt: CreateStmt, cols: seq<ColumnDef>)
    requires Columns(stmt) == cols && ColumnKeys(stmt) == [] && "id" !in ConstraintKeys(stmt)
    requires forall col :: col in cols ==> TypeNameOf(col.typeName) == Some("int4")
    ensures Harmless(stmt)
  {
    forall p, q | CanBeKey(stmt, p) && CanBeKey(stmt, q)
      ensures Alike(Columns(stmt), p, q)
    {
      IntColumnsAreAlike(cols, p, q);
    }
  }
}
