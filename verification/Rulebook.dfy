/**
 * What each statement breaks, read off its parse tree alone: the reference against which the checks that the
 * audits attempt are proved complete (rule_common.c, rule_ddl.c, rule_program.c, rule_tcl.c, rule_exists.c).
 */
module Rulebook {
  import opened Core
  import opened Registry
  import opened Verdict
  import opened Ast
  import Text
  import CreateView
  import Program

  // ---- names and types -----------------------------------------------------------------------

  predicate Legal(c: char) {
    'a' <= c <= 'z' || '0' <= c <= '9' || c == '_'
  }

  predicate Identifier(name: string) {
    name != "" && 'a' <= name[0] <= 'z' && forall i :: 0 <= i < |name| ==> Legal(name[i])
  }

  predicate BreaksName(reserved: set<string>, name: string, e: Emission) {
    || (e == Configured("name_charset", Error) && exists i :: 0 <= i < |name| && !Legal(name[i]))
    || (e == Configured("name_start", Error)
        && (name == "" || (!('a' <= name[0] <= 'z') && forall i :: 0 <= i < |name| ==> Legal(name[i]))))
    || (e == Configured("name_len", Error) && Identifier(name) && |name| > 32)
    || (e == Configured("name_reserved", Error) && Identifier(name) && |name| <= 32 && name in reserved)
  }

  predicate Begins(name: string, prefix: string) {
    |prefix| <= |name| && name[..|prefix|] == prefix
  }

  /** The type is written with this last name. */
  predicate Typed(t: Option<TypeName>, name: string) {
    t.Some? && |t.value.names| > 0 && t.value.names[|t.value.names| - 1] == name
  }

  predicate BreaksType(t: Option<TypeName>, e: Emission) {
    || (e == Configured("type_jsonb", Warning) && Typed(t, "json"))
    || (e == Configured("type_numeric", Warning)
        && (Typed(t, "real") || Typed(t, "float4") || Typed(t, "float8") || Typed(t, "double precision")))
    || (e == Configured("type_varchar", Warning) && (Typed(t, "char") || Typed(t, "bpchar") || Typed(t, "nchar")))
  }

  // ---- CREATE TABLE ------------------------------------------------------------------------------

  /** The constraint stands in one of the three places. */
  ghost predicate Declares(t: CreateStmt, con: Constraint) {
    || con in t.constraints
    || TableConstraint(con) in t.tableElts
    || exists col :: Column(col) in t.tableElts && con in col.constraints
  }

  /** The constraint is a primary key that starts with this column. */
  predicate KeyFrom(con: Constraint, k: string) {
    con.contype.Primary? && |con.keys| > 0 && con.keys[0] == k
  }

  ghost predicate EltKeyFrom(e: TableElt, k: string) {
    match e
    case TableConstraint(con) => KeyFrom(con, k)
    case Column(col) => col.colname == k && exists con :: con in col.constraints && con.contype.Primary?
  }

  /** Table constraints of the separate list come first; then the elements in order. */
  ghost predicate LeadsKey(t: CreateStmt, k: string) {
    || (exists i :: 0 <= i < |t.constraints| && KeyFrom(t.constraints[i], k)
          && forall j, k' :: 0 <= j < i ==> !KeyFrom(t.constraints[j], k'))
    || ((forall j, k' :: 0 <= j < |t.constraints| ==> !KeyFrom(t.constraints[j], k'))
        && exists i :: 0 <= i < |t.tableElts| && EltKeyFrom(t.tableElts[i], k)
             && forall j, k' :: 0 <= j < i ==> !EltKeyFrom(t.tableElts[j], k'))
  }

  ghost predicate KeyColumn(t: CreateStmt, col: ColumnDef) {
    || (exists con :: (con in t.constraints || TableConstraint(con) in t.tableElts)
                      && con.contype.Primary? && col.colname in con.keys)
    || (exists con :: con in col.constraints && con.contype.Primary?)
  }

  predicate SerialTyped(t: Option<TypeName>) {
    || Typed(t, "serial") || Typed(t, "bigserial") || Typed(t, "smallserial")
    || Typed(t, "int2") || Typed(t, "int4") || Typed(t, "int8")
    || Typed(t, "smallint") || Typed(t, "integer") || Typed(t, "bigint")
  }

  ghost predicate Contains(name: string, token: string) {
    exists i :: Text.OccursAt(name, token, i)
  }

  ghost predicate HoldsPlaceholder(name: string) {
    || Contains(name, "reserve1") || Contains(name, "reserve2") || Contains(name, "reserve3") || Contains(name, "reserved")
    || Contains(name, "ext_col") || Contains(name, "ext_field") || Contains(name, "spare") || Contains(name, "future")
  }

  ghost predicate BreaksColumn(t: CreateStmt, env: Env, col: ColumnDef, e: Emission) {
    || BreaksName(env.reserved, col.colname, e)
    || BreaksType(col.typeName, e)
    || (e == Configured("table_pk_type_serial", Error) && LeadsKey(t, col.colname)
        && !SerialTyped(col.typeName))
    || (e == Configured("type_min_size", Error) && !LeadsKey(t, col.colname)
        && (Typed(col.typeName, "bigint") || Typed(col.typeName, "int8")
            || (Typed(col.typeName, "numeric") && !col.typeName.value.hasTypmods)))
    || (e == Configured("table_column_not_null", Error) && !col.isNotNull && !KeyColumn(t, col)
        && !(exists con :: con in col.constraints && con.contype.NotNull?))
    || (e == Configured("table_no_reserved_column", Warning)
        && HoldsPlaceholder(col.colname))
  }

  predicate BreaksConstraintName(con: Constraint, e: Emission) {
    con.conname.Some? &&
    match con.contype
    case Primary => e == Configured("name_pk_prefix", Error) && !Begins(con.conname.value, "pk_")
    case Unique => e == Configured("name_uk_prefix", Error) && !Begins(con.conname.value, "uk_")
    case Check => e == Configured("name_ck_prefix", Error) && !Begins(con.conname.value, "ck_")
    case _ => false
  }

  ghost predicate BreaksTable(t: CreateStmt, rel: RangeVar, env: Env, e: Emission) {
    || BreaksName(env.reserved, rel.relname, e)
    || (e == Configured("name_tmp_prefix", Error) && rel.temp && !Begins(rel.relname, "tmp"))
    || (e == Configured("dml_array_vs_tmp", Notice) && rel.temp)
    || (e == Configured("table_pk_required", Error) && !exists k :: LeadsKey(t, k))
    || (e == Configured("table_pk_name_id", Error) && exists k :: k != "id" && LeadsKey(t, k))
    || (e == Configured("table_no_foreign_key", Error) && exists con :: Declares(t, con) && con.contype.Foreign?)
    || (exists con :: Declares(t, con) && BreaksConstraintName(con, e))
    || (exists col :: Column(col) in t.tableElts && BreaksColumn(t, env, col, e))
  }

  // ---- CREATE INDEX --------------------------------------------------------------------------------

  /** Some existing index is as long as the list of named columns, and has no columns but those. */
  ghost predicate Repeats(params: seq<Option<string>>, indexes: seq<ExistingIndex>) {
    var named := |params| - multiset(params)[None];
    named > 0 && exists ix :: ix in indexes && |ix| == named && forall c :: c in ix ==> c.Some? && c in params
  }

  /** The column has statistics with at most two values, or with a distinct share of rows below a tenth. */
  predicate FewValues(distinct: map<string, real>, c: Option<string>) {
    c.Some? && c.value in distinct && -0.1 < distinct[c.value] <= 2.0
  }

  ghost predicate BreaksIndex(stmt: IndexStmt, env: Env, e: Emission) {
    !stmt.isConstraint &&
    (|| (stmt.idxname.Some? && BreaksName(env.reserved, stmt.idxname.value, e))
     || (e == Configured("name_idx_prefix", Error) && stmt.idxname.Some? && !Begins(stmt.idxname.value, "idx_"))
     || (e == Configured("idx_concurrently", Error) && !stmt.concurrent)
     || (e == Configured("idx_method", Error) && stmt.accessMethod == Some("hash") && |stmt.params| > 1)
     || (e == Configured("idx_field_count", Warning) && |stmt.params| > 5)
     || (!stmt.concurrent && stmt.relation.Some?
         && (|| (e == Configured("idx_redundant", Error) && Repeats(stmt.params, env.indexes))
             || (e == Configured("idx_selectivity", Error) && exists c :: c in stmt.params && FewValues(env.distinct, c))
             || (e == Configured("idx_table_count", Warning) && |env.indexes| > 5))))
  }

  // ---- CREATE VIEW and CREATE FUNCTION ---------------------------------------------------------------

  predicate ShowsAll(t: Target) {
    t == Star || t == ColumnRef(true)
  }

  ghost predicate BreaksQuery(query: Option<SelectStmt>, e: Emission) {
    || (e == Configured("view_select_star", Error)
        && exists o, t :: o in CreateView.Operands(query) && t in o.targetList && ShowsAll(t))
    || (e == Configured("view_order_by", Error) && query.Some? && query.value.sorted)
    || (e == Configured("view_nested", Warning) && query.Some?
        && exists f :: f in query.value.fromClause && !f.OtherFrom?)
  }

  ghost predicate BreaksView(stmt: ViewStmt, env: Env, e: Emission) {
    stmt.view.Some? &&
    (|| BreaksName(env.reserved, stmt.view.value.relname, e)
     || (e == Configured("name_vw_prefix", Error) && !Begins(stmt.view.value.relname, "vw_"))
     || BreaksQuery(stmt.query, e))
  }

  ghost predicate BreaksBody(text: string, e: Emission) {
    || (e == Configured("prog_ddl_forbidden", Warning)
        && (Text.OccursNoCase(text, "create ") || Text.OccursNoCase(text, "alter ")
            || Text.OccursNoCase(text, "drop ") || Text.OccursNoCase(text, "truncate")))
    || (e == Configured("prog_close_cursor", Warning)
        && Text.OccursNoCase(text, "declare") && !Text.OccursNoCase(text, "close"))
    || (e == Configured("prog_business_logic", Warning) && |text| > 500)
  }

  predicate BreaksParam(reserved: set<string>, p: Param, e: Emission) {
    (p.name.Some? && BreaksName(reserved, p.name.value, e)) || BreaksType(p.argType, e)
  }

  ghost predicate BreaksFunction(f: FuncStmt, env: Env, e: Emission) {
    f.funcname != [] &&
    (|| BreaksName(env.reserved, f.funcname[|f.funcname| - 1], e)
     || (exists p :: p in f.params && BreaksParam(env.reserved, p, e))
     || BreaksBody(Program.BodyText(f.options, 8192), e))
  }

  // ---- transactions ------------------------------------------------------------------------------------

  predicate BreaksTransaction(kind: TxnKind, open: bool, counted: nat, e: Emission) {
    match kind
    case Begin | Start => e == Configured("tcl_begin", Notice)
    case Commit => e == Configured("tcl_commit", Notice)
                   || (e == Configured("tcl_multi_ddl_in_txn", Warning) && open && counted >= 2)
    case Rollback => e == Configured("tcl_rollback", Notice)
                     || (e == Configured("tcl_multi_ddl_in_txn", Warning) && open && counted >= 2)
    case Savepoint | Release | RollbackTo => e == Configured("tcl_savepoint", Notice)
    case Prepare | CommitPrepared | RollbackPrepared => e == Configured("tcl_prepared", Warning)
  }

  // ---- existing objects ----------------------------------------------------------------------------------

  function LookedUp(tag: NodeTag, variant: bool): ObjType {
    match tag
    case CreateTag | CreateForeignTag => Relation
    case ViewTag => ViewObj
    case SeqTag => Sequence
    case IndexTag => IndexObj
    case CtasTag => if variant then Matview else Relation
    case DomainTag | CompositeTag | EnumTag | RangeTag => Type
    case DefineTag => if variant then Collation else Type
    case SchemaTag => Schema
    case DatabaseTag => Database
    case TablespaceTag => Tablespace
    case ExtensionTag => Extension
    case LanguageTag => Language
    case AmTag => Am
    case PublicationTag => Publication
    case SubscriptionTag => Subscription
    case PolicyTag => Policy
    case ConversionTag => Conversion
    case StatsTag => Statistics
  }

  function Or(nsp: Option<string>, default: string): string {
    if nsp.Some? then nsp.value else default
  }

  /** Domains, enums and ranges are looked for in `public` only; objects outside schemas have no namespace. */
  function Space(tag: NodeTag, nsp: Option<string>): string {
    match tag
    case DomainTag | EnumTag | RangeTag => "public"
    case SchemaTag | DatabaseTag | TablespaceTag | ExtensionTag | LanguageTag | AmTag | PublicationTag | SubscriptionTag => ""
    case _ => Or(nsp, "public")
  }

  predicate TakenRelation(env: Env, objtype: ObjType, rel: Option<RangeVar>) {
    rel.Some? && ObjKey(objtype, rel.value.relname, Or(rel.value.schemaname, "public")) in env.catalog
  }

  /** The object to be created exists; a concurrent index is never looked up. */
  predicate Taken(node: CreateNode, env: Env) {
    match node
    case Table(t) => TakenRelation(env, Relation, t.relation)
    case ForeignTable(t) => TakenRelation(env, Relation, t.relation)
    case View(v) => TakenRelation(env, ViewObj, v.view)
    case Index(ix) =>
      !ix.concurrent && ix.idxname.Some?
      && ObjKey(IndexObj, ix.idxname.value, Or(if ix.relation.Some? then ix.relation.value.schemaname else None, "public")) in env.catalog
    case Other(tag, variant, name, nsp, _, _) =>
      name.Some? && ObjKey(LookedUp(tag, variant), name.value, Space(tag, nsp)) in env.catalog
  }

  /** IF NOT EXISTS is written, and read for this kind of object. */
  predicate Tolerant(node: CreateNode) {
    match node
    case Table(t) => t.ifNotExists
    case ForeignTable(t) => t.ifNotExists
    case Index(ix) => ix.ifNotExists
    case View(_) => false
    case Other(tag, _, _, _, ine, _) =>
      ine && tag in {CreateTag, CreateForeignTag, SeqTag, IndexTag, CtasTag, SchemaTag, DefineTag, ExtensionTag,
                     PublicationTag, ConversionTag, StatsTag}
  }

  // ---- all statements ----------------------------------------------------------------------------------------

  ghost predicate BreaksContent(node: CreateNode, env: Env, e: Emission) {
    match node
    case Table(t) => t.relation.Some? && BreaksTable(t, t.relation.value, env, e)
    case ForeignTable(t) => t.relation.Some? && BreaksTable(t, t.relation.value, env, e)
    case Index(ix) => BreaksIndex(ix, env, e)
    case View(v) => BreaksView(v, env, e)
    case Other(_, _, _, _, _, audit) => e in audit.checks
  }

  /** The check `e` applies to the statement. An existing object hides all content rules. */
  ghost predicate Breaks(stmt: Stmt, env: Env, open: bool, counted: nat, e: Emission) {
    match stmt
    case Create(node) =>
      if Taken(node, env) then
        e == if Tolerant(node) then Fixed("obj_exists_check", Warning) else Effective("obj_exists_check", Error)
      else BreaksContent(node, env, e)
    case Function(f) => BreaksFunction(f, env, e)
    case Transaction(kind, _) => BreaksTransaction(kind, open, counted, e)
    case Simple(audit, _) => e in audit.checks
    case Unmapped(_) => false
  }

  /**
   * The level at which a check reports: for a listed rule, unless it is switched off, the configured level, or
   * for fixed checks the one passed in; before the configuration exists the level passed in or the default.
   * Unknown rules report at the level passed in.
   */
  ghost predicate Reports(rules: Rules, e: Emission, level: Level) {
    if exists k :: 0 <= k < |rules.defs| && rules.defs[k].id == e.rule then
      exists k :: 0 <= k < |rules.defs| && rules.defs[k].id == e.rule &&
        match rules.configs
        case Some(cs) => cs[k].enabled && level == (if e.Fixed? then e.level else cs[k].level)
        case None => level == (match e case Configured(_, d) => d case Fixed(_, l) => l case Effective(_, _) => rules.defs[k].defaultLevel)
    else level == (match e case Configured(_, d) => d case Fixed(_, l) => l case Effective(_, d) => d)
  }

  /** The record written behind the checks, as far as the statement gets there. */
  function Ending(stmt: Stmt, env: Env): Option<Closing> {
    match stmt
    case Create(node) =>
      if Taken(node, env) then None
      else (match node
        case Table(t) => if t.relation.None? then None else Some(Closing("CREATE TABLE", Some(t.relation.value.relname), "table", Notice))
        case ForeignTable(t) => if t.relation.None? then None else Some(Closing("CREATE TABLE", Some(t.relation.value.relname), "table", Notice))
        case View(v) => if v.view.None? then None else Some(Closing("CREATE VIEW", Some(v.view.value.relname), "view", Notice))
        case Index(ix) =>
          var table := if ix.relation.Some? then Some(ix.relation.value.relname) else None;
          var subject := if ix.idxname.Some? then ix.idxname else table;
          if ix.isConstraint then Some(Closing("CREATE INDEX (constraint)", ix.idxname, "index", Notice))
          else Some(Closing(if ix.concurrent then "CREATE INDEX (concurrent)" else "CREATE INDEX", subject, "index", Notice))
        case Other(_, _, _, _, _, audit) => audit.closing)
    case Function(f) =>
      if f.funcname == [] then None
      else Some(Closing(if f.isProcedure then "CREATE PROCEDURE" else "CREATE FUNCTION", Some(f.funcname[|f.funcname| - 1]), "program", Notice))
    case Transaction(kind, _) => Some(Closing("TCL", Some(Spelled(kind)), "tcl", Notice))
    case Simple(audit, _) => audit.closing
    case Unmapped(cmdname) => Some(Closing(cmdname, None, "echo", Notice))
  }

  function Spelled(kind: TxnKind): string {
    match kind
    case Begin | Start => "BEGIN/START TRANSACTION"
    case Commit => "COMMIT"
    case Rollback => "ROLLBACK"
    case Savepoint => "SAVEPOINT"
    case Release => "RELEASE SAVEPOINT"
    case RollbackTo => "ROLLBACK TO SAVEPOINT"
    case Prepare => "PREPARE TRANSACTION"
    case CommitPrepared => "COMMIT PREPARED"
    case RollbackPrepared => "ROLLBACK PREPARED"
  }
}
