/** The parts of PostgreSQL's raw parse trees that the utility hook reads. */
module Ast {
  import opened Core
  import opened Verdict

  datatype RangeVar = RangeVar(relname: string, schemaname: Option<string>, temp: bool)

  datatype TypeName = TypeName(names: seq<string>, hasTypmods: bool)

  datatype ConType = Primary | Unique | Check | Foreign | NotNull | OtherConstraint

  datatype Constraint = Constraint(contype: ConType, conname: Option<string>, keys: seq<string>)

  datatype ColumnDef = ColumnDef(colname: string, typeName: Option<TypeName>, isNotNull: bool,
                                 constraints: seq<Constraint>)

  /** An element of a table definition; newer servers keep table constraints here. */
  datatype TableElt = Column(col: ColumnDef) | TableConstraint(con: Constraint)

  datatype CreateStmt = CreateStmt(relation: Option<RangeVar>, tableElts: seq<TableElt>,
                                   constraints: seq<Constraint>, ifNotExists: bool)

  /** An index parameter: a column, or an expression when the name is missing. */
  datatype IndexStmt = IndexStmt(idxname: Option<string>, relation: Option<RangeVar>,
                                 params: seq<Option<string>>, accessMethod: Option<string>,
                                 concurrent: bool, isConstraint: bool, ifNotExists: bool)

  datatype Target = NoValue | ColumnRef(lastIsStar: bool) | Star | OtherValue

  datatype FromItem = RangeSubselect(query: SelectStmt) | JoinExpr(left: FromItem, right: FromItem) | OtherFrom

  /** `others` are the queries of the WITH clause and those inside expressions. */
  datatype SelectStmt = SelectStmt(targetList: seq<Target>, fromClause: seq<FromItem>, sorted: bool,
                                   larg: Option<SelectStmt>, rarg: Option<SelectStmt>, others: seq<SelectStmt>)

  datatype ViewStmt = ViewStmt(view: Option<RangeVar>, query: Option<SelectStmt>)

  datatype BodyArg = Items(items: seq<Option<string>>) | Whole(text: string)

  datatype FuncOption = OtherOption | As(arg: Option<BodyArg>)

  datatype Param = Param(name: Option<string>, argType: Option<TypeName>)

  datatype FuncStmt = FuncStmt(funcname: seq<string>, isProcedure: bool, params: seq<Param>,
                               options: seq<FuncOption>)

  datatype TxnKind =
    | Begin | Start | Commit | Rollback | Savepoint | Release | RollbackTo
    | Prepare | CommitPrepared | RollbackPrepared

  /** A statement kind that only checks a few rules and perhaps writes one record. */
  datatype SimpleAudit = SimpleAudit(checks: seq<Emission>, closing: Option<Closing>)

  /** The arguments of a closing audit_record_write call. */
  datatype Closing = Closing(stmtType: string, objectName: Option<string>, ruleId: string, level: Level)

  /** Node tags that the existence table mentions. */
  datatype NodeTag =
    | CreateTag | CreateForeignTag | ViewTag | SeqTag | IndexTag | CtasTag | SchemaTag | DatabaseTag
    | TablespaceTag | DomainTag | CompositeTag | EnumTag | RangeTag | DefineTag | ExtensionTag
    | LanguageTag | AmTag | PublicationTag | SubscriptionTag | PolicyTag | ConversionTag | StatsTag

  /** A statement of the CREATE family that goes through the existence check. */
  datatype CreateNode =
    | Table(table: CreateStmt)
    | ForeignTable(table: CreateStmt)
    | Index(index: IndexStmt)
    | View(view: ViewStmt)
    // `variant` tells a materialized view from a table (CTAS) or a collation from a type (DEFINE).
    | Other(tag: NodeTag, variant: bool, name: Option<string>, nspname: Option<string>,
            ifNotExists: bool, audit: SimpleAudit)

  datatype Stmt =
    | Create(node: CreateNode)
    | Function(func: FuncStmt)
    // `chain` is AND CHAIN of COMMIT and ROLLBACK.
    | Transaction(kind: TxnKind, chain: bool)
    | Simple(audit: SimpleAudit, ddl: bool)
    | Unmapped(cmdname: string)

  datatype ObjType =
    | Relation | IndexObj | Sequence | Schema | Database | Tablespace | Type | Extension | Language
    | Am | Publication | Subscription | Policy | Conversion | Collation | Statistics | ViewObj | Matview

  /** An existing index as its column names; an expression column has none. */
  type ExistingIndex = seq<Option<string>>

  datatype ObjKey = ObjKey(objtype: ObjType, name: string, nspname: string)

  /**
   * What the catalog answers while one statement is audited. `distinct` holds stadistinct for those columns
   * of the table that exist and have statistics.
   */
  datatype Env = Env(catalog: set<ObjKey>, reserved: set<string>, indexes: seq<ExistingIndex>,
                     distinct: map<string, real>)
}
