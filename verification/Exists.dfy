/** The existence check that precedes the content rules of CREATE (rule_exists.c). */
module Exists {
  import opened Core
  import opened Verdict
  import opened Ast
  import opened AuditorModule

  /** One row of the descriptor table: what to look up and which extractors the row has. */
  datatype Desc = Desc(objtype: ObjType, tag: NodeTag, hasNsp: bool, hasIne: bool)

  const DESCS: seq<Desc> := [
    Desc(Relation, CreateTag, true, true),
    Desc(Relation, CreateForeignTag, true, true),
    Desc(ViewObj, ViewTag, true, false),
    Desc(Sequence, SeqTag, true, true),
    Desc(IndexObj, IndexTag, true, true),
    Desc(Relation, CtasTag, true, true),
    Desc(Matview, CtasTag, true, true),
    Desc(Schema, SchemaTag, false, true),
    Desc(Database, DatabaseTag, false, false),
    Desc(Tablespace, TablespaceTag, false, false),
    Desc(Type, DomainTag, false, false),
    Desc(Type, CompositeTag, true, false),
    Desc(Type, EnumTag, false, false),
    Desc(Type, RangeTag, false, false),
    Desc(Type, DefineTag, true, true),
    Desc(Collation, DefineTag, true, true),
    Desc(Extension, ExtensionTag, false, true),
    Desc(Language, LanguageTag, false, false),
    Desc(Am, AmTag, false, false),
    Desc(Publication, PublicationTag, false, true),
    Desc(Subscription, SubscriptionTag, false, false),
    Desc(Policy, PolicyTag, true, false),
    Desc(Conversion, ConversionTag, true, true),
    Desc(Statistics, StatsTag, true, true)
  ]

  function TagOf(node: CreateNode): NodeTag {
    match node
    case Table(_) => CreateTag
    case ForeignTable(_) => CreateForeignTag
    case Index(_) => IndexTag
    case View(_) => ViewTag
    case Other(tag, _, _, _, _, _) => tag
  }

  /** Collation for DEFINE, materialized view for CTAS. */
  predicate VariantOf(node: CreateNode) {
    node.Other? && node.variant
  }

  /** Two tags share rows that the statement's variant tells apart. */
  predicate Matches(d: Desc, node: CreateNode) {
    && TagOf(node) == d.tag
    && (d.tag == DefineTag ==> ((d.objtype == Collation) <==> VariantOf(node)))
    && (d.tag == CtasTag ==> ((d.objtype == Matview) <==> VariantOf(node)))
  }

  function RowOf(tag: NodeTag, variant: bool): nat {
    match tag
    case CreateTag => 0
    case CreateForeignTag => 1
    case ViewTag => 2
    case SeqTag => 3
    case IndexTag => 4
    case CtasTag => if variant then 6 else 5
    case SchemaTag => 7
    case DatabaseTag => 8
    case TablespaceTag => 9
    case DomainTag => 10
    case CompositeTag => 11
    case EnumTag => 12
    case RangeTag => 13
    case DefineTag => if variant then 15 else 14
    case ExtensionTag => 16
    case LanguageTag => 17
    case AmTag => 18
    case PublicationTag => 19
    case SubscriptionTag => 20
    case PolicyTag => 21
    case ConversionTag => 22
    case StatsTag => 23
  }

  predicate VariantRow(d: Desc) {
    d.objtype.Collation? || d.objtype.Matview?
  }

  lemma FirstRows(i: nat)
    requires i < 12
    ensures RowOf(DESCS[i].tag, VariantRow(DESCS[i])) == i
  {
    if i < 6 {
    } else {
    }
  }

  lemma LastRows(i: nat)
    requires 12 <= i < |DESCS|
    ensures RowOf(DESCS[i].tag, VariantRow(DESCS[i])) == i
  {
    if i < 18 {
    } else {
    }
  }

  lemma RowIsInjective(i: nat)
    requires i < |DESCS|
    ensures RowOf(DESCS[i].tag, VariantRow(DESCS[i])) == i
  {
    if i < 12 {
      FirstRows(i);
    } else {
      LastRows(i);
    }
  }

  lemma RowCarriesTag(tag: NodeTag, variant: bool)
    ensures var k := RowOf(tag, variant);
            k < |DESCS| && DESCS[k].tag == tag && (tag.DefineTag? || tag.CtasTag? ==> VariantRow(DESCS[k]) == variant)
  {
  }

  lemma VariantRowMeansVariant(i: nat, node: CreateNode)
    requires i < |DESCS|
    ensures Matches(DESCS[i], node)
       <==> DESCS[i].tag == TagOf(node)
            && (DESCS[i].tag.DefineTag? || DESCS[i].tag.CtasTag? ==> VariantRow(DESCS[i]) == VariantOf(node))
  {
  }

  /** Every node matches exactly one row, so the order of the table does not matter. */
  lemma DescriptorIsUnique(node: CreateNode)
    ensures RowOf(TagOf(node), VariantOf(node)) < |DESCS|
    ensures forall i :: 0 <= i < |DESCS| ==> (Matches(DESCS[i], node) <==> i == RowOf(TagOf(node), VariantOf(node)))
  {
    RowCarriesTag(TagOf(node), VariantOf(node));
    var row := RowOf(TagOf(node), VariantOf(node));
    var descs := DESCS;
    forall i | 0 <= i < |descs|
      ensures Matches(descs[i], node) <==> i == row
    {
      RowIsInjective(i);
      VariantRowMeansVariant(i, node);
      VariantRowMeansVariant(row, node);
    }
  }

  function DescOf(node: CreateNode): Desc {
    DescriptorIsUnique(node);
    DESCS[RowOf(TagOf(node), VariantOf(node))]
  }

  function RelName(rel: Option<RangeVar>): Option<string> {
    match rel
    case None => None
    case Some(r) => Some(r.relname)
  }

  function RelNsp(rel: Option<RangeVar>): Option<string> {
    match rel
    case None => None
    case Some(r) => r.schemaname
  }

  function NameOf(node: CreateNode): Option<string> {
    match node
    case Table(t) => RelName(t.relation)
    case ForeignTable(t) => RelName(t.relation)
    case Index(ix) => ix.idxname
    case View(v) => RelName(v.view)
    case Other(_, _, name, _, _, _) => name
  }

  function NspOf(node: CreateNode): Option<string> {
    if !DescOf(node).hasNsp then None
    else match node
      case Table(t) => RelNsp(t.relation)
      case ForeignTable(t) => RelNsp(t.relation)
      case Index(ix) => RelNsp(ix.relation)
      case View(v) => RelNsp(v.view)
      case Other(_, _, _, nsp, _, _) => nsp
  }

  function IneOf(node: CreateNode): bool {
    DescOf(node).hasIne &&
    match node
    case Table(t) => t.ifNotExists
    case ForeignTable(t) => t.ifNotExists
    case Index(ix) => ix.ifNotExists
    case View(_) => false
    case Other(_, _, _, _, ine, _) => ine
  }

  predicate InNamespace(t: ObjType) {
    t in {Relation, IndexObj, Sequence, Type, Conversion, Collation, Statistics, ViewObj, Matview, Policy}
  }

  /** A missing name never exists; a missing schema means "public". */
  predicate ObjectExists(env: Env, t: ObjType, name: Option<string>, nsp: Option<string>) {
    name.Some? &&
    var space := if !InNamespace(t) then "" else if nsp.None? then "public" else nsp.value;
    ObjKey(t, name.value, space) in env.catalog
  }

  predicate IsConcurrent(node: CreateNode) {
    node.Index? && node.index.concurrent
  }

  /** The object is already there; concurrent index builds are never looked up. */
  predicate Conflict(node: CreateNode, env: Env) {
    !IsConcurrent(node) && ObjectExists(env, DescOf(node).objtype, NameOf(node), NspOf(node))
  }

  function ConflictActs(node: CreateNode): seq<Action> {
    if IneOf(node) then [Emit(Fixed("obj_exists_check", Warning))]
    else [Emit(Effective("obj_exists_check", Error))]
  }

  datatype ExistsResult = CheckPass | CheckBlock | CheckWarn

  method DescMatchesNode(d: Desc, node: CreateNode) returns (r: bool)
    ensures r == Matches(d, node)
  {
    if TagOf(node) != d.tag {
      return false;
    }
    if TagOf(node) == DefineTag {
      return (d.objtype == Collation) == VariantOf(node);
    }
    if TagOf(node) == CtasTag {
      return (d.objtype == Matview) == VariantOf(node);
    }
    return true;
  }

  method FindDescriptor(node: CreateNode) returns (d: Desc)
    ensures d == DescOf(node)
  {
    DescriptorIsUnique(node);
    d := DESCS[0];
    var i := 0;
    while i < |DESCS|
      invariant 0 <= i <= RowOf(TagOf(node), VariantOf(node))
      decreases |DESCS| - i
    {
      var hit := DescMatchesNode(DESCS[i], node);
      if hit {
        return DESCS[i];
      }
      i := i + 1;
    }
    assert false;
  }

  method ObjExistsCheck(a: Auditor, env: Env, node: CreateNode) returns (r: ExistsResult, aborted: bool)
    requires a.Valid()
    modifies a.log, a.log.slots
    ensures a.Valid()
    ensures r == CheckPass <==> !Conflict(node, env)
    ensures r == CheckWarn <==> Conflict(node, env) && IneOf(node)
    ensures Run(a.log.history, aborted)
         == Exec(a.Rules(), old(a.log.history), if Conflict(node, env) then ConflictActs(node) else [])
  {
    aborted := false;
    if node.Index? && node.index.concurrent {
      return CheckPass, false;
    }
    var desc := FindDescriptor(node);
    if !ObjectExists(env, desc.objtype, NameOf(node), NspOf(node)) {
      return CheckPass, false;
    }
    if IneOf(node) {
      aborted := a.EmitFixed(Warning, "obj_exists_check");
      return CheckWarn, aborted;
    }
    aborted := a.EmitEffective(Error, "obj_exists_check");
    return CheckBlock, aborted;
  }
}
