/** The levels that rules have after startup, and when a list of checks lets a statement through. */
module Acceptance {
  import opened Core
  import opened Registry
  import opened Verdict
  import opened Ast
  import opened RuleCommon

  // ---- the standard levels ---------------------------------------------------------------

  /** The rules of the statements studied here that the registry sets to ERROR or WARNING. */
  datatype StrictRule =
    | NameCharset | NameStart | NameLen | NameReserved | PkPrefix | UkPrefix | CkPrefix | TmpPrefix
    | TypeVarchar | TypeNumeric | TypeJsonb | TypeMinSize
    | IdxPrefix | IdxConcurrently | IdxMethod | IdxFieldCount
    | VwPrefix | ViewSelectStar | ViewOrderBy | ViewNested
    | ProgDdlForbidden | ProgCloseCursor | ProgBusinessLogic
    | PkRequired | PkNameId | PkTypeSerial | ColumnNotNull | NoForeignKey | NoReservedColumn

  function IdOf(r: StrictRule): string {
    match r
    case NameCharset => "name_charset"
    case NameStart => "name_start"
    case NameLen => "name_len"
    case NameReserved => "name_reserved"
    case PkPrefix => "name_pk_prefix"
    case UkPrefix => "name_uk_prefix"
    case CkPrefix => "name_ck_prefix"
    case TmpPrefix => "name_tmp_prefix"
    case TypeVarchar => "type_varchar"
    case TypeNumeric => "type_numeric"
    case TypeJsonb => "type_jsonb"
    case TypeMinSize => "type_min_size"
    case IdxPrefix => "name_idx_prefix"
    case IdxConcurrently => "idx_concurrently"
    case IdxMethod => "idx_method"
    case IdxFieldCount => "idx_field_count"
    case VwPrefix => "name_vw_prefix"
    case ViewSelectStar => "view_select_star"
    case ViewOrderBy => "view_order_by"
    case ViewNested => "view_nested"
    case ProgDdlForbidden => "prog_ddl_forbidden"
    case ProgCloseCursor => "prog_close_cursor"
    case ProgBusinessLogic => "prog_business_logic"
    case PkRequired => "table_pk_required"
    case PkNameId => "table_pk_name_id"
    case PkTypeSerial => "table_pk_type_serial"
    case ColumnNotNull => "table_column_not_null"
    case NoForeignKey => "table_no_foreign_key"
    case NoReservedColumn => "table_no_reserved_column"
  }

  function DefaultOf(r: StrictRule): Level {
    match r
    case TypeVarchar => Warning
    case TypeNumeric => Warning
    case TypeJsonb => Warning
    case NoReservedColumn => Warning
    case IdxFieldCount => Warning
    case ViewNested => Warning
    case ProgDdlForbidden => Warning
    case ProgCloseCursor => Warning
    case ProgBusinessLogic => Warning
    case _ => Error
  }

  const ARRAY_HINT := "dml_array_vs_tmp"

  predicate SetTo(rules: Rules, id: string, level: Level) {
    var i := Find(rules.defs, id);
    i >= 0 && rules.configs.Some? && rules.configs.value[i] == RuleConfig(true, level)
  }

  /** The configuration as it is after startup, as far as these statements are concerned. */
  ghost predicate Standard(rules: Rules) {
    && (forall r :: SetTo(rules, IdOf(r), DefaultOf(r)))
    && SetTo(rules, ARRAY_HINT, Notice)
  }

  /** The registry lists the rule with this default level. */
  ghost predicate Lists(defs: seq<RuleDef>, id: string, level: Level) {
    exists k :: 0 <= k < |defs| && defs[k].id == id && defs[k].defaultLevel == level
  }

  lemma StartupSets(defs: seq<RuleDef>, id: string, level: Level)
    requires DistinctIds(defs) && Lists(defs, id, level)
    ensures SetTo(RuleTable(defs, Some(Defaults(defs))), id, level)
  {
    var k :| 0 <= k < |defs| && defs[k].id == id && defs[k].defaultLevel == level;
    FindIsExact(defs, k);
  }

  /** A registry that lists these rules at these defaults starts in a standard configuration. */
  lemma StartupIsStandard(defs: seq<RuleDef>)
    requires DistinctIds(defs) && Lists(defs, ARRAY_HINT, Notice)
    requires forall r :: Lists(defs, IdOf(r), DefaultOf(r))
    ensures Standard(RuleTable(defs, Some(Defaults(defs))))
  {
    forall r: StrictRule
      ensures SetTo(RuleTable(defs, Some(Defaults(defs))), IdOf(r), DefaultOf(r))
    {
      StartupSets(defs, IdOf(r), DefaultOf(r));
    }
    StartupSets(defs, ARRAY_HINT, Notice);
  }

  /** The rule stops a statement whenever audit_emit is called for it. */
  ghost predicate Stops(rules: Rules, id: string) {
    Blocks(rules, Err(id)) && Blocks(rules, Adv(id))
  }

  lemma SetRuleStops(rules: Rules, id: string, level: Level)
    requires SetTo(rules, id, level)
    ensures Stops(rules, id) <==> level != Notice
  {
  }

  lemma StandardStops(rules: Rules, r: StrictRule)
    requires Standard(rules)
    ensures Stops(rules, IdOf(r))
  {
    SetRuleStops(rules, IdOf(r), DefaultOf(r));
  }

  // ---- lists of checks that let a statement through ------------------------------------------

  ghost predicate Calm(rules: Rules, acts: seq<Action>) {
    forall a :: a in acts ==> !Blocks(rules, a)
  }

  lemma CalmBoth(rules: Rules, a: seq<Action>, b: seq<Action>)
    ensures Calm(rules, a + b) <==> Calm(rules, a) && Calm(rules, b)
  {
    assert forall x :: x in a + b <==> x in a || x in b;
  }

  lemma CalmWhen(rules: Rules, cond: bool, act: Action)
    requires Blocks(rules, act)
    ensures Calm(rules, When(cond, act)) <==> !cond
  {
    if cond {
      assert act in When(cond, act);
    }
  }

  /** One strict rule, checked under a condition. */
  lemma CalmCheck(rules: Rules, r: StrictRule, cond: bool, act: Action)
    requires Standard(rules) && (act == Err(IdOf(r)) || act == Adv(IdOf(r)))
    ensures Calm(rules, When(cond, act)) <==> !cond
  {
    StandardStops(rules, r);
    CalmWhen(rules, cond, act);
  }

  lemma CalmFlatMap<T>(rules: Rules, f: T -> seq<Action>, xs: seq<T>)
    ensures Calm(rules, FlatMap(f, xs)) <==> forall x :: x in xs ==> Calm(rules, f(x))
  {
    forall a: Action
      ensures a in FlatMap(f, xs) <==> exists x :: x in xs && a in f(x)
    {
      FlatMapMember(f, xs, a);
    }
  }

  // ---- names and types ---------------------------------------------------------------------------

  /** Every naming rule is strict, so a name that violates one is stopped. */
  lemma NameViolationStops(rules: Rules, reserved: set<string>, name: string)
    requires Standard(rules) && !LegalName(reserved, name)
    ensures exists r :: NameActs(reserved, Some(name)) == [Err(IdOf(r))]
  {
    var r := if name == "" then NameStart else if !CharsetOk(name) then NameCharset
             else if !StartOk(name) then NameStart else if |name| > NAME_MAXLEN then NameLen else NameReserved;
    assert NameActs(reserved, Some(name)) == [Err(IdOf(r))];
  }

  lemma CalmName(rules: Rules, reserved: set<string>, name: string)
    requires Standard(rules)
    ensures Calm(rules, NameActs(reserved, Some(name))) <==> LegalName(reserved, name)
  {
    if LegalName(reserved, name) {
      NameActsEmptyIffLegal(reserved, name);
    } else {
      NameViolationStops(rules, reserved, name);
      var r :| NameActs(reserved, Some(name)) == [Err(IdOf(r))];
      StandardStops(rules, r);
      assert Err(IdOf(r)) in NameActs(reserved, Some(name));
    }
  }

  lemma CalmPrefix(rules: Rules, r: StrictRule, name: string, prefix: string)
    requires Standard(rules)
    ensures Calm(rules, PrefixActs(Some(name), prefix, IdOf(r))) <==> HasPrefix(name, prefix)
  {
    CalmCheck(rules, r, !HasPrefix(name, prefix), Err(IdOf(r)));
  }

  predicate GoodType(t: Option<string>) {
    t.Some? ==> t.value != "json" && !FloatType(t.value) && !FixedCharType(t.value)
  }

  lemma CalmType(rules: Rules, t: Option<TypeName>)
    requires Standard(rules)
    ensures Calm(rules, TypeActs(t)) <==> GoodType(TypeNameOf(t))
  {
    if TypeNameOf(t).Some? {
      var name := TypeNameOf(t).value;
      var mid, last := When(FloatType(name), Adv("type_numeric")), When(FixedCharType(name), Adv("type_varchar"));
      CalmCheck(rules, TypeJsonb, name == "json", Adv("type_jsonb"));
      CalmCheck(rules, TypeNumeric, FloatType(name), Adv("type_numeric"));
      CalmCheck(rules, TypeVarchar, FixedCharType(name), Adv("type_varchar"));
      CalmBoth(rules, mid, last);
      CalmBoth(rules, When(name == "json", Adv("type_jsonb")), mid + last);
    }
  }
}
