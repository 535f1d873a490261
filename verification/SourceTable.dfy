/** The rules that the registry lists, with their default levels (rule_registry.c). */
module SourceTable {
  import opened Core
  import opened Registry
  import opened Acceptance

  const ROWS0: seq<(string, Level)> := [
    ("name_charset", Error),
    ("name_start", Error),
    ("name_len", Error),
    ("name_reserved", Error),
    ("name_pk_prefix", Error),
    ("name_uk_prefix", Error),
    ("name_ck_prefix", Error),
    ("name_idx_prefix", Error),
    ("name_vw_prefix", Error),
    ("name_mv_prefix", Error),
    ("name_seq_prefix", Error),
    ("name_trg_prefix", Error)
  ]

  const ROWS1: seq<(string, Level)> := [
    ("name_func_prefix", Error),
    ("name_rule_prefix", Error),
    ("name_type_prefix", Error),
    ("name_tmp_prefix", Error),
    ("name_bak_prefix", Warning),
    ("name_db_name", Warning),
    ("type_varchar", Warning),
    ("type_numeric", Warning),
    ("type_date_time", Warning),
    ("type_jsonb", Warning),
    ("type_min_size", Error),
    ("table_pk_required", Error)
  ]

  const ROWS2: seq<(string, Level)> := [
    ("table_pk_name_id", Error),
    ("table_pk_type_serial", Error),
    ("table_column_not_null", Error),
    ("table_comment_required", Error),
    ("table_no_foreign_key", Error),
    ("table_no_reserved_column", Warning),
    ("db_charset_utf8", Error),
    ("idx_concurrently", Error),
    ("idx_field_count", Warning),
    ("idx_table_count", Warning),
    ("idx_method", Error),
    ("idx_selectivity", Error)
  ]

  const ROWS3: seq<(string, Level)> := [
    ("idx_redundant", Error),
    ("view_select_star", Error),
    ("view_order_by", Error),
    ("view_nested", Warning),
    ("dml_select_star", Error),
    ("dml_no_where", Error),
    ("dml_delete_truncate", Error),
    ("dml_count_star", Error),
    ("dml_left_fuzzy", Error),
    ("dml_batch_copy", Notice),
    ("dml_in_to_exists", Notice),
    ("dml_array_vs_tmp", Notice)
  ]

  const ROWS4: seq<(string, Level)> := [
    ("prog_name", Error),
    ("prog_ddl_forbidden", Warning),
    ("prog_business_logic", Warning),
    ("prog_close_cursor", Warning),
    ("ddl_high_risk_drop", Warning),
    ("ddl_truncate_warn", Warning),
    ("tcl_multi_ddl_in_txn", Error),
    ("cmd_vacuum", Warning),
    ("cmd_analyze", Notice),
    ("cmd_checkpoint", Notice),
    ("cmd_cluster", Warning),
    ("cmd_reindex", Warning)
  ]

  const ROWS5: seq<(string, Level)> := [
    ("cmd_refresh_matview", Warning),
    ("cmd_lock", Warning),
    ("cmd_load", Warning),
    ("cmd_discard", Notice),
    ("cmd_explain", Notice),
    ("cmd_copy", Warning),
    ("cmd_prepare", Notice),
    ("cmd_cursor", Warning),
    ("cmd_notify", Warning),
    ("obj_policy", Warning),
    ("obj_publication", Warning),
    ("obj_subscription", Warning)
  ]

  const ROWS6: seq<(string, Level)> := [
    ("obj_fdw", Warning),
    ("obj_extension", Warning),
    ("obj_language", Warning),
    ("obj_advanced", Warning),
    ("obj_alter_system", Warning),
    ("obj_reassign_owned", Warning),
    ("obj_ctas", Warning),
    ("obj_matview", Warning),
    ("obj_security_label", Notice),
    ("dcl_set_role", Warning),
    ("tcl_set_transaction", Notice),
    ("dml_merge_check", Warning)
  ]

  const ROWS7: seq<(string, Level)> := [
    ("obj_exists_check", Error),
    ("echo", Notice),
    ("tcl_begin", Notice),
    ("tcl_commit", Notice),
    ("tcl_rollback", Notice),
    ("tcl_savepoint", Notice),
    ("tcl_prepared", Warning),
    ("cmd_set", Notice),
    ("cmd_show", Notice),
    ("cmd_call", Notice),
    ("cmd_do", Notice),
    ("dcl_grant", Warning)
  ]

  const ROWS8: seq<(string, Level)> := [
    ("dcl_grant_role", Warning),
    ("dcl_default_privileges", Warning),
    ("dcl_role", Warning),
    ("obj_comment", Notice),
    ("obj_rename_owner", Notice),
    ("prog_trigger", Warning),
    ("prog_event_trigger", Warning),
    ("prog_rule", Warning),
    ("obj_drop_owned", Notice),
    ("ddl_create_object", Notice),
    ("ddl_alter_object", Notice),
    ("ddl_drop_object", Notice)
  ]

  const NUM_RULES := 108

  function Row(i: nat): (string, Level)
    requires i < NUM_RULES
  {
    if i < 12 then ROWS0[i]
    else if i < 24 then ROWS1[i - 12]
    else if i < 36 then ROWS2[i - 24]
    else if i < 48 then ROWS3[i - 36]
    else if i < 60 then ROWS4[i - 48]
    else if i < 72 then ROWS5[i - 60]
    else if i < 84 then ROWS6[i - 72]
    else if i < 96 then ROWS7[i - 84]
    else ROWS8[i - 96]
  }

  /** The registry holds exactly the rules of the source, in its order. */
  ghost predicate Mirrors(defs: seq<RuleDef>) {
    |defs| == NUM_RULES && forall i :: 0 <= i < NUM_RULES ==> defs[i].id == Row(i).0 && defs[i].defaultLevel == Row(i).1
  }

  function At(s: string, p: nat): int {
    if p < |s| then s[p] as int else 0
  }

  /** The length and three characters, as digits to the base 128; this number differs for any two ids of the table. */
  function Code(s: string): int {
    ((|s| * 128 + At(s, 5)) * 128 + At(s, 6)) * 128 + At(s, 10)
  }

  /**
   * The position in the table of the id with this number: a binary search. Sort the ids by their numbers;
   * every inner node compares with the number of the first id of its right half, every leaf is the position
   * of one id. `Codes0` to `Codes8` check all of them.
   */
  function PositionOf(n: int): nat {
    if n < 31077103 then
      if n < 24853234 then
        if n < 20689024 then
          if n < 18559616 then
            if n < 16349696 then
              if n < 14401536 then 85 else if n < 16333696 then 94 else 72
            else
              if n < 18380288 then 91 else if n < 18495360 then 93 else 92
          else
            if n < 18609664 then
              if n < 18608256 then 2 else if n < 18608512 then 62 else 61
            else
              if n < 18690176 then if n < 18610176 then 98 else 65 else if n < 20542336 then 78 else 86
        else
          if n < 22804096 then
            if n < 22573440 then
              if n < 20754560 then 48 else if n < 20757120 then 95 else 103
            else
              if n < 22722944 then if n < 22641152 then 55 else 34 else if n < 22803968 then 21 else 69
          else
            if n < 22903040 then
              if n < 22804992 then 87 else if n < 22870528 then 68 else 1
            else
              if n < 24737016 then if n < 24672887 then 67 else 79 else if n < 24803812 then 59 else 63
      else
        if n < 26998371 then
          if n < 26769255 then
            if n < 24901364 then
              if n < 24883429 then 58 else if n < 24883940 then 56 else 39
            else
              if n < 24949477 then 99 else if n < 25049198 then 66 else 64
          else
            if n < 26819429 then
              if n < 26801253 then 74 else if n < 26816877 then 0 else 17
            else
              if n < 26983145 then if n < 26835564 then 75 else 81 else if n < 26996722 then 19 else 41
        else
          if n < 29096287 then
            if n < 27111649 then
              if n < 27046629 then 88 else if n < 27081061 then 90 else 101
            else
              if n < 28930657 then if n < 28867433 then 18 else 89 else if n < 29062377 then 36 else 22
          else
            if n < 30964323 then
              if n < 29143798 then 38 else if n < 29244009 then 3 else 73
            else
              if n < 31011060 then if n < 30995941 then 45 else 6 else if n < 31028085 then 20 else 44
    else
      if n < 35387250 then
        if n < 33126755 then
          if n < 31290853 then
            if n < 31208933 then
              if n < 31161189 then 57 else if n < 31193843 then 9 else 43
            else
              if n < 31240434 then 4 else if n < 31242231 then 96 else 104
          else
            if n < 33061215 then
              if n < 31308773 then 5 else if n < 33059171 then 8 else 33
            else
              if n < 33125983 then if n < 33075442 then 30 else 16 else if n < 33125993 then 40 else 35
        else
          if n < 33386849 then
            if n < 33339362 then
              if n < 33190514 then 83 else if n < 33190627 then 7 else 32
            else
              if n < 33371890 then if n < 33354482 then 107 else 10 else if n < 33372530 then 15 else 11
          else
            if n < 35240688 then
              if n < 35125345 then 70 else if n < 35223391 then 24 else 100
            else
              if n < 35338867 then if n < 35338863 then 12 else 106 else if n < 35368933 then 76 else 46
      else
        if n < 39416308 then
          if n < 35534047 then
            if n < 35451636 then
              if n < 35436918 then 31 else if n < 35437296 then 47 else 13
            else
              if n < 35470576 then 37 else if n < 35484009 then 14 else 71
          else
            if n < 37532383 then
              if n < 37222501 then 84 else if n < 37287519 then 23 else 51
            else
              if n < 39400047 then if n < 37534452 then 105 else 53 else if n < 39416039 then 49 else 77
        else
          if n < 43513711 then
            if n < 41466597 then
              if n < 39418719 then 80 else if n < 39482345 then 102 else 52
            else
              if n < 41514591 then if n < 41513832 then 50 else 60 else if n < 41515617 then 42 else 82
          else
            if n < 45609453 then
              if n < 43513977 then 28 else if n < 43873892 then 25 else 54
            else
              if n < 47805300 then if n < 47706597 then 26 else 27 else if n < 51902309 then 97 else 29
  }

  lemma Codes0(i: nat)
    requires i < |ROWS0|
    ensures PositionOf(Code(ROWS0[i].0)) == i + 0
  {
  }

  lemma Codes1(i: nat)
    requires i < |ROWS1|
    ensures PositionOf(Code(ROWS1[i].0)) == i + 12
  {
  }

  lemma Codes2(i: nat)
    requires i < |ROWS2|
    ensures PositionOf(Code(ROWS2[i].0)) == i + 24
  {
  }

  lemma Codes3(i: nat)
    requires i < |ROWS3|
    ensures PositionOf(Code(ROWS3[i].0)) == i + 36
  {
  }

  lemma Codes4(i: nat)
    requires i < |ROWS4|
    ensures PositionOf(Code(ROWS4[i].0)) == i + 48
  {
  }

  lemma Codes5(i: nat)
    requires i < |ROWS5|
    ensures PositionOf(Code(ROWS5[i].0)) == i + 60
  {
  }

  lemma Codes6(i: nat)
    requires i < |ROWS6|
    ensures PositionOf(Code(ROWS6[i].0)) == i + 72
  {
  }

  lemma Codes7(i: nat)
    requires i < |ROWS7|
    ensures PositionOf(Code(ROWS7[i].0)) == i + 84
  {
  }

  lemma Codes8(i: nat)
    requires i < |ROWS8|
    ensures PositionOf(Code(ROWS8[i].0)) == i + 96
  {
  }

  lemma PositionIs(i: nat)
    requires i < NUM_RULES
    ensures PositionOf(Code(Row(i).0)) == i
  {
    if i < 12 {
      Codes0(i);
    } else if i < 24 {
      Codes1(i - 12);
    } else if i < 36 {
      Codes2(i - 24);
    } else if i < 48 {
      Codes3(i - 36);
    } else if i < 60 {
      Codes4(i - 48);
    } else if i < 72 {
      Codes5(i - 60);
    } else if i < 84 {
      Codes6(i - 72);
    } else if i < 96 {
      Codes7(i - 84);
    } else {
      Codes8(i - 96);
    }
  }

  lemma IdsAreDistinct(defs: seq<RuleDef>)
    requires Mirrors(defs)
    ensures DistinctIds(defs)
  {
    forall i, j | 0 <= i < j < |defs|
      ensures defs[i].id != defs[j].id
    {
      PositionIs(i);
      PositionIs(j);
    }
  }

  // ---- the rules studied here are in the table ---------------------------------------------------

  function RowOf(r: StrictRule): nat {
    match r
    case NameCharset => 0
    case NameStart => 1
    case NameLen => 2
    case NameReserved => 3
    case PkPrefix => 4
    case UkPrefix => 5
    case CkPrefix => 6
    case TmpPrefix => 15
    case TypeVarchar => 18
    case TypeNumeric => 19
    case TypeJsonb => 21
    case TypeMinSize => 22
    case IdxPrefix => 7
    case IdxConcurrently => 31
    case IdxMethod => 34
    case IdxFieldCount => 32
    case VwPrefix => 8
    case ViewSelectStar => 37
    case ViewOrderBy => 38
    case ViewNested => 39
    case ProgDdlForbidden => 49
    case ProgCloseCursor => 51
    case ProgBusinessLogic => 50
    case PkRequired => 23
    case PkNameId => 24
    case PkTypeSerial => 25
    case ColumnNotNull => 26
    case NoForeignKey => 28
    case NoReservedColumn => 29
  }

  lemma NamesListed(r: StrictRule)
    requires RowOf(r) < 24
    ensures Row(RowOf(r)) == (IdOf(r), DefaultOf(r))
  {
  }

  lemma DesignListed(r: StrictRule)
    requires 24 <= RowOf(r) < 36
    ensures Row(RowOf(r)) == (IdOf(r), DefaultOf(r))
  {
  }

  lemma OthersListed(r: StrictRule)
    requires 36 <= RowOf(r)
    ensures RowOf(r) < NUM_RULES && Row(RowOf(r)) == (IdOf(r), DefaultOf(r))
  {
  }

  lemma RuleIsListed(defs: seq<RuleDef>, r: StrictRule)
    requires Mirrors(defs)
    ensures Lists(defs, IdOf(r), DefaultOf(r))
  {
    if RowOf(r) < 24 {
      NamesListed(r);
    } else if RowOf(r) < 36 {
      DesignListed(r);
    } else {
      OthersListed(r);
    }
    assert defs[RowOf(r)].id == IdOf(r);
  }

  lemma HintIsListed(defs: seq<RuleDef>)
    requires Mirrors(defs)
    ensures Lists(defs, ARRAY_HINT, Notice)
  {
    assert Row(47) == (ARRAY_HINT, Notice);
    assert defs[47].id == ARRAY_HINT;
  }

  /** The registry of the source has distinct ids, and startup leaves it in the standard configuration. */
  lemma SourceStartsStandard(defs: seq<RuleDef>)
    requires Mirrors(defs)
    ensures DistinctIds(defs) && Standard(RuleTable(defs, Some(Defaults(defs))))
  {
    IdsAreDistinct(defs);
    HintIsListed(defs);
    forall r: StrictRule
      ensures Lists(defs, IdOf(r), DefaultOf(r))
    {
      RuleIsListed(defs, r);
    }
    StartupIsStandard(defs);
  }
}
