/** Which CREATE FUNCTION statements attempt the body rules (rule_program.c). */
module FunctionTheorems {
  import opened Core
  import opened Verdict
  import opened Ast
  import opened RuleCommon
  import opened Transactions
  import opened Statements
  import opened Program

  /** One of the three rules about the body text. */
  predicate BodyRule(rule: string) {
    rule == "prog_ddl_forbidden" || rule == "prog_close_cursor" || rule == "prog_business_logic"
  }

  ghost predicate NoBodyRule(acts: seq<Action>) {
    forall a :: a in acts && a.Emit? ==> !BodyRule(a.e.rule)
  }

  lemma NamesHaveNoBodyRule(reserved: set<string>, name: Option<string>)
    ensures NoBodyRule(NameActs(reserved, name))
  {
  }

  lemma TypesHaveNoBodyRule(t: Option<TypeName>)
    ensures NoBodyRule(TypeActs(t))
  {
  }

  lemma ParamsHaveNoBodyRule(reserved: set<string>, params: seq<Param>)
    ensures NoBodyRule(FlatMap(ParamAudit(reserved), params))
  {
    forall a | a in FlatMap(ParamAudit(reserved), params) && a.Emit?
      ensures !BodyRule(a.e.rule)
    {
      FlatMapMember(ParamAudit(reserved), params, a);
      var p :| p in params && a in ParamAudit(reserved)(p);
      NamesHaveNoBodyRule(reserved, p.name);
      TypesHaveNoBodyRule(p.argType);
    }
  }

  /** The body rules that a statement attempts are those that its examined text violates. */
  lemma BodyRulesOfStatement(f: FuncStmt, env: Env, tcl: Tcl, e: Emission)
    requires f.funcname != [] && BodyRule(e.rule)
    ensures Attempts(Function(f), env, tcl, e) <==> Emit(e) in TextActs(BodyText(f.options, BODY_SIZE))
  {
    var name := f.funcname[|f.funcname| - 1];
    NamesHaveNoBodyRule(env.reserved, Some(name));
    ParamsHaveNoBodyRule(env.reserved, f.params);
    var text := TextActs(BodyText(f.options, BODY_SIZE));
    var head, params := NameActs(env.reserved, Some(name)), FlatMap(ParamAudit(env.reserved), f.params);
    assert Program.FunctionActs(f, env) == head + (params + (text + [Write(FunctionRecord(f, name))]));
    assert Emit(e) !in head && Emit(e) !in params;
  }

  const DDL_RULE := Configured("prog_ddl_forbidden", Warning)

  lemma DdlCheckIn(text: string)
    ensures Emit(DDL_RULE) in TextActs(text) <==> MentionsDdl(text)
  {
  }

  /**
   * For every function whose body fits the buffer, whatever its other options are, the DDL rule is
   * attempted exactly when the body as written contains one of the keywords, ignoring case.
   */
  lemma DetectionIsExact(f: FuncStmt, env: Env, tcl: Tcl)
    requires f.funcname != [] && Fits(f.options, BODY_SIZE)
    ensures Attempts(Function(f), env, tcl, DDL_RULE) <==> MentionsDdl(FullSource(f.options))
  {
    BodyRulesOfStatement(f, env, tcl, DDL_RULE);
    BodyIsSourceIff(f.options, BODY_SIZE);
    DdlCheckIn(FullSource(f.options));
  }

  /**
   * A body given in one piece, among any other options, is examined only below the buffer size: the DDL
   * rule is attempted exactly for a short body with a keyword, and for a longer one no body rule is.
   */
  lemma LongBodyIsNotExamined(f: FuncStmt, env: Env, tcl: Tcl, source: string)
    requires f.funcname != [] && LastWhole(f.options).None? && Pieces(f.options) == [Some(source)]
    ensures Attempts(Function(f), env, tcl, DDL_RULE) <==> |source| + 1 < BODY_SIZE && MentionsDdl(source)
    ensures |source| + 1 >= BODY_SIZE ==> forall e :: Attempts(Function(f), env, tcl, e) ==> !BodyRule(e.rule)
  {
    OnePieceBody(f.options, source, BODY_SIZE);
    BodyRulesOfStatement(f, env, tcl, DDL_RULE);
    DdlCheckIn(BodyText(f.options, BODY_SIZE));
    if |source| + 1 >= BODY_SIZE {
      EmptyTextPasses();
      forall e | Attempts(Function(f), env, tcl, e)
        ensures !BodyRule(e.rule)
      {
        if BodyRule(e.rule) {
          BodyRulesOfStatement(f, env, tcl, e);
        }
      }
    }
  }
}
