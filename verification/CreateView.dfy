/** CREATE VIEW (rule_ddl.c). */
module CreateView {
  import opened Core
  import opened Verdict
  import opened Ast
  import opened AuditorModule
  import opened RuleCommon

  predicate IsStar(t: Target) {
    t.Star? || (t.ColumnRef? && t.lastIsStar)
  }

  predicate ListsStar(targets: seq<Target>) {
    exists t :: t in targets && IsStar(t)
  }

  method TargetListHasStar(targets: seq<Target>) returns (r: bool)
    ensures r == ListsStar(targets)
  {
    var i := 0;
    while i < |targets|
      invariant 0 <= i <= |targets|
      invariant forall k :: 0 <= k < i ==> !IsStar(targets[k])
    {
      match targets[i] {
        case NoValue =>
        case ColumnRef(last) =>
          if last { assert IsStar(targets[i]); return true; }
        case Star => assert IsStar(targets[i]); return true;
        case OtherValue =>
      }
      i := i + 1;
    }
    return false;
  }

  /** Recursion through the operands of set operations. */
  predicate HasStar(ss: Option<SelectStmt>)
    decreases ss
  {
    ss.Some? && (ListsStar(ss.value.targetList) || HasStar(ss.value.larg) || HasStar(ss.value.rarg))
  }

  /** Every operand of the set-operation tree, the root included. */
  function Operands(ss: Option<SelectStmt>): set<SelectStmt>
    decreases ss
  {
    if ss.None? then {} else {ss.value} + Operands(ss.value.larg) + Operands(ss.value.rarg)
  }

  /** The recursion reports exactly when some operand lists a star, whatever its depth. */
  lemma {:induction false} StarIffSomeOperand(ss: Option<SelectStmt>)
    ensures HasStar(ss) <==> exists o :: o in Operands(ss) && ListsStar(o.targetList)
    decreases ss
  {
    if ss.Some? {
      StarIffSomeOperand(ss.value.larg);
      StarIffSomeOperand(ss.value.rarg);
      assert ss.value in Operands(ss);
    }
  }

  // ---- stars wherever they stand -------------------------------------------------------

  /** A star in the query or in any query inside it. */
  predicate StarAnywhere(ss: SelectStmt)
    decreases ss
  {
    || ListsStar(ss.targetList)
    || (ss.larg.Some? && StarAnywhere(ss.larg.value))
    || (ss.rarg.Some? && StarAnywhere(ss.rarg.value))
    || (exists i :: 0 <= i < |ss.fromClause| && StarInFrom(ss.fromClause[i]))
    || (exists i :: 0 <= i < |ss.others| && StarAnywhere(ss.others[i]))
  }

  predicate StarInFrom(f: FromItem)
    decreases f
  {
    match f
    case RangeSubselect(query) => StarAnywhere(query)
    case JoinExpr(left, right) => StarInFrom(left) || StarInFrom(right)
    case OtherFrom => false
  }

  /** A star in FROM. */
  predicate StarInClause(o: SelectStmt) {
    exists i :: 0 <= i < |o.fromClause| && StarInFrom(o.fromClause[i])
  }

  /** A star in the WITH clause or in an expression. */
  predicate StarInOthers(o: SelectStmt) {
    exists i :: 0 <= i < |o.others| && StarAnywhere(o.others[i])
  }

  /** A star that stands in a subquery of some operand. */
  predicate StarBelow(query: SelectStmt) {
    exists o :: o in Operands(Some(query)) && (StarInClause(o) || StarInOthers(o))
  }

  lemma BelowSplits(ss: SelectStmt)
    ensures StarBelow(ss) <==> StarInClause(ss) || StarInOthers(ss)
                               || (ss.larg.Some? && StarBelow(ss.larg.value)) || (ss.rarg.Some? && StarBelow(ss.rarg.value))
  {
    assert forall o :: o in Operands(Some(ss)) <==> o == ss || o in Operands(ss.larg) || o in Operands(ss.rarg);
    if ss.larg.Some? {
      assert ss.larg == Some(ss.larg.value);
    }
    if ss.rarg.Some? {
      assert ss.rarg == Some(ss.rarg.value);
    }
  }

  /** Every star is listed by an operand of the set operations, or stands below one. */
  lemma {:induction false} StarsSplit(ss: SelectStmt)
    ensures StarAnywhere(ss) <==> HasStar(Some(ss)) || StarBelow(ss)
    decreases ss
  {
    BelowSplits(ss);
    if ss.larg.Some? {
      StarsSplit(ss.larg.value);
      assert ss.larg == Some(ss.larg.value);
    }
    if ss.rarg.Some? {
      StarsSplit(ss.rarg.value);
      assert ss.rarg == Some(ss.rarg.value);
    }
    assert HasStar(Some(ss)) <==> ListsStar(ss.targetList) || HasStar(ss.larg) || HasStar(ss.rarg);
  }

  /**
   * The check sees whether the view contains a star exactly when no operand has one below it, or some
   * operand, not necessarily the same, lists one. It never reports a star that is not there.
   */
  lemma StarCheckAgreesIff(query: SelectStmt)
    ensures HasStar(Some(query)) == StarAnywhere(query)
       <==> (forall o :: o in Operands(Some(query)) ==> !StarInClause(o) && !StarInOthers(o))
            || exists o :: o in Operands(Some(query)) && ListsStar(o.targetList)
    ensures HasStar(Some(query)) ==> StarAnywhere(query)
  {
    StarsSplit(query);
    StarIffSomeOperand(Some(query));
  }

  predicate Nests(f: FromItem) {
    f.RangeSubselect? || f.JoinExpr?
  }

  predicate FromNests(from: seq<FromItem>) {
    exists f :: f in from && Nests(f)
  }

  method FromClauseHasSubselect(from: seq<FromItem>) returns (r: bool)
    ensures r == FromNests(from)
  {
    var i := 0;
    while i < |from|
      invariant 0 <= i <= |from|
      invariant forall k :: 0 <= k < i ==> !Nests(from[k])
    {
      if from[i].RangeSubselect? || from[i].JoinExpr? {
        assert Nests(from[i]);
        return true;
      }
      i := i + 1;
    }
    return false;
  }

  method SelectStmtHasStar(ss: Option<SelectStmt>) returns (r: bool)
    ensures r == HasStar(ss)
    decreases ss
  {
    if ss.None? {
      return false;
    }
    r := TargetListHasStar(ss.value.targetList);
    if r { return; }
    r := SelectStmtHasStar(ss.value.larg);
    if r { return; }
    r := SelectStmtHasStar(ss.value.rarg);
  }

  function QueryActs(query: Option<SelectStmt>): seq<Action> {
    When(HasStar(query), Err("view_select_star"))
    + (When(query.Some? && query.value.sorted, Err("view_order_by"))
       + When(query.Some? && FromNests(query.value.fromClause), Adv("view_nested")))
  }

  function ViewActs(stmt: ViewStmt, env: Env): seq<Action> {
    match stmt.view
    case None => []
    case Some(view) =>
      NameActs(env.reserved, Some(view.relname))
      + (PrefixActs(Some(view.relname), "vw_", "name_vw_prefix")
         + (QueryActs(stmt.query)
            + [Write(MakeRecord("CREATE VIEW", Some(view.relname), "view", Notice))]))
  }

  method AuditQuery(a: Auditor, query: Option<SelectStmt>) returns (aborted: bool)
    requires a.Valid()
    modifies a.log, a.log.slots
    ensures a.Valid()
    ensures Run(a.log.history, aborted) == Exec(a.Rules(), old(a.log.history), QueryActs(query))
  {
    ghost var nested := When(query.Some? && FromNests(query.value.fromClause), Adv("view_nested"));
    ghost var order := When(query.Some? && query.value.sorted, Err("view_order_by"));
    ExecAppend(a.Rules(), a.log.history, When(HasStar(query), Err("view_select_star")), order + nested);
    var star := SelectStmtHasStar(query);
    if star {
      aborted := a.Emit(Error, "view_select_star");
      if aborted { return; }
    }
    ExecAppend(a.Rules(), a.log.history, order, nested);
    if query.Some? && query.value.sorted {
      aborted := a.Emit(Error, "view_order_by");
      if aborted { return; }
    }
    aborted := false;
    if query.Some? {
      var deep := FromClauseHasSubselect(query.value.fromClause);
      if deep {
        aborted := a.Emit(Warning, "view_nested");
      }
    }
  }

  method AuditView(a: Auditor, env: Env, stmt: ViewStmt) returns (aborted: bool)
    requires a.Valid()
    modifies a.log, a.log.slots
    ensures a.Valid()
    ensures Run(a.log.history, aborted) == Exec(a.Rules(), old(a.log.history), ViewActs(stmt, env))
  {
    if stmt.view.None? {
      return false;
    }
    var name := stmt.view.value.relname;
    ghost var last := [Write(MakeRecord("CREATE VIEW", Some(name), "view", Notice))];
    ghost var prefix := PrefixActs(Some(name), "vw_", "name_vw_prefix");
    ExecAppend(a.Rules(), a.log.history, NameActs(env.reserved, Some(name)), prefix + (QueryActs(stmt.query) + last));
    var ok;
    ok, aborted := AuditCheckName(a, env.reserved, Some(name));
    if aborted { return; }
    ExecAppend(a.Rules(), a.log.history, prefix, QueryActs(stmt.query) + last);
    ok, aborted := AuditCheckPrefix(a, Some(name), "vw_", "name_vw_prefix");
    if aborted { return; }
    ExecAppend(a.Rules(), a.log.history, QueryActs(stmt.query), last);
    aborted := AuditQuery(a, stmt.query);
    if aborted { return; }
    a.log.Write("CREATE VIEW", Some(name), "view", Notice);
  }
}
