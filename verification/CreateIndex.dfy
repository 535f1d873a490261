/** CREATE INDEX and its redundancy test (rule_ddl.c). */
module CreateIndex {
  import opened Core
  import opened Verdict
  import opened Ast
  import opened AuditorModule
  import opened RuleCommon

  // ---- redundant indexes ------------------------------------------------------------

  /** The named columns of the new index; expressions are skipped. */
  function NamedColumns(params: seq<Option<string>>): seq<string> {
    if params == [] then []
    else (if params[0].Some? then [params[0].value] else []) + NamedColumns(params[1..])
  }

  /** The test of the code: equal length, and every existing column occurs among the new ones. */
  predicate Reported(existing: ExistingIndex, newcols: seq<string>) {
    && |existing| == |newcols|
    && forall i :: 0 <= i < |existing| ==> existing[i].Some? && existing[i].value in newcols
  }

  function Wrapped(cols: seq<string>): ExistingIndex {
    seq(|cols|, i requires 0 <= i < |cols| => Some(cols[i]))
  }

  /** What the rule is about: the same columns in some order. */
  ghost predicate SameColumns(existing: ExistingIndex, newcols: seq<string>) {
    multiset(existing) == multiset(Wrapped(newcols))
  }

  ghost predicate Distinct<T>(xs: seq<T>) {
    forall i, j :: 0 <= i < j < |xs| ==> xs[i] != xs[j]
  }

  lemma {:induction false} Pigeonhole<T>(xs: seq<T>, ys: seq<T>)
    requires Distinct(xs) && |xs| == |ys|
    requires forall x :: x in xs ==> x in ys
    ensures multiset(xs) == multiset(ys)
  {
    if xs != [] {
      assert xs == [xs[0]] + xs[1..];
      assert xs[0] in xs;
      var j :| 0 <= j < |ys| && ys[j] == xs[0];
      var rest := ys[..j] + ys[j + 1..];
      forall x | x in xs[1..]
        ensures x in rest
      {
        assert x in xs && x != xs[0];
        var m :| 0 <= m < |ys| && ys[m] == x;
        assert x == rest[if m < j then m else m - 1];
      }
      Pigeonhole(xs[1..], rest);
      assert ys == ys[..j] + [ys[j]] + ys[j + 1..];
    }
  }

  lemma WrappedMember(cols: seq<string>, c: string)
    ensures Some(c) in Wrapped(cols) <==> c in cols
  {
    if c in cols {
      var i :| 0 <= i < |cols| && cols[i] == c;
      assert Wrapped(cols)[i] == Some(c);
    }
  }

  lemma PermutationIsReported(existing: ExistingIndex, newcols: seq<string>)
    requires SameColumns(existing, newcols)
    ensures Reported(existing, newcols)
  {
    assert |existing| == |multiset(existing)| == |Wrapped(newcols)|;
    forall i | 0 <= i < |existing|
      ensures existing[i].Some? && existing[i].value in newcols
    {
      assert existing[i] in multiset(existing);
      assert existing[i] in Wrapped(newcols);
      WrappedMember(newcols, existing[i].value);
    }
  }

  lemma DistinctReportIsPermutation(existing: ExistingIndex, newcols: seq<string>)
    requires Distinct(existing) && Reported(existing, newcols)
    ensures SameColumns(existing, newcols)
  {
    forall x | x in existing
      ensures x in Wrapped(newcols)
    {
      WrappedMember(newcols, x.value);
    }
    Pigeonhole(existing, Wrapped(newcols));
  }

  /** The test is exact for every new index precisely when this index repeats no plain column. */
  ghost predicate ExactFor(existing: ExistingIndex) {
    forall newcols :: Reported(existing, newcols) <==> SameColumns(existing, newcols)
  }

  function LongerThanAll(existing: ExistingIndex): (s: string)
    ensures s != ""
    ensures forall i :: 0 <= i < |existing| && existing[i].Some? ==> |existing[i].value| < |s|
  {
    if existing == [] then "x"
    else
      var s := LongerThanAll(existing[1..]);
      var t := if existing[0].Some? then s + existing[0].value else s;
      assert forall i :: 0 < i < |existing| ==> existing[i] == existing[1..][i - 1];
      t
  }

  function Unwrapped(existing: ExistingIndex): seq<string>
    requires forall i :: 0 <= i < |existing| ==> existing[i].Some?
  {
    seq(|existing|, i requires 0 <= i < |existing| => existing[i].value)
  }

  lemma RedundancyTestIsExactIff(existing: ExistingIndex)
    ensures ExactFor(existing) <==> Distinct(existing) || None in existing
  {
    if Distinct(existing) || None in existing {
      forall newcols
        ensures Reported(existing, newcols) <==> SameColumns(existing, newcols)
      {
        if SameColumns(existing, newcols) {
          PermutationIsReported(existing, newcols);
        }
        if Reported(existing, newcols) {
          DistinctReportIsPermutation(existing, newcols);
        }
      }
    } else {
      var i, j :| 0 <= i < j < |existing| && existing[i] == existing[j];
      assert forall k :: 0 <= k < |existing| ==> existing[k] in existing;
      var odd := LongerThanAll(existing);
      var newcols := Unwrapped(existing)[j := odd];
      forall k | 0 <= k < |existing|
        ensures existing[k].value in newcols
      {
        assert existing[k].value == newcols[if k == j then i else k];
      }
      assert Reported(existing, newcols);
      assert Wrapped(newcols)[j] == Some(odd);
      assert Some(odd) in multiset(Wrapped(newcols));
      assert Some(odd) !in multiset(existing);
    }
  }

  function RedundantActs(indexes: seq<ExistingIndex>, newcols: seq<string>): seq<Action> {
    When(newcols != [] && exists ix :: ix in indexes && Reported(ix, newcols), Err("idx_redundant"))
  }

  /** With duplicate-free indexes the rule is attempted exactly when a permutation already exists. */
  lemma RedundantIffPermutation(indexes: seq<ExistingIndex>, newcols: seq<string>)
    requires forall ix :: ix in indexes ==> Distinct(ix)
    ensures RedundantActs(indexes, newcols) != []
       <==> newcols != [] && exists ix :: ix in indexes && SameColumns(ix, newcols)
  {
    forall ix | ix in indexes
      ensures Reported(ix, newcols) <==> SameColumns(ix, newcols)
    {
      RedundancyTestIsExactIff(ix);
      assert ExactFor(ix);
    }
  }

  method StringListContains(list: seq<string>, s: string) returns (r: bool)
    ensures r == (s in list)
  {
    var i := 0;
    while i < |list|
      invariant 0 <= i <= |list|
      invariant s !in list[..i]
    {
      if list[i] == s {
        return true;
      }
      i := i + 1;
    }
    assert list[..i] == list;
    return false;
  }

  method StmtIndexColnames(params: seq<Option<string>>) returns (cols: seq<string>)
    ensures cols == NamedColumns(params)
  {
    cols := [];
    var i := 0;
    while i < |params|
      invariant 0 <= i <= |params|
      invariant cols + NamedColumns(params[i..]) == NamedColumns(params)
    {
      assert params[i..][1..] == params[i + 1..];
      if params[i].Some? {
        cols := cols + [params[i].value];
      }
      i := i + 1;
    }
  }

  method TestOneIndex(existing: ExistingIndex, newcols: seq<string>) returns (redundant: bool)
    ensures redundant == Reported(existing, newcols)
  {
    redundant := |existing| == |newcols|;
    if redundant {
      var i := 0;
      while i < |existing|
        invariant 0 <= i <= |existing|
        invariant redundant ==> forall k :: 0 <= k < i ==> existing[k].Some? && existing[k].value in newcols
        invariant redundant
      {
        if existing[i].None? {
          redundant := false;
          break;
        }
        var present := StringListContains(newcols, existing[i].value);
        if !present {
          redundant := false;
          break;
        }
        i := i + 1;
      }
    }
  }

  method CheckRedundantIndex(a: Auditor, indexes: seq<ExistingIndex>, newcols: seq<string>) returns (aborted: bool)
    requires a.Valid()
    modifies a.log, a.log.slots
    ensures a.Valid()
    ensures Run(a.log.history, aborted) == Exec(a.Rules(), old(a.log.history), RedundantActs(indexes, newcols))
  {
    aborted := false;
    if newcols == [] {
      return;
    }
    var i := 0;
    while i < |indexes|
      invariant 0 <= i <= |indexes| && a.Valid() && !aborted && a.log.history == old(a.log.history)
      invariant forall k :: 0 <= k < i ==> !Reported(indexes[k], newcols)
    {
      var redundant := TestOneIndex(indexes[i], newcols);
      if redundant {
        assert indexes[i] in indexes;
        aborted := a.Emit(Error, "idx_redundant");
        return;
      }
      i := i + 1;
    }
  }

  // ---- selectivity --------------------------------------------------------------------

  /** Few distinct values: at most two, or, given as a negative share of the rows, less than a tenth. */
  predicate FewDistinct(nd: real) {
    (nd < 0.0 && nd > -0.1) || (nd >= 0.0 && nd <= 2.0)
  }

  predicate IsLow(distinct: map<string, real>, col: Option<string>) {
    col.Some? && col.value in distinct && FewDistinct(distinct[col.value])
  }

  function LowSelectivity(distinct: map<string, real>, params: seq<Option<string>>): seq<string> {
    if params == [] then []
    else (if IsLow(distinct, params[0]) then [params[0].value] else []) + LowSelectivity(distinct, params[1..])
  }

  function SelectivityOf(col: string): seq<Action> {
    [Err("idx_selectivity")]
  }

  method LowSelectivityColumns(distinct: map<string, real>, params: seq<Option<string>>) returns (cols: seq<string>)
    ensures cols == LowSelectivity(distinct, params)
  {
    cols := [];
    var i := 0;
    while i < |params|
      invariant 0 <= i <= |params|
      invariant cols + LowSelectivity(distinct, params[i..]) == LowSelectivity(distinct, params)
    {
      assert params[i..][1..] == params[i + 1..];
      if params[i].Some? && params[i].value in distinct {
        var nd := distinct[params[i].value];
        if (nd < 0.0 && nd > -0.1) || (nd >= 0.0 && nd <= 2.0) {
          cols := cols + [params[i].value];
        }
      }
      i := i + 1;
    }
  }

  method CheckIndexSelectivity(a: Auditor, distinct: map<string, real>, params: seq<Option<string>>) returns (aborted: bool)
    requires a.Valid()
    modifies a.log, a.log.slots
    ensures a.Valid()
    ensures Run(a.log.history, aborted)
         == Exec(a.Rules(), old(a.log.history), FlatMap(SelectivityOf, LowSelectivity(distinct, params)))
  {
    var cols := LowSelectivityColumns(distinct, params);
    aborted := false;
    var i := 0;
    while i < |cols|
      invariant 0 <= i <= |cols| && a.Valid() && !aborted
      invariant Exec(a.Rules(), old(a.log.history), FlatMap(SelectivityOf, cols))
             == Exec(a.Rules(), a.log.history, FlatMap(SelectivityOf, cols[i..]))
    {
      assert cols[i..][1..] == cols[i + 1..];
      ExecAppend(a.Rules(), a.log.history, [Err("idx_selectivity")], FlatMap(SelectivityOf, cols[i + 1..]));
      aborted := a.Emit(Error, "idx_selectivity");
      if aborted { return; }
      i := i + 1;
    }
  }

  // ---- the whole statement ----------------------------------------------------------

  function TableName(stmt: IndexStmt): Option<string> {
    if stmt.relation.Some? then Some(stmt.relation.value.relname) else None
  }

  function Subject(stmt: IndexStmt): Option<string> {
    if stmt.idxname.Some? then stmt.idxname else TableName(stmt)
  }

  /** Checks that only need the parse tree. */
  function StaticActs(stmt: IndexStmt, env: Env): seq<Action> {
    (if stmt.idxname.Some?
     then NameActs(env.reserved, stmt.idxname) + PrefixActs(stmt.idxname, "idx_", "name_idx_prefix")
     else [])
    + (When(!stmt.concurrent, Err("idx_concurrently"))
       + (When(stmt.accessMethod == Some("hash") && |stmt.params| > 1, Err("idx_method"))
          + When(|stmt.params| > 5, Adv("idx_field_count"))))
  }

  /** Checks that need the catalog. */
  function CatalogActs(stmt: IndexStmt, env: Env): seq<Action> {
    if stmt.relation.None? then []
    else
      RedundantActs(env.indexes, NamedColumns(stmt.params))
      + (FlatMap(SelectivityOf, LowSelectivity(env.distinct, stmt.params))
         + When(|env.indexes| > 5, Adv("idx_table_count")))
  }

  function IndexActs(stmt: IndexStmt, env: Env): seq<Action> {
    if stmt.isConstraint then [Write(MakeRecord("CREATE INDEX (constraint)", stmt.idxname, "index", Notice))]
    else
      StaticActs(stmt, env)
      + if stmt.concurrent then [Write(MakeRecord("CREATE INDEX (concurrent)", Subject(stmt), "index", Notice))]
        else CatalogActs(stmt, env) + [Write(MakeRecord("CREATE INDEX", Subject(stmt), "index", Notice))]
  }

  method AuditIndexName(a: Auditor, stmt: IndexStmt, env: Env) returns (aborted: bool)
    requires a.Valid() && stmt.idxname.Some?
    modifies a.log, a.log.slots
    ensures a.Valid()
    ensures Run(a.log.history, aborted)
         == Exec(a.Rules(), old(a.log.history),
                 NameActs(env.reserved, stmt.idxname) + PrefixActs(stmt.idxname, "idx_", "name_idx_prefix"))
  {
    ExecAppend(a.Rules(), a.log.history, NameActs(env.reserved, stmt.idxname), PrefixActs(stmt.idxname, "idx_", "name_idx_prefix"));
    var ok;
    ok, aborted := AuditCheckName(a, env.reserved, stmt.idxname);
    if aborted { return; }
    ok, aborted := AuditCheckPrefix(a, stmt.idxname, "idx_", "name_idx_prefix");
  }

  method AuditIndexStatic(a: Auditor, stmt: IndexStmt, env: Env) returns (aborted: bool)
    requires a.Valid()
    modifies a.log, a.log.slots
    ensures a.Valid()
    ensures Run(a.log.history, aborted) == Exec(a.Rules(), old(a.log.history), StaticActs(stmt, env))
  {
    var ncols := |stmt.params|;
    ghost var name := if stmt.idxname.Some?
      then NameActs(env.reserved, stmt.idxname) + PrefixActs(stmt.idxname, "idx_", "name_idx_prefix") else [];
    ghost var r3 := When(ncols > 5, Adv("idx_field_count"));
    ghost var m := When(stmt.accessMethod == Some("hash") && ncols > 1, Err("idx_method"));
    ghost var c := When(!stmt.concurrent, Err("idx_concurrently"));
    ExecAppend(a.Rules(), a.log.history, name, c + (m + r3));
    if stmt.idxname.Some? {
      aborted := AuditIndexName(a, stmt, env);
      if aborted { return; }
    }
    ExecAppend(a.Rules(), a.log.history, c, m + r3);
    if !stmt.concurrent {
      aborted := a.Emit(Error, "idx_concurrently");
      if aborted { return; }
    }
    ExecAppend(a.Rules(), a.log.history, m, r3);
    if stmt.accessMethod.Some? && stmt.accessMethod.value == "hash" && ncols > 1 {
      aborted := a.Emit(Error, "idx_method");
      if aborted { return; }
    }
    aborted := false;
    if ncols > 5 {
      aborted := a.Emit(Warning, "idx_field_count");
    }
  }

  method AuditIndexCatalog(a: Auditor, stmt: IndexStmt, env: Env) returns (aborted: bool)
    requires a.Valid()
    modifies a.log, a.log.slots
    ensures a.Valid()
    ensures Run(a.log.history, aborted) == Exec(a.Rules(), old(a.log.history), CatalogActs(stmt, env))
  {
    aborted := false;
    var total := 0;
    if stmt.relation.Some? {
      total := |env.indexes|;
      ghost var low := FlatMap(SelectivityOf, LowSelectivity(env.distinct, stmt.params));
      ghost var last := When(total > 5, Adv("idx_table_count"));
      var cols := StmtIndexColnames(stmt.params);
      ExecAppend(a.Rules(), a.log.history, RedundantActs(env.indexes, cols), low + last);
      aborted := CheckRedundantIndex(a, env.indexes, cols);
      if aborted { return; }
      ExecAppend(a.Rules(), a.log.history, low, last);
      aborted := CheckIndexSelectivity(a, env.distinct, stmt.params);
      if aborted { return; }
    }
    if total > 5 {
      aborted := a.Emit(Warning, "idx_table_count");
    }
  }

  method AuditIndex(a: Auditor, env: Env, stmt: IndexStmt) returns (aborted: bool)
    requires a.Valid()
    modifies a.log, a.log.slots
    ensures a.Valid()
    ensures Run(a.log.history, aborted) == Exec(a.Rules(), old(a.log.history), IndexActs(stmt, env))
  {
    aborted := false;
    if stmt.isConstraint {
      a.log.Write("CREATE INDEX (constraint)", stmt.idxname, "index", Notice);
      return;
    }
    ghost var tail := if stmt.concurrent
      then [Write(MakeRecord("CREATE INDEX (concurrent)", Subject(stmt), "index", Notice))]
      else CatalogActs(stmt, env) + [Write(MakeRecord("CREATE INDEX", Subject(stmt), "index", Notice))];
    ExecAppend(a.Rules(), a.log.history, StaticActs(stmt, env), tail);
    aborted := AuditIndexStatic(a, stmt, env);
    if aborted { return; }
    if stmt.concurrent {
      a.log.Write("CREATE INDEX (concurrent)", Subject(stmt), "index", Notice);
      return;
    }
    ExecAppend(a.Rules(), a.log.history, CatalogActs(stmt, env), [Write(MakeRecord("CREATE INDEX", Subject(stmt), "index", Notice))]);
    aborted := AuditIndexCatalog(a, stmt, env);
    if aborted { return; }
    a.log.Write("CREATE INDEX", Subject(stmt), "index", Notice);
  }
}
