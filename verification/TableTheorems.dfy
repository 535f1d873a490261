/** What CREATE TABLE accepts, and where its constraints may stand (rule_ddl.c). */
module TableTheorems {
  import opened Core
  import opened Registry
  import opened Verdict
  import opened Ast
  import opened CreateTable

  // ---- the two constraint lists and the columns, separated -------------------------------

  /** A walk over the elements collects what walks over the constraints and the columns collect. */
  lemma {:induction false} WalkSplits<R>(f: TableElt -> seq<R>, g: Constraint -> seq<R>, h: ColumnDef -> seq<R>,
                                        elts: seq<TableElt>)
    requires forall e :: f(e) == match e case TableConstraint(con) => g(con) case Column(col) => h(col)
    ensures multiset(FlatMap(f, elts))
         == multiset(FlatMap(g, ConstraintsOf(elts))) + multiset(FlatMap(h, ColumnsOf(elts)))
  {
    if elts != [] {
      var e, rest := elts[0], elts[1..];
      WalkSplits(f, g, h, rest);
      match e {
        case TableConstraint(con) =>
          assert ConstraintsOf(elts) == [con] + ConstraintsOf(rest) && ColumnsOf(elts) == ColumnsOf(rest);
          FlatMapCons(g, con, ConstraintsOf(rest));
        case Column(col) =>
          assert ColumnsOf(elts) == [col] + ColumnsOf(rest) && ConstraintsOf(elts) == ConstraintsOf(rest);
          FlatMapCons(h, col, ColumnsOf(rest));
      }
    }
  }

  lemma {:induction false} FlatMapSame<T, R>(f: T -> seq<R>, g: T -> seq<R>, xs: seq<T>)
    requires forall x :: f(x) == g(x)
    ensures FlatMap(f, xs) == FlatMap(g, xs)
  {
    if xs != [] {
      FlatMapSame(f, g, xs[1..]);
    }
  }

  function One(con: Constraint): seq<Constraint> {
    [con]
  }

  function OwnConstraints(col: ColumnDef): seq<Constraint> {
    col.constraints
  }

  function PkOfColumn(col: ColumnDef): seq<string> {
    if HasPrimary(col) then [col.colname] else []
  }

  lemma {:induction false} FlatMapOne(cons: seq<Constraint>)
    ensures FlatMap(One, cons) == cons
  {
    if cons != [] {
      FlatMapOne(cons[1..]);
      assert cons == [cons[0]] + cons[1..];
    }
  }

  lemma ConstraintsCollected(stmt: CreateStmt)
    ensures multiset(AllConstraints(stmt))
         == multiset(TableConstraints(stmt)) + multiset(FlatMap(OwnConstraints, Columns(stmt)))
  {
    WalkSplits(EltConstraints, One, OwnConstraints, stmt.tableElts);
    FlatMapOne(ConstraintsOf(stmt.tableElts));
  }

  lemma CandidatesCollected(stmt: CreateStmt)
    ensures multiset(PkCandidates(stmt))
         == multiset(FlatMap(PkOfConstraint, TableConstraints(stmt))) + multiset(FlatMap(PkOfColumn, Columns(stmt)))
  {
    WalkSplits(PkOfElt, PkOfConstraint, PkOfColumn, stmt.tableElts);
    FlatMapAppend(PkOfConstraint, stmt.constraints, ConstraintsOf(stmt.tableElts));
  }

  // ---- moving table-level constraints -----------------------------------------------------

  /** The same table: equal columns in the same order, and the same table constraints wherever they stand. */
  ghost predicate Rearranged(a: CreateStmt, b: CreateStmt) {
    && a.relation == b.relation && a.ifNotExists == b.ifNotExists
    && Columns(a) == Columns(b)
    && multiset(TableConstraints(a)) == multiset(TableConstraints(b))
  }

  predicate Agreed(names: seq<string>) {
    forall i, j :: 0 <= i < |names| && 0 <= j < |names| ==> names[i] == names[j]
  }

  function ConstraintKeys(stmt: CreateStmt): seq<string> {
    FlatMap(PkOfConstraint, TableConstraints(stmt))
  }

  function ColumnKeys(stmt: CreateStmt): seq<string> {
    FlatMap(PkOfColumn, Columns(stmt))
  }

  /**
   * The table constraints that declare keys agree on the leading column, also with the first column
   * that declares a key of its own. A table with at most one primary key is always settled.
   */
  ghost predicate Settled(stmt: CreateStmt) {
    var cs, ks := ConstraintKeys(stmt), ColumnKeys(stmt);
    Agreed(cs) && (cs != [] && ks != [] ==> cs[0] == ks[0])
  }

  lemma OneKeySettles(stmt: CreateStmt)
    requires |PkCandidates(stmt)| <= 1
    ensures Settled(stmt)
  {
    CandidatesCollected(stmt);
    assert |PkCandidates(stmt)| == |multiset(PkCandidates(stmt))| == |ConstraintKeys(stmt)| + |ColumnKeys(stmt)|;
  }

  lemma {:induction false} FirstOfElts(elts: seq<TableElt>)
    ensures var f, cs, ks := FlatMap(PkOfElt, elts), FlatMap(PkOfConstraint, ConstraintsOf(elts)),
                             FlatMap(PkOfColumn, ColumnsOf(elts));
            f != [] ==> f[0] in cs || (ks != [] && f[0] == ks[0])
  {
    if elts != [] {
      var e, rest := elts[0], elts[1..];
      FirstOfElts(rest);
      match e {
        case TableConstraint(con) =>
          assert ConstraintsOf(elts) == [con] + ConstraintsOf(rest) && ColumnsOf(elts) == ColumnsOf(rest);
          FlatMapCons(PkOfConstraint, con, ConstraintsOf(rest));
        case Column(col) =>
          assert ColumnsOf(elts) == [col] + ColumnsOf(rest) && ConstraintsOf(elts) == ConstraintsOf(rest);
          FlatMapCons(PkOfColumn, col, ColumnsOf(rest));
      }
    }
  }

  /** `pk` is what a walk over these keys may pick. */
  ghost predicate Picks(pk: Option<string>, cs: seq<string>, ks: seq<string>) {
    match pk
    case None => cs == [] && ks == []
    case Some(k) => k in cs || (ks != [] && k == ks[0])
  }

  /** The key column is the leading column of some table constraint, or the first key column. */
  lemma FirstCandidate(stmt: CreateStmt)
    ensures Picks(PkColumn(stmt), ConstraintKeys(stmt), ColumnKeys(stmt))
  {
    FirstOfElts(stmt.tableElts);
    FlatMapAppend(PkOfConstraint, stmt.constraints, ConstraintsOf(stmt.tableElts));
    CandidatesCollected(stmt);
    var both := multiset(ConstraintKeys(stmt)) + multiset(ColumnKeys(stmt));
    assert |PkCandidates(stmt)| == |multiset(PkCandidates(stmt))| == |both| == |ConstraintKeys(stmt)| + |ColumnKeys(stmt)|;
  }

  lemma SameElements<T>(xs: seq<T>, ys: seq<T>)
    requires multiset(xs) == multiset(ys)
    ensures |xs| == |ys| && forall x :: x in xs <==> x in ys
  {
    assert |xs| == |multiset(xs)| == |ys|;
    assert forall x :: x in xs <==> x in multiset(xs);
  }

  lemma PicksAgree(p: Option<string>, q: Option<string>, cs: seq<string>, cs': seq<string>, ks: seq<string>)
    requires Agreed(cs) && (cs != [] && ks != [] ==> cs[0] == ks[0])
    requires |cs| == |cs'| && forall k :: k in cs <==> k in cs'
    requires Picks(p, cs, ks) && Picks(q, cs', ks)
    ensures p == q
  {
  }

  lemma SamePkColumn(a: CreateStmt, b: CreateStmt)
    requires Rearranged(a, b) && Settled(a)
    ensures PkColumn(a) == PkColumn(b)
  {
    FirstCandidate(a);
    FirstCandidate(b);
    FlatMapPermutes(PkOfConstraint, TableConstraints(a), TableConstraints(b));
    SameElements(ConstraintKeys(a), ConstraintKeys(b));
    PicksAgree(PkColumn(a), PkColumn(b), ConstraintKeys(a), ConstraintKeys(b), ColumnKeys(a));
  }

  lemma SameInPk(a: CreateStmt, b: CreateStmt, col: ColumnDef)
    requires Rearranged(a, b)
    ensures InPk(a, col) == InPk(b, col)
  {
    SameElements(TableConstraints(a), TableConstraints(b));
  }

  lemma SameConstraints(a: CreateStmt, b: CreateStmt)
    requires Rearranged(a, b)
    ensures multiset(AllConstraints(a)) == multiset(AllConstraints(b))
    ensures HasForeign(AllConstraints(a)) == HasForeign(AllConstraints(b))
  {
    ConstraintsCollected(a);
    ConstraintsCollected(b);
    SameElements(AllConstraints(a), AllConstraints(b));
  }

  lemma SameColumnRest(a: CreateStmt, b: CreateStmt, col: ColumnDef)
    requires Rearranged(a, b)
    ensures ColumnRest(a, col) == ColumnRest(b, col)
  {
    SameInPk(a, b, col);
    assert NullActs(a, col) == NullActs(b, col);
  }

  lemma SameColumnActs(a: CreateStmt, b: CreateStmt, env: Env, col: ColumnDef, pk: Option<string>)
    requires pk == PkColumn(a) == PkColumn(b) && ColumnRest(a, col) == ColumnRest(b, col)
    ensures ColumnActs(a, env, col) == ColumnActs(b, env, col)
  {
  }

  lemma SameColumnAudit(a: CreateStmt, b: CreateStmt, env: Env)
    requires Rearranged(a, b) && PkColumn(a) == PkColumn(b)
    ensures FlatMap(ColumnAudit(a, env), Columns(a)) == FlatMap(ColumnAudit(b, env), Columns(b))
  {
    forall col: ColumnDef
      ensures ColumnAudit(a, env)(col) == ColumnAudit(b, env)(col)
    {
      SameColumnRest(a, b, col);
      SameColumnActs(a, b, env, col, PkColumn(a));
    }
    FlatMapSame(ColumnAudit(a, env), ColumnAudit(b, env), Columns(a));
  }

  lemma SameHead(a: CreateStmt, b: CreateStmt, env: Env, rel: RangeVar)
    requires PkColumn(a) == PkColumn(b) && HasForeign(AllConstraints(a)) == HasForeign(AllConstraints(b))
    ensures HeadActs(a, env, rel) == HeadActs(b, env, rel)
  {
  }

  lemma PermutedMiddle<T>(head: seq<T>, x: seq<T>, y: seq<T>, tail: seq<T>)
    requires multiset(x) == multiset(y)
    ensures multiset(head + (x + tail)) == multiset(head + (y + tail))
  {
  }

  /** Moving or reordering table constraints permutes what the statement attempts, and nothing more. */
  lemma RearrangedActsPermute(a: CreateStmt, b: CreateStmt, env: Env)
    requires Rearranged(a, b) && Settled(a)
    ensures multiset(TableActs(a, env)) == multiset(TableActs(b, env))
  {
    if a.relation.Some? {
      var rel := a.relation.value;
      SamePkColumn(a, b);
      SameConstraints(a, b);
      SameHead(a, b, env, rel);
      SameColumnAudit(a, b, env);
      FlatMapPermutes(PrefixOf, AllConstraints(a), AllConstraints(b));
      PermutedMiddle(HeadActs(a, env, rel), FlatMap(PrefixOf, AllConstraints(a)), FlatMap(PrefixOf, AllConstraints(b)),
                     FlatMap(ColumnAudit(a, env), Columns(a))
                     + [Write(MakeRecord("CREATE TABLE", Some(rel.relname), "table", Notice))]);
    }
  }

  lemma PermutedActsBlockAlike(rules: Rules, xs: seq<Action>, ys: seq<Action>)
    requires multiset(xs) == multiset(ys)
    ensures Exec(rules, [], xs).aborted == Exec(rules, [], ys).aborted
  {
    AbortsIffSomeBlocks(rules, [], xs);
    AbortsIffSomeBlocks(rules, [], ys);
    SameElements(xs, ys);
  }

  lemma PlacementIsIrrelevant(rules: Rules, a: CreateStmt, b: CreateStmt, env: Env)
    requires Rearranged(a, b) && Settled(a)
    ensures Exec(rules, [], TableActs(a, env)).aborted == Exec(rules, [], TableActs(b, env)).aborted
  {
    RearrangedActsPermute(a, b, env);
    PermutedActsBlockAlike(rules, TableActs(a, env), TableActs(b, env));
  }

  // ---- when the key column depends on the placement ----------------------------------------

  function ColumnElts(cols: seq<ColumnDef>): seq<TableElt> {
    if cols == [] then [] else [Column(cols[0])] + ColumnElts(cols[1..])
  }

  function ConstraintElts(cons: seq<Constraint>): seq<TableElt> {
    if cons == [] then [] else [TableConstraint(cons[0])] + ConstraintElts(cons[1..])
  }

  lemma {:induction false} ConstraintEltsAre(cons: seq<Constraint>)
    ensures ColumnsOf(ConstraintElts(cons)) == [] && ConstraintsOf(ConstraintElts(cons)) == cons
    ensures FlatMap(PkOfElt, ConstraintElts(cons)) == FlatMap(PkOfConstraint, cons)
  {
    if cons != [] {
      ConstraintEltsAre(cons[1..]);
      assert ConstraintElts(cons)[1..] == ConstraintElts(cons[1..]);
      assert cons == [cons[0]] + cons[1..];
    }
  }

  lemma ColumnFirst(col: ColumnDef, rest: seq<TableElt>)
    ensures var elts := [Column(col)] + rest;
            && ColumnsOf(elts) == [col] + ColumnsOf(rest) && ConstraintsOf(elts) == ConstraintsOf(rest)
            && FlatMap(PkOfElt, elts) == PkOfColumn(col) + FlatMap(PkOfElt, rest)
  {
    assert ([Column(col)] + rest)[1..] == rest;
  }

  lemma {:induction false} SplitElts(cols: seq<ColumnDef>, cons: seq<Constraint>, elts: seq<TableElt>)
    requires elts == ColumnElts(cols) + ConstraintElts(cons)
    ensures ColumnsOf(elts) == cols && ConstraintsOf(elts) == cons
    ensures FlatMap(PkOfElt, elts) == FlatMap(PkOfColumn, cols) + FlatMap(PkOfConstraint, cons)
  {
    if cols == [] {
      ConstraintEltsAre(cons);
      assert elts == ConstraintElts(cons);
    } else {
      var rest := ColumnElts(cols[1..]) + ConstraintElts(cons);
      SplitElts(cols[1..], cons, rest);
      ColumnFirst(cols[0], rest);
      assert elts == [Column(cols[0])] + rest;
      assert cols == [cols[0]] + cols[1..];
      assert FlatMap(PkOfColumn, cols) == PkOfColumn(cols[0]) + FlatMap(PkOfColumn, cols[1..]);
      Assoc(PkOfColumn(cols[0]), FlatMap(PkOfColumn, cols[1..]), FlatMap(PkOfConstraint, cons));
    }
  }

  lemma PlainColumns(cols: seq<ColumnDef>)
    requires forall col :: col in cols ==> col.constraints == []
    ensures FlatMap(OwnConstraints, cols) == [] && FlatMap(PkOfColumn, cols) == []
  {
    FlatMapEmpty(OwnConstraints, cols);
    FlatMapEmpty(PkOfColumn, cols);
  }

  /** A table written with its constraints behind plain columns. */
  lemma PlainTable(t: CreateStmt, cols: seq<ColumnDef>, cons: seq<Constraint>)
    requires t.constraints == [] && t.tableElts == ColumnElts(cols) + ConstraintElts(cons)
    requires forall col :: col in cols ==> col.constraints == []
    ensures Columns(t) == cols && TableConstraints(t) == cons && ColumnKeys(t) == []
    ensures multiset(AllConstraints(t)) == multiset(cons)
    ensures PkCandidates(t) == ConstraintKeys(t) == FlatMap(PkOfConstraint, cons)
  {
    SplitElts(cols, cons, t.tableElts);
    assert [] + cons == cons;
    PlainColumns(cols);
    ConstraintsCollected(t);
  }

  /** The table with its constraints `cons` in the separate list, or behind the columns. */
  function Arranged(stmt: CreateStmt, cons: seq<Constraint>, behind: bool): CreateStmt {
    if behind then stmt.(constraints := [], tableElts := ColumnElts(Columns(stmt)) + ConstraintElts(cons))
    else stmt.(constraints := cons, tableElts := ColumnElts(Columns(stmt)) + ConstraintElts([]))
  }

  lemma InFront(stmt: CreateStmt, cons: seq<Constraint>)
    ensures var b := Arranged(stmt, cons, false);
            && Columns(b) == Columns(stmt) && TableConstraints(b) == cons
            && PkCandidates(b) == FlatMap(PkOfConstraint, cons) + ColumnKeys(stmt)
  {
    SplitElts(Columns(stmt), [], Arranged(stmt, cons, false).tableElts);
    assert cons + [] == cons && ColumnKeys(stmt) + [] == ColumnKeys(stmt);
  }

  lemma Behind(stmt: CreateStmt, cons: seq<Constraint>)
    ensures var b := Arranged(stmt, cons, true);
            && Columns(b) == Columns(stmt) && TableConstraints(b) == cons
            && PkCandidates(b) == ColumnKeys(stmt) + FlatMap(PkOfConstraint, cons)
  {
    SplitElts(Columns(stmt), cons, Arranged(stmt, cons, true).tableElts);
    var keys := ColumnKeys(stmt) + FlatMap(PkOfConstraint, cons);
    assert [] + cons == cons && [] + keys == keys;
  }

  lemma ArrangedIsRearranged(stmt: CreateStmt, cons: seq<Constraint>, behind: bool)
    requires multiset(cons) == multiset(TableConstraints(stmt))
    ensures Rearranged(stmt, Arranged(stmt, cons, behind))
    ensures var cs, ks := FlatMap(PkOfConstraint, cons), ColumnKeys(stmt);
            PkCandidates(Arranged(stmt, cons, behind)) == if behind then ks + cs else cs + ks
  {
    if behind {
      Behind(stmt, cons);
    } else {
      InFront(stmt, cons);
    }
  }

  /** Some order of the constraints visits a given key first. */
  lemma KeyFirst(cons: seq<Constraint>, k: string) returns (cons': seq<Constraint>)
    requires k in FlatMap(PkOfConstraint, cons)
    ensures multiset(cons') == multiset(cons)
    ensures var cs := FlatMap(PkOfConstraint, cons'); cs != [] && cs[0] == k
  {
    FlatMapMember(PkOfConstraint, cons, k);
    var con :| con in cons && k in PkOfConstraint(con);
    var i :| 0 <= i < |cons| && cons[i] == con;
    var rest := cons[..i] + cons[i + 1..];
    cons' := [con] + rest;
    assert cons == cons[..i] + [con] + cons[i + 1..];
    FlatMapCons(PkOfConstraint, con, rest);
  }

  ghost predicate KeyIsFixed(stmt: CreateStmt) {
    forall b :: Rearranged(stmt, b) ==> PkColumn(b) == PkColumn(stmt)
  }

  lemma UnsettledKeyMoves(stmt: CreateStmt)
    requires !Settled(stmt)
    ensures !KeyIsFixed(stmt)
  {
    var cons := TableConstraints(stmt);
    var cs := ConstraintKeys(stmt);
    var b, c;
    if !Agreed(cs) {
      var i, j :| 0 <= i < |cs| && 0 <= j < |cs| && cs[i] != cs[j];
      var front := KeyFirst(cons, cs[i]);
      var front' := KeyFirst(cons, cs[j]);
      ArrangedIsRearranged(stmt, front, false);
      ArrangedIsRearranged(stmt, front', false);
      b, c := Arranged(stmt, front, false), Arranged(stmt, front', false);
    } else {
      ArrangedIsRearranged(stmt, cons, false);
      ArrangedIsRearranged(stmt, cons, true);
      b, c := Arranged(stmt, cons, false), Arranged(stmt, cons, true);
    }
    assert Rearranged(stmt, b) && Rearranged(stmt, c) && PkColumn(b) != PkColumn(c);
  }

  /** Which column counts as the key is independent of the placement exactly for settled tables. */
  lemma KeyIsFixedIffSettled(stmt: CreateStmt)
    ensures KeyIsFixed(stmt) <==> Settled(stmt)
  {
    if Settled(stmt) {
      forall b | Rearranged(stmt, b)
        ensures PkColumn(b) == PkColumn(stmt)
      {
        SamePkColumn(stmt, b);
      }
    } else {
      UnsettledKeyMoves(stmt);
    }
  }

  // ---- the key column and the key test -------------------------------------------------------

  ghost predicate DistinctColumns(stmt: CreateStmt) {
    var cols := Columns(stmt);
    forall x, y :: x in cols && y in cols && x.colname == y.colname ==> x == y
  }

  /** With distinct column names, the column chosen as the key passes the test for key columns. */
  lemma KeyColumnIsInPk(stmt: CreateStmt, col: ColumnDef)
    requires DistinctColumns(stmt) && col in Columns(stmt) && PkColumn(stmt) == Some(col.colname)
    ensures InPk(stmt, col)
  {
    FirstCandidate(stmt);
    if col.colname in ConstraintKeys(stmt) {
      FlatMapMember(PkOfConstraint, TableConstraints(stmt), col.colname);
      var con :| con in TableConstraints(stmt) && col.colname in PkOfConstraint(con);
      assert con.keys[0] in con.keys;
    } else {
      FlatMapMember(PkOfColumn, Columns(stmt), col.colname);
      var x :| x in Columns(stmt) && col.colname in PkOfColumn(x);
      assert x == col;
    }
  }

  /** No key column is found exactly when nothing declares a key; then no column passes the key test. */
  lemma NoKeyColumnIff(stmt: CreateStmt)
    ensures PkColumn(stmt).None?
       <==> (forall con :: con in TableConstraints(stmt) ==> !IsTablePk(con))
            && (forall col :: col in Columns(stmt) ==> !HasPrimary(col))
    ensures PkColumn(stmt).None? ==> forall col :: col in Columns(stmt) ==> !InPk(stmt, col)
  {
    CandidatesCollected(stmt);
    var both := multiset(ConstraintKeys(stmt)) + multiset(ColumnKeys(stmt));
    assert |PkCandidates(stmt)| == |multiset(PkCandidates(stmt))| == |both| == |ConstraintKeys(stmt)| + |ColumnKeys(stmt)|;
    FlatMapEmpty(PkOfConstraint, TableConstraints(stmt));
    FlatMapEmpty(PkOfColumn, Columns(stmt));
  }
}
