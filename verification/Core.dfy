/** Levels, conclusions and audit records (pgsqlauditengine.h, audit_record.h). */
module Core {

  datatype Option<+T> = None | Some(value: T)

  datatype Level = Notice | Warning | Error

  datatype Conclusion = Pass | Warn | Block

  function LevelToConclusion(level: Level): Conclusion {
    match level
    case Error => Block
    case Warning => Block
    case Notice => Pass
  }

  /** A level at which the statement is stopped. WARNING is one of them. */
  predicate Blocking(level: Level) {
    LevelToConclusion(level) == Block
  }

  function Rank(level: Level): nat {
    match level
    case Notice => 0
    case Warning => 1
    case Error => 2
  }

  /** One slot of the record buffer; the time stamp is not modelled. */
  datatype Record = Record(stmtType: string, objectName: string, ruleId: string,
                           level: Level, conclusion: Conclusion)

  const STMT_LEN := 32
  const OBJ_LEN := 128
  const RULE_LEN := 64

  /** strlcpy into a field of `size` characters; a missing string becomes empty. */
  function CopyStr(src: Option<string>, size: nat): string
    requires size > 0
  {
    match src
    case None => ""
    case Some(s) => if |s| < size then s else s[..size - 1]
  }

  function MakeRecord(stmtType: string, objectName: Option<string>, ruleId: string, level: Level): Record {
    Record(CopyStr(Some(stmtType), STMT_LEN), CopyStr(objectName, OBJ_LEN),
           CopyStr(Some(ruleId), RULE_LEN), level, LevelToConclusion(level))
  }

  /** A field of `size` characters holds a string that fits, and otherwise its first `size - 1` characters. */
  predicate Fitted(field: string, text: string, size: nat)
    requires size > 0
  {
    field == if |text| <= size - 1 then text else text[..size - 1]
  }

  /** Every argument ends up in its own field, cut to the sizes of the C structure. */
  lemma FieldsOfRecord(stmtType: string, objectName: Option<string>, ruleId: string, level: Level)
    ensures var r := MakeRecord(stmtType, objectName, ruleId, level);
            && Fitted(r.stmtType, stmtType, 32) && Fitted(r.ruleId, ruleId, 64) && r.level == level
            && Fitted(r.objectName, if objectName.Some? then objectName.value else "", 128)
            && (r.conclusion == Pass <==> level == Notice) && (r.conclusion == Block <==> level != Notice)
  {
  }

  /** The record of one rule that fired at `level`. */
  function Violation(ruleId: string, level: Level): Record {
    MakeRecord("VIOLATION", Some(""), ruleId, level)
  }

  predicate IsViolation(r: Record) {
    r.stmtType == "VIOLATION"
  }

  predicate IsBlockViolation(r: Record) {
    IsViolation(r) && r.conclusion == Block
  }

  /** If it is a violation at all, then one that let the statement go on. */
  predicate LetsPass(r: Record) {
    IsViolation(r) ==> r.conclusion == Pass
  }

  function FlatMap<T, R>(f: T -> seq<R>, xs: seq<T>): seq<R> {
    if xs == [] then [] else f(xs[0]) + FlatMap(f, xs[1..])
  }

  lemma Assoc<T>(a: seq<T>, b: seq<T>, c: seq<T>)
    ensures a + b + c == a + (b + c)
  {
  }

  lemma FlatMapCons<T, R>(f: T -> seq<R>, x: T, xs: seq<T>)
    ensures FlatMap(f, [x] + xs) == f(x) + FlatMap(f, xs)
  {
    assert ([x] + xs)[1..] == xs;
  }

  lemma {:induction false} FlatMapAppend<T, R>(f: T -> seq<R>, xs: seq<T>, ys: seq<T>)
    ensures FlatMap(f, xs + ys) == FlatMap(f, xs) + FlatMap(f, ys)
  {
    if xs == [] {
      assert xs + ys == ys;
    } else {
      assert (xs + ys)[1..] == xs[1..] + ys;
      FlatMapAppend(f, xs[1..], ys);
    }
  }

  lemma FlatMapSplit<T, R>(f: T -> seq<R>, before: seq<T>, x: T, after: seq<T>)
    ensures FlatMap(f, before + ([x] + after)) == FlatMap(f, before) + (f(x) + FlatMap(f, after))
  {
    FlatMapCons(f, x, after);
    FlatMapAppend(f, before, [x] + after);
  }

  lemma PullFront<T>(a: seq<T>, b: seq<T>, c: seq<T>)
    ensures multiset(a + (b + c)) == multiset(b) + multiset(a + c)
  {
  }

  lemma FlatMapAt<T, R>(f: T -> seq<R>, xs: seq<T>, i: nat, rest: seq<T>)
    requires i < |xs| && rest == xs[..i] + xs[i + 1..]
    ensures multiset(FlatMap(f, xs)) == multiset(f(xs[i])) + multiset(FlatMap(f, rest))
  {
    FlatMapSplit(f, xs[..i], xs[i], xs[i + 1..]);
    assert xs == xs[..i] + ([xs[i]] + xs[i + 1..]);
    FlatMapAppend(f, xs[..i], xs[i + 1..]);
    PullFront(FlatMap(f, xs[..i]), f(xs[i]), FlatMap(f, xs[i + 1..]));
  }

  lemma WithoutAt<T>(xs: seq<T>, i: nat, rest: seq<T>)
    requires i < |xs| && rest == xs[..i] + xs[i + 1..]
    ensures multiset(rest) == multiset(xs) - multiset{xs[i]} && |rest| < |xs|
  {
    assert xs == xs[..i] + [xs[i]] + xs[i + 1..];
  }

  lemma Occurrence<T>(xs: seq<T>, ys: seq<T>, x: T) returns (i: nat)
    requires multiset(xs) == multiset(ys) && x in xs
    ensures i < |ys| && ys[i] == x
  {
    assert x in multiset(xs) && x in ys;
    i :| 0 <= i < |ys| && ys[i] == x;
  }

  /** Reordering the inputs reorders the outputs and nothing else. */
  lemma {:induction false} FlatMapPermutes<T, R>(f: T -> seq<R>, xs: seq<T>, ys: seq<T>)
    requires multiset(xs) == multiset(ys)
    ensures multiset(FlatMap(f, xs)) == multiset(FlatMap(f, ys))
    decreases |xs|
  {
    if xs == [] {
      assert |multiset(ys)| == 0;
    } else {
      var i := Occurrence(xs, ys, xs[0]);
      var xs', ys' := xs[..0] + xs[1..], ys[..i] + ys[i + 1..];
      WithoutAt(xs, 0, xs');
      WithoutAt(ys, i, ys');
      FlatMapPermutes(f, xs', ys');
      FlatMapAt(f, xs, 0, xs');
      FlatMapAt(f, ys, i, ys');
    }
  }

  lemma {:induction false} FlatMapEmpty<T, R>(f: T -> seq<R>, xs: seq<T>)
    ensures FlatMap(f, xs) == [] <==> forall x :: x in xs ==> f(x) == []
  {
    if xs != [] {
      FlatMapEmpty(f, xs[1..]);
      assert forall x :: x in xs <==> x == xs[0] || x in xs[1..];
    }
  }

  lemma {:induction false} FlatMapMember<T, R>(f: T -> seq<R>, xs: seq<T>, r: R)
    ensures r in FlatMap(f, xs) <==> exists x :: x in xs && r in f(x)
  {
    if xs != [] {
      FlatMapMember(f, xs[1..], r);
      assert forall x :: x in xs <==> x == xs[0] || x in xs[1..];
    }
  }
}
