/** What a list of rule checks does: records, and at most one abort (rule_registry.c). */
module Verdict {
  import opened Core
  import opened Registry

  /**
   * A call that may fire a rule. `Configured` is audit_emit, `Fixed` is
   * audit_emit_fixed, and `Effective` is audit_emit_fixed called with the result
   * of audit_effective_level.
   */
  datatype Emission =
    | Configured(rule: string, defLevel: Level)
    | Fixed(rule: string, level: Level)
    | Effective(rule: string, defLevel: Level)

  /** One effect of an audit routine: a rule check, or a plain record. */
  datatype Action = Emit(e: Emission) | Write(rec: Record)

  /** Disabled by the shared configuration. An unknown rule cannot be disabled. */
  predicate Disabled(rules: Rules, rule: string) {
    var i := Find(rules.defs, rule);
    i >= 0 && rules.configs.Some? && !rules.configs.value[i].enabled
  }

  /** The level at which the check reports, or None when it is skipped. */
  function FinalLevel(rules: Rules, e: Emission): Option<Level> {
    if Disabled(rules, e.rule) then None
    else match e
      case Configured(rule, defLevel) =>
        var i := Find(rules.defs, rule);
        if i >= 0 && rules.configs.Some? then Some(rules.configs.value[i].level) else Some(defLevel)
      case Fixed(_, level) => Some(level)
      case Effective(rule, defLevel) => Some(EffectiveLevel(rules, rule, defLevel))
  }

  predicate Blocks(rules: Rules, a: Action) {
    a.Emit? && var l := FinalLevel(rules, a.e); l.Some? && Blocking(l.value)
  }

  datatype Run = Run(history: seq<Record>, aborted: bool)

  /** Sequential execution: the first blocking check ends the statement. */
  function Exec(rules: Rules, history: seq<Record>, acts: seq<Action>): Run
    decreases |acts|
  {
    if acts == [] then Run(history, false)
    else match acts[0]
      case Write(rec) => Exec(rules, history + [rec], acts[1..])
      case Emit(e) =>
        match FinalLevel(rules, e)
        case None => Exec(rules, history, acts[1..])
        case Some(level) =>
          var history' := history + [Violation(e.rule, level)];
          if Blocking(level) then Run(history', true) else Exec(rules, history', acts[1..])
  }

  lemma {:induction false} ExecAppend(rules: Rules, history: seq<Record>, a: seq<Action>, b: seq<Action>)
    ensures var r := Exec(rules, history, a);
            Exec(rules, history, a + b) == if r.aborted then r else Exec(rules, r.history, b)
    decreases |a|
  {
    if a == [] {
      assert a + b == b;
    } else {
      assert (a + b)[1..] == a[1..] + b && (a + b)[0] == a[0];
      match a[0] {
        case Write(rec) =>
          ExecAppend(rules, history + [rec], a[1..], b);
        case Emit(e) =>
          var l := FinalLevel(rules, e);
          if l.None? {
            ExecAppend(rules, history, a[1..], b);
          } else {
            ExecAppend(rules, history + [Violation(e.rule, l.value)], a[1..], b);
          }
      }
    }
  }

  // ---- the declarative verdict -------------------------------------------------

  /** The records one action leaves when it is reached. */
  function RecordsOf(rules: Rules, a: Action): seq<Record> {
    match a
    case Write(rec) => [rec]
    case Emit(e) =>
      match FinalLevel(rules, e)
      case None => []
      case Some(level) => [Violation(e.rule, level)]
  }

  function Recorder(rules: Rules): Action -> seq<Record> {
    a => RecordsOf(rules, a)
  }

  /** `k` is the position of the first blocking action, or the length when there is none. */
  ghost predicate IsCut(rules: Rules, acts: seq<Action>, k: nat) {
    && k <= |acts|
    && (forall i :: 0 <= i < k ==> !Blocks(rules, acts[i]))
    && (k < |acts| ==> Blocks(rules, acts[k]))
  }

  lemma CutIsUnique(rules: Rules, acts: seq<Action>, j: nat, k: nat)
    requires IsCut(rules, acts, j) && IsCut(rules, acts, k)
    ensures j == k
  {
  }

  /** The statement is blocked exactly when some check in the list blocks, wherever it stands. */
  lemma {:induction false} AbortsIffSomeBlocks(rules: Rules, history: seq<Record>, acts: seq<Action>)
    ensures Exec(rules, history, acts).aborted <==> exists a :: a in acts && Blocks(rules, a)
    decreases |acts|
  {
    if acts != [] {
      assert forall a :: a in acts <==> a == acts[0] || a in acts[1..];
      match acts[0] {
        case Write(rec) => AbortsIffSomeBlocks(rules, history + [rec], acts[1..]);
        case Emit(e) =>
          var l := FinalLevel(rules, e);
          if l.None? {
            AbortsIffSomeBlocks(rules, history, acts[1..]);
          } else if Blocking(l.value) {
            assert Blocks(rules, acts[0]);
          } else {
            AbortsIffSomeBlocks(rules, history + [Violation(e.rule, l.value)], acts[1..]);
          }
      }
    }
  }

  /** The trail is what the actions up to and including the first blocking one record, in order. */
  lemma {:induction false} TrailIsPrefix(rules: Rules, history: seq<Record>, acts: seq<Action>) returns (k: nat)
    ensures IsCut(rules, acts, k)
    ensures Exec(rules, history, acts).aborted <==> k < |acts|
    ensures Exec(rules, history, acts).history
         == history + FlatMap(Recorder(rules), acts[..if k < |acts| then k + 1 else k])
    decreases |acts|
  {
    if acts == [] {
      k := 0;
    } else if Blocks(rules, acts[0]) {
      k := 0;
      assert acts[..1] == [acts[0]];
      assert FlatMap(Recorder(rules), acts[..1]) == RecordsOf(rules, acts[0]);
    } else {
      var h := history + RecordsOf(rules, acts[0]);
      var k' := TrailIsPrefix(rules, h, acts[1..]);
      k := k' + 1;
      var n := if k < |acts| then k + 1 else k;
      assert acts[..n][1..] == acts[1..][..n - 1];
      assert Exec(rules, history, acts) == Exec(rules, h, acts[1..]) by {
        if acts[0].Emit? && FinalLevel(rules, acts[0].e).None? {
          assert h == history;
        }
      }
    }
  }

  lemma TrailsAgree(all: Run, own: Run, history: seq<Record>, w: seq<Record>)
    requires all.history == history + w && own.history == [] + w && all.aborted == own.aborted
    ensures all == Run(history + own.history, own.aborted)
  {
    assert [] + w == w;
  }

  /** The records depend on the old history only by being appended to it. */
  lemma HistoryIsAppended(rules: Rules, history: seq<Record>, acts: seq<Action>)
    ensures Exec(rules, history, acts)
         == Run(history + Exec(rules, [], acts).history, Exec(rules, [], acts).aborted)
  {
    var k := TrailIsPrefix(rules, history, acts);
    var j := TrailIsPrefix(rules, [], acts);
    CutIsUnique(rules, acts, j, k);
    TrailsAgree(Exec(rules, history, acts), Exec(rules, [], acts), history,
                FlatMap(Recorder(rules), acts[..if k < |acts| then k + 1 else k]));
  }

  // ---- configuration changes ----------------------------------------------------

  /** `b` enables at least the rules of `a`, at levels at least as high. */
  ghost predicate Stricter(a: Rules, b: Rules) {
    && a.defs == b.defs && a.configs.Some? && b.configs.Some?
    && forall i :: 0 <= i < |a.defs| ==>
         var x, y := a.configs.value[i], b.configs.value[i];
         (x.enabled ==> y.enabled) && Rank(x.level) <= Rank(y.level)
  }

  /** Tightening the configuration never turns a blocked statement into an accepted one. */
  lemma VerdictIsMonotone(a: Rules, b: Rules, history: seq<Record>, history': seq<Record>, acts: seq<Action>)
    requires Stricter(a, b)
    requires Exec(a, history, acts).aborted
    ensures Exec(b, history', acts).aborted
  {
    AbortsIffSomeBlocks(a, history, acts);
    AbortsIffSomeBlocks(b, history', acts);
    var x :| x in acts && Blocks(a, x);
    assert Blocks(b, x);
  }

  ghost predicate AgreeOn(a: Rules, b: Rules, acts: seq<Action>) {
    && a.defs == b.defs && a.configs.Some? && b.configs.Some?
    && forall x :: x in acts && x.Emit? ==>
         var i := Find(a.defs, x.e.rule);
         i >= 0 ==> a.configs.value[i] == b.configs.value[i]
  }

  /** Rules that the list never checks influence neither the outcome nor the records. */
  lemma {:induction false} OtherRulesAreIrrelevant(a: Rules, b: Rules, history: seq<Record>, acts: seq<Action>)
    requires AgreeOn(a, b, acts)
    ensures Exec(a, history, acts) == Exec(b, history, acts)
    decreases |acts|
  {
    if acts != [] {
      assert acts[0] in acts && forall x :: x in acts[1..] ==> x in acts;
      match acts[0] {
        case Write(rec) => OtherRulesAreIrrelevant(a, b, history + [rec], acts[1..]);
        case Emit(e) =>
          var l := FinalLevel(a, e);
          assert l == FinalLevel(b, e);
          OtherRulesAreIrrelevant(a, b, if l.None? then history else history + [Violation(e.rule, l.value)], acts[1..]);
      }
    }
  }

  ghost predicate LevelFromCaller(rules: Rules, rule: string) {
    exists d, d' :: FinalLevel(rules, Configured(rule, d)) != FinalLevel(rules, Configured(rule, d'))
  }

  /** The level that a call site passes matters exactly for unknown rules and before shared memory exists. */
  lemma CallerDecidesIff(rules: Rules, rule: string)
    ensures LevelFromCaller(rules, rule) <==> Find(rules.defs, rule) < 0 || rules.configs.None?
  {
    if Find(rules.defs, rule) < 0 || rules.configs.None? {
      assert FinalLevel(rules, Configured(rule, Notice)) != FinalLevel(rules, Configured(rule, Error));
    }
  }

  // ---- the shape of the trail ------------------------------------------------------

  /** No plain record looks like a rule check that did not pass. */
  ghost predicate PlainWrites(acts: seq<Action>) {
    forall a :: a in acts && a.Write? ==> LetsPass(a.rec)
  }

  /** Writes can only close a list: no check follows a plain record. */
  ghost predicate ClosesLast(acts: seq<Action>) {
    forall i :: 0 <= i < |acts| - 1 ==> acts[i].Emit?
  }

  /** The records of the actions in front of the first blocking one. */
  lemma CalmRecords(rules: Rules, acts: seq<Action>, k: nat)
    requires PlainWrites(acts) && ClosesLast(acts) && IsCut(rules, acts, k)
    ensures forall rec :: rec in FlatMap(Recorder(rules), acts[..k]) ==>
              LetsPass(rec) && (k < |acts| ==> IsViolation(rec) && rec.conclusion == Pass)
  {
    forall rec | rec in FlatMap(Recorder(rules), acts[..k])
      ensures LetsPass(rec) && (k < |acts| ==> IsViolation(rec) && rec.conclusion == Pass)
    {
      FlatMapMember(Recorder(rules), acts[..k], rec);
      var a :| a in acts[..k] && rec in Recorder(rules)(a);
      var i :| 0 <= i < k && acts[i] == a;
      assert !Blocks(rules, acts[i]) && acts[i] in acts;
    }
  }

  /**
   * A blocked list ends the trail with its one blocking violation and leaves
   * nothing but violations; every other violation, and all those of an accepted
   * list, conclude PASS.
   */
  lemma TrailShape(rules: Rules, acts: seq<Action>)
    requires PlainWrites(acts) && ClosesLast(acts)
    ensures var r := Exec(rules, [], acts);
            && (r.aborted ==>
                  && r.history != []
                  && IsBlockViolation(r.history[|r.history| - 1])
                  && forall i :: 0 <= i < |r.history| - 1 ==> IsViolation(r.history[i]) && r.history[i].conclusion == Pass)
            && (!r.aborted ==>
                  forall i :: 0 <= i < |r.history| ==> LetsPass(r.history[i]) && !IsBlockViolation(r.history[i]))
  {
    var k := TrailIsPrefix(rules, [], acts);
    var r := Exec(rules, [], acts);
    var f := Recorder(rules);
    var calm := acts[..k];
    CalmRecords(rules, acts, k);
    if k < |acts| {
      assert acts[..k + 1] == calm + [acts[k]];
      FlatMapAppend(f, calm, [acts[k]]);
      assert FlatMap(f, [acts[k]]) == RecordsOf(rules, acts[k]);
      assert r.history == FlatMap(f, calm) + RecordsOf(rules, acts[k]);
    } else {
      assert r.history == FlatMap(f, calm);
    }
  }

  /** A list leaves no trace at all exactly when it only consists of disabled checks. */
  lemma SilentIffAllDisabled(rules: Rules, acts: seq<Action>)
    ensures Exec(rules, [], acts).history == []
       <==> forall a :: a in acts ==> a.Emit? && Disabled(rules, a.e.rule)
  {
    var k := TrailIsPrefix(rules, [], acts);
    var f := Recorder(rules);
    var n := if k < |acts| then k + 1 else k;
    FlatMapEmpty(f, acts[..n]);
    if k < |acts| {
      assert acts[k] == acts[..n][k] && f(acts[k]) != [];
    } else {
      assert acts[..n] == acts;
    }
  }
}
