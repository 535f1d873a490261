/** Naming and type rules shared by the statement audits (rule_common.c). */
module RuleCommon {
  import opened Core
  import opened Verdict
  import opened Ast
  import opened AuditorModule

  const NAME_MAXLEN := 32

  function Err(rule: string): Action { Emit(Configured(rule, Error)) }

  function Adv(rule: string): Action { Emit(Configured(rule, Warning)) }

  function Note(rule: string): Action { Emit(Configured(rule, Notice)) }

  function When(cond: bool, act: Action): seq<Action> {
    if cond then [act] else []
  }

  predicate ValidChar(c: char) {
    'a' <= c <= 'z' || '0' <= c <= '9' || c == '_'
  }

  predicate CharsetOk(name: string) {
    name != "" && forall i :: 0 <= i < |name| ==> ValidChar(name[i])
  }

  predicate StartOk(name: string) {
    name != "" && 'a' <= name[0] <= 'z'
  }

  /** The naming standard: a lower-case identifier of at most 32 characters that is not reserved. */
  predicate LegalName(reserved: set<string>, name: string) {
    CharsetOk(name) && StartOk(name) && |name| <= NAME_MAXLEN && name !in reserved
  }

  /** The one naming rule that the name violates first, if any. */
  function NameActs(reserved: set<string>, name: Option<string>): seq<Action> {
    if name.None? || name.value == "" then [Err("name_start")]
    else if !CharsetOk(name.value) then [Err("name_charset")]
    else if !StartOk(name.value) then [Err("name_start")]
    else if |name.value| > NAME_MAXLEN then [Err("name_len")]
    else if name.value in reserved then [Err("name_reserved")]
    else []
  }

  lemma NameActsEmptyIffLegal(reserved: set<string>, name: string)
    ensures NameActs(reserved, Some(name)) == [] <==> LegalName(reserved, name)
  {
  }

  predicate HasPrefix(name: string, prefix: string) {
    prefix <= name
  }

  function PrefixActs(name: Option<string>, prefix: string, rule: string): seq<Action> {
    When(name.None? || !HasPrefix(name.value, prefix), Err(rule))
  }

  /** The last part of a qualified type name. */
  function TypeNameOf(t: Option<TypeName>): Option<string> {
    if t.None? || t.value.names == [] then None else Some(t.value.names[|t.value.names| - 1])
  }

  predicate FloatType(t: string) {
    t == "real" || t == "float4" || t == "float8" || t == "double precision"
  }

  predicate FixedCharType(t: string) {
    t == "char" || t == "bpchar" || t == "nchar"
  }

  function TypeActs(t: Option<TypeName>): seq<Action> {
    match TypeNameOf(t)
    case None => []
    case Some(name) =>
      When(name == "json", Adv("type_jsonb"))
      + (When(FloatType(name), Adv("type_numeric")) + When(FixedCharType(name), Adv("type_varchar")))
  }

  method CheckCharset(name: string) returns (ok: bool)
    ensures ok == CharsetOk(name)
  {
    if name == "" {
      return false;
    }
    var p := 0;
    while p < |name|
      invariant 0 <= p <= |name|
      invariant forall i :: 0 <= i < p ==> ValidChar(name[i])
    {
      if !ValidChar(name[p]) {
        return false;
      }
      p := p + 1;
    }
    return true;
  }

  method AuditCheckName(a: Auditor, reserved: set<string>, name: Option<string>) returns (ok: bool, aborted: bool)
    requires a.Valid()
    modifies a.log, a.log.slots
    ensures a.Valid()
    ensures Run(a.log.history, aborted) == Exec(a.Rules(), old(a.log.history), NameActs(reserved, name))
    ensures ok <==> name.Some? && LegalName(reserved, name.value)
  {
    ok := false;
    if name.None? || name.value == "" {
      aborted := a.Emit(Error, "name_start");
      return;
    }
    var charset := CheckCharset(name.value);
    if !charset {
      aborted := a.Emit(Error, "name_charset");
      return;
    }
    if !StartOk(name.value) {
      aborted := a.Emit(Error, "name_start");
      return;
    }
    if |name.value| > NAME_MAXLEN {
      aborted := a.Emit(Error, "name_len");
      return;
    }
    if name.value in reserved {
      aborted := a.Emit(Error, "name_reserved");
      return;
    }
    ok, aborted := true, false;
  }

  method AuditCheckPrefix(a: Auditor, name: Option<string>, prefix: string, rule: string)
    returns (ok: bool, aborted: bool)
    requires a.Valid()
    modifies a.log, a.log.slots
    ensures a.Valid()
    ensures Run(a.log.history, aborted) == Exec(a.Rules(), old(a.log.history), PrefixActs(name, prefix, rule))
    ensures ok <==> name.Some? && HasPrefix(name.value, prefix)
  {
    if name.None? || |name.value| < |prefix| || name.value[..|prefix|] != prefix {
      aborted := a.Emit(Error, rule);
      ok := false;
    } else {
      ok, aborted := true, false;
    }
  }

  method AuditCheckType(a: Auditor, t: Option<TypeName>) returns (aborted: bool)
    requires a.Valid()
    modifies a.log, a.log.slots
    ensures a.Valid()
    ensures Run(a.log.history, aborted) == Exec(a.Rules(), old(a.log.history), TypeActs(t))
  {
    var typename := TypeNameOf(t);
    if typename.None? {
      return false;
    }
    var name := typename.value;
    ghost var last := When(FixedCharType(name), Adv("type_varchar"));
    ghost var mid := When(FloatType(name), Adv("type_numeric"));
    ExecAppend(a.Rules(), a.log.history, When(name == "json", Adv("type_jsonb")), mid + last);
    if name == "json" {
      aborted := a.Emit(Warning, "type_jsonb");
      if aborted { return; }
    }
    ExecAppend(a.Rules(), a.log.history, mid, last);
    if FloatType(name) {
      aborted := a.Emit(Warning, "type_numeric");
      if aborted { return; }
    }
    aborted := false;
    if FixedCharType(name) {
      aborted := a.Emit(Warning, "type_varchar");
    }
  }
}
