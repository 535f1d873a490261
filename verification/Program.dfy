/** CREATE FUNCTION: body extraction and the checks on its text (rule_program.c). */
module Program {
  import opened Core
  import opened Verdict
  import opened Ast
  import opened AuditorModule
  import opened RuleCommon
  import opened Text

  const BODY_SIZE := 8192

  // ---- a C string in a fixed buffer ----------------------------------------------

  predicate NulFree(s: string) {
    '\0' !in s
  }

  /** The buffer holds `s` followed by its terminator. */
  ghost predicate Holds(buf: seq<char>, s: string) {
    |s| < |buf| && buf[..|s|] == s && buf[|s|] == '\0' && NulFree(s)
  }

  method StrLen(buf: array<char>, ghost s: string) returns (n: nat)
    requires Holds(buf[..], s)
    ensures n == |s|
  {
    n := 0;
    while buf[n] != '\0'
      invariant 0 <= n <= |s|
      decreases |s| - n
    {
      assert buf[..][|s|] == '\0';
      assert n < |s|;
      n := n + 1;
    }
  }

  method ReadString(buf: array<char>, ghost s: string) returns (r: string)
    requires Holds(buf[..], s)
    ensures r == s
  {
    var n := StrLen(buf, s);
    r := buf[..n];
  }

  /** Copies `s` and a terminator to position `at`. */
  method Place(buf: array<char>, at: nat, s: string)
    requires at + |s| < buf.Length
    modifies buf
    ensures buf[..] == old(buf[..at]) + s + ['\0'] + old(buf[at + |s| + 1..])
  {
    var i := 0;
    while i < |s|
      invariant 0 <= i <= |s|
      invariant forall k :: 0 <= k < i ==> buf[at + k] == s[k]
      invariant forall k :: 0 <= k < at || at + i <= k < buf.Length ==> buf[k] == old(buf[k])
    {
      buf[at + i] := s[i];
      i := i + 1;
    }
    buf[at + i] := '\0';
  }

  method StrLCpy(buf: array<char>, s: string)
    requires buf.Length > 0 && NulFree(s)
    modifies buf
    ensures Holds(buf[..], if |s| < buf.Length then s else s[..buf.Length - 1])
  {
    var t := if |s| < buf.Length then s else s[..buf.Length - 1];
    Place(buf, 0, t);
    assert buf[..][..|t|] == t;
  }

  method StrLCat(buf: array<char>, ghost cur: string, s: string)
    requires Holds(buf[..], cur) && NulFree(s) && |cur| + |s| < buf.Length
    modifies buf
    ensures Holds(buf[..], cur + s)
  {
    var n := StrLen(buf, cur);
    assert buf[..n] == cur;
    Place(buf, n, s);
    assert buf[..][..|cur + s|] == cur + s;
  }

  // ---- the body text --------------------------------------------------------------

  /** A piece that does not fit is skipped as a whole. */
  function AddPiece(acc: string, piece: Option<string>, size: nat): string {
    if piece.Some? && |acc| + |piece.value| + 1 < size then acc + piece.value else acc
  }

  function AddItems(acc: string, items: seq<Option<string>>, size: nat): string
    decreases |items|
  {
    if items == [] then acc else AddItems(AddPiece(acc, items[0], size), items[1..], size)
  }

  function AddOption(acc: string, o: FuncOption, size: nat): string
    requires size > 0
  {
    if o.OtherOption? || o.arg.None? then acc
    else match o.arg.value
      case Items(items) => AddItems(acc, items, size)
      case Whole(text) => if |text| < size then text else text[..size - 1]
  }

  function BodyFrom(acc: string, options: seq<FuncOption>, size: nat): string
    requires size > 0
    decreases |options|
  {
    if options == [] then acc else BodyFrom(AddOption(acc, options[0], size), options[1..], size)
  }

  /** The text on which the body rules work. */
  function BodyText(options: seq<FuncOption>, size: nat): string
    requires size > 0
  {
    BodyFrom("", options, size)
  }

  /** The text of a list of pieces, non-string nodes skipped. */
  function Source(items: seq<Option<string>>): string {
    if items == [] then ""
    else (if items[0].Some? then items[0].value else "") + Source(items[1..])
  }

  predicate CleanItems(items: seq<Option<string>>) {
    forall i :: 0 <= i < |items| && items[i].Some? ==> NulFree(items[i].value)
  }

  predicate CleanOption(o: FuncOption) {
    o.As? && o.arg.Some? ==>
      match o.arg.value
      case Items(items) => CleanItems(items)
      case Whole(text) => NulFree(text)
  }

  /** No string of a parse tree contains a NUL. */
  predicate Clean(options: seq<FuncOption>) {
    forall i :: 0 <= i < |options| ==> CleanOption(options[i])
  }

  method AppendItems(buf: array<char>, ghost cur: string, items: seq<Option<string>>)
    requires Holds(buf[..], cur) && CleanItems(items)
    modifies buf
    ensures Holds(buf[..], AddItems(cur, items, buf.Length))
  {
    ghost var now := cur;
    var i := 0;
    while i < |items|
      invariant 0 <= i <= |items| && Holds(buf[..], now)
      invariant AddItems(cur, items, buf.Length) == AddItems(now, items[i..], buf.Length)
    {
      assert items[i..][1..] == items[i + 1..];
      ghost var next := AddPiece(now, items[i], buf.Length);
      if items[i].Some? {
        var s := items[i].value;
        var n := StrLen(buf, now);
        if n + |s| + 1 < buf.Length {
          StrLCat(buf, now, s);
        }
      }
      now := next;
      i := i + 1;
    }
  }

  method FuncBody(options: seq<FuncOption>, buf: array<char>)
    requires buf.Length > 0 && Clean(options)
    modifies buf
    ensures Holds(buf[..], BodyText(options, buf.Length))
  {
    buf[0] := '\0';
    ghost var cur := "";
    var i := 0;
    while i < |options|
      invariant 0 <= i <= |options| && Holds(buf[..], cur)
      invariant BodyText(options, buf.Length) == BodyFrom(cur, options[i..], buf.Length)
    {
      assert options[i..][1..] == options[i + 1..];
      assert CleanOption(options[i]);
      ghost var next := AddOption(cur, options[i], buf.Length);
      if options[i].As? && options[i].arg.Some? {
        match options[i].arg.value {
          case Items(items) => AppendItems(buf, cur, items);
          case Whole(text) => StrLCpy(buf, text);
        }
      }
      cur := next;
      i := i + 1;
    }
  }

  /** Greedy filling leaves room for the terminator and one more character. */
  lemma {:induction false} GreedyStaysShort(acc: string, items: seq<Option<string>>, size: nat)
    requires |acc| + 1 < size
    ensures |AddItems(acc, items, size)| + 1 < size
    decreases |items|
  {
    if items != [] {
      GreedyStaysShort(AddPiece(acc, items[0], size), items[1..], size);
    }
  }

  lemma {:induction false} GreedyKeepsAll(acc: string, items: seq<Option<string>>, size: nat)
    requires |acc| + |Source(items)| + 1 < size
    ensures AddItems(acc, items, size) == acc + Source(items)
    decreases |items|
  {
    if items != [] {
      GreedyKeepsAll(AddPiece(acc, items[0], size), items[1..], size);
      assert acc + Source(items) == AddPiece(acc, items[0], size) + Source(items[1..]);
    }
  }

  /** Nothing is added behind a text that fills the buffer. */
  lemma {:induction false} FullBufferStays(acc: string, items: seq<Option<string>>, size: nat)
    requires |acc| + 1 >= size
    ensures AddItems(acc, items, size) == acc
    decreases |items|
  {
    if items != [] {
      FullBufferStays(acc, items[1..], size);
    }
  }

  lemma {:induction false} AddItemsAppend(acc: string, a: seq<Option<string>>, b: seq<Option<string>>, size: nat)
    ensures AddItems(acc, a + b, size) == AddItems(AddItems(acc, a, size), b, size)
    decreases |a|
  {
    if a == [] {
      assert a + b == b;
    } else {
      assert (a + b)[1..] == a[1..] + b;
      AddItemsAppend(AddPiece(acc, a[0], size), a[1..], b, size);
    }
  }

  /** A piece that does not fit where it stands leaves no trace: the pieces behind it are still tried. */
  lemma MisfitIsSkipped(acc: string, before: seq<Option<string>>, piece: string, after: seq<Option<string>>, size: nat)
    requires |AddItems(acc, before, size)| + |piece| + 1 >= size
    ensures AddItems(acc, before + [Some(piece)] + after, size) == AddItems(acc, before + after, size)
  {
    AddItemsAppend(acc, before + [Some(piece)], after, size);
    AddItemsAppend(acc, before, [Some(piece)], size);
    AddItemsAppend(acc, before, after, size);
  }

  /** A body given as one string is cut at the end of the buffer, whatever lists stand before it. */
  lemma WholeIsCut(options: seq<FuncOption>, text: string, size: nat)
    requires size > 0 && LastWhole(options) == Some(text) && Pieces(options) == []
    ensures BodyText(options, size) <= text
    ensures |BodyText(options, size)| == if |text| < size then |text| else size - 1
  {
    BodyFromPieces("", options, size);
  }

  predicate IsWhole(o: FuncOption) {
    o.As? && o.arg.Some? && o.arg.value.Whole?
  }

  predicate IsList(o: FuncOption) {
    o.As? && o.arg.Some? && o.arg.value.Items?
  }

  /** The last body given as one string; it replaces whatever came before. */
  function LastWhole(options: seq<FuncOption>): Option<string> {
    if options == [] then None
    else
      var rest := LastWhole(options[1..]);
      if rest.Some? then rest
      else if IsWhole(options[0]) then Some(options[0].arg.value.text) else None
  }

  /** The pieces of all body lists behind it. Options other than AS do not matter. */
  function Pieces(options: seq<FuncOption>): seq<Option<string>> {
    if options == [] then []
    else (if IsList(options[0]) && LastWhole(options[1..]).None? then options[0].arg.value.items else [])
         + Pieces(options[1..])
  }

  function Start(options: seq<FuncOption>): string {
    match LastWhole(options)
    case None => ""
    case Some(text) => text
  }

  /** The body as the user wrote it. */
  function FullSource(options: seq<FuncOption>): string {
    Start(options) + Source(Pieces(options))
  }

  /** strlcpy leaves room for the terminator only, the test before strlcat for one more character. */
  predicate Fits(options: seq<FuncOption>, size: nat) {
    if Source(Pieces(options)) == "" then |Start(options)| < size else |FullSource(options)| + 1 < size
  }

  function Cut(text: string, size: nat): string
    requires size > 0
  {
    if |text| < size then text else text[..size - 1]
  }

  /** Whatever the options are, filling the buffer comes down to one start text and one list of pieces. */
  lemma {:induction false} BodyFromPieces(acc: string, options: seq<FuncOption>, size: nat)
    requires size > 0
    ensures BodyFrom(acc, options, size)
         == AddItems(if LastWhole(options).None? then acc else Cut(Start(options), size), Pieces(options), size)
    decreases |options|
  {
    if options != [] {
      var o, rest := options[0], options[1..];
      BodyFromPieces(AddOption(acc, o, size), rest, size);
      if LastWhole(rest).None? && IsList(o) {
        AddItemsAppend(acc, o.arg.value.items, Pieces(rest), size);
      } else {
        assert Pieces(options) == Pieces(rest);
      }
    }
  }

  lemma AddItemsExactIff(start: string, items: seq<Option<string>>, size: nat)
    requires size > 0
    ensures AddItems(Cut(start, size), items, size) == start + Source(items)
       <==> if Source(items) == "" then |start| < size else |start| + |Source(items)| + 1 < size
  {
    if |start| + 1 < size {
      GreedyStaysShort(start, items, size);
      if |start| + |Source(items)| + 1 < size {
        GreedyKeepsAll(start, items, size);
      } else {
        assert Source(items) != "";
      }
    } else {
      FullBufferStays(Cut(start, size), items, size);
    }
  }

  /** For every list of options, the whole body is examined exactly when it is short enough for the buffer. */
  lemma BodyIsSourceIff(options: seq<FuncOption>, size: nat)
    requires size > 0
    ensures BodyText(options, size) == FullSource(options) <==> Fits(options, size)
  {
    BodyFromPieces("", options, size);
    AddItemsExactIff(Start(options), Pieces(options), size);
  }

  /** The form in which the grammar gives bodies: lists only, among any other options. */
  lemma ListBodyIsSourceIff(options: seq<FuncOption>, size: nat)
    requires size >= 2 && forall i :: 0 <= i < |options| ==> !IsWhole(options[i])
    ensures BodyText(options, size) == FullSource(options) <==> |FullSource(options)| + 1 < size
    ensures FullSource(options) == Source(Pieces(options))
  {
    NoWhole(options);
    BodyIsSourceIff(options, size);
  }

  lemma {:induction false} NoWhole(options: seq<FuncOption>)
    requires forall i :: 0 <= i < |options| ==> !IsWhole(options[i])
    ensures LastWhole(options).None?
  {
    if options != [] {
      NoWhole(options[1..]);
    }
  }

  /** A body in one piece that is too long for the buffer is skipped as a whole. */
  lemma OnePieceBody(options: seq<FuncOption>, source: string, size: nat)
    requires size >= 2 && LastWhole(options).None? && Pieces(options) == [Some(source)]
    ensures FullSource(options) == source
    ensures BodyText(options, size) == if |source| + 1 < size then source else ""
  {
    BodyFromPieces("", options, size);
    assert Source([Some(source)]) == source + Source([]) == source;
    assert AddItems("", [Some(source)], size) == AddPiece("", Some(source), size);
  }

  // ---- the checks -------------------------------------------------------------------

  const DDL_KEYWORDS := ["create ", "alter ", "drop ", "truncate"]

  ghost predicate MentionsDdl(text: string) {
    exists k :: k in DDL_KEYWORDS && OccursNoCase(text, k)
  }

  ghost predicate LeavesCursorOpen(text: string) {
    OccursNoCase(text, "declare") && !OccursNoCase(text, "close")
  }

  function MaybeName(reserved: set<string>, name: Option<string>): seq<Action> {
    if name.Some? then NameActs(reserved, name) else []
  }

  function ParamActs(reserved: set<string>, p: Param): seq<Action> {
    MaybeName(reserved, p.name) + TypeActs(p.argType)
  }

  function ParamAudit(reserved: set<string>): Param -> seq<Action> {
    p => ParamActs(reserved, p)
  }

  ghost function TextActs(text: string): seq<Action> {
    When(MentionsDdl(text), Adv("prog_ddl_forbidden"))
    + (When(LeavesCursorOpen(text), Adv("prog_close_cursor"))
       + When(|text| > 500, Adv("prog_business_logic")))
  }

  function FunctionRecord(f: FuncStmt, name: string): Record {
    MakeRecord(if f.isProcedure then "CREATE PROCEDURE" else "CREATE FUNCTION", Some(name), "program", Notice)
  }

  ghost function FunctionActs(f: FuncStmt, env: Env): seq<Action> {
    if f.funcname == [] then []
    else
      var name := f.funcname[|f.funcname| - 1];
      NameActs(env.reserved, Some(name))
      + (FlatMap(ParamAudit(env.reserved), f.params)
         + (TextActs(BodyText(f.options, BODY_SIZE)) + [Write(FunctionRecord(f, name))]))
  }

  /** No rule finds anything in an empty text. */
  lemma EmptyTextPasses()
    ensures TextActs("") == []
  {
    forall k | k in DDL_KEYWORDS
      ensures !OccursNoCase("", k)
    {
      assert |k| > 0;
    }
    assert !OccursNoCase("", "declare");
  }

  method FindsDdl(text: string) returns (r: bool)
    ensures r <==> MentionsDdl(text)
  {
    r := ContainsNoCase(text, DDL_KEYWORDS[0]);
    if !r { r := ContainsNoCase(text, DDL_KEYWORDS[1]); }
    if !r { r := ContainsNoCase(text, DDL_KEYWORDS[2]); }
    if !r { r := ContainsNoCase(text, DDL_KEYWORDS[3]); }
    assert forall k :: k in DDL_KEYWORDS <==>
      k == DDL_KEYWORDS[0] || k == DDL_KEYWORDS[1] || k == DDL_KEYWORDS[2] || k == DDL_KEYWORDS[3];
  }

  method AuditText(a: Auditor, text: string) returns (aborted: bool)
    requires a.Valid()
    modifies a.log, a.log.slots
    ensures a.Valid()
    ensures Run(a.log.history, aborted) == Exec(a.Rules(), old(a.log.history), TextActs(text))
  {
    ghost var long := When(|text| > 500, Adv("prog_business_logic"));
    ghost var open := When(LeavesCursorOpen(text), Adv("prog_close_cursor"));
    ExecAppend(a.Rules(), a.log.history, When(MentionsDdl(text), Adv("prog_ddl_forbidden")), open + long);
    var ddl := FindsDdl(text);
    if ddl {
      aborted := a.Emit(Warning, "prog_ddl_forbidden");
      if aborted { return; }
    }
    ExecAppend(a.Rules(), a.log.history, open, long);
    var declares := ContainsNoCase(text, "declare");
    var closes := ContainsNoCase(text, "close");
    if declares && !closes {
      aborted := a.Emit(Warning, "prog_close_cursor");
      if aborted { return; }
    }
    aborted := false;
    if |text| > 500 {
      aborted := a.Emit(Warning, "prog_business_logic");
    }
  }

  method AuditParam(a: Auditor, reserved: set<string>, p: Param) returns (aborted: bool)
    requires a.Valid()
    modifies a.log, a.log.slots
    ensures a.Valid()
    ensures Run(a.log.history, aborted) == Exec(a.Rules(), old(a.log.history), ParamActs(reserved, p))
  {
    ExecAppend(a.Rules(), a.log.history, MaybeName(reserved, p.name), TypeActs(p.argType));
    aborted := false;
    if p.name.Some? {
      var ok;
      ok, aborted := AuditCheckName(a, reserved, p.name);
      if aborted { return; }
    }
    if p.argType.Some? {
      aborted := AuditCheckType(a, p.argType);
    }
  }

  method AuditParams(a: Auditor, reserved: set<string>, params: seq<Param>) returns (aborted: bool)
    requires a.Valid()
    modifies a.log, a.log.slots
    ensures a.Valid()
    ensures Run(a.log.history, aborted)
         == Exec(a.Rules(), old(a.log.history), FlatMap(ParamAudit(reserved), params))
  {
    aborted := false;
    ghost var f := ParamAudit(reserved);
    var i := 0;
    while i < |params|
      invariant 0 <= i <= |params| && a.Valid() && !aborted
      invariant Exec(a.Rules(), old(a.log.history), FlatMap(f, params))
             == Exec(a.Rules(), a.log.history, FlatMap(f, params[i..]))
    {
      assert params[i..][1..] == params[i + 1..];
      ExecAppend(a.Rules(), a.log.history, ParamActs(reserved, params[i]), FlatMap(f, params[i + 1..]));
      aborted := AuditParam(a, reserved, params[i]);
      if aborted { return; }
      i := i + 1;
    }
  }

  method AuditBody(a: Auditor, options: seq<FuncOption>) returns (aborted: bool)
    requires a.Valid() && Clean(options)
    modifies a.log, a.log.slots
    ensures a.Valid()
    ensures Run(a.log.history, aborted)
         == Exec(a.Rules(), old(a.log.history), TextActs(BodyText(options, BODY_SIZE)))
  {
    var body := new char[BODY_SIZE];
    FuncBody(options, body);
    var s := ReadString(body, BodyText(options, BODY_SIZE));
    aborted := AuditText(a, s);
  }

  method AuditFunction(a: Auditor, env: Env, f: FuncStmt) returns (aborted: bool)
    requires a.Valid() && Clean(f.options)
    modifies a.log, a.log.slots
    ensures a.Valid()
    ensures Run(a.log.history, aborted) == Exec(a.Rules(), old(a.log.history), FunctionActs(f, env))
  {
    if f.funcname == [] {
      return false;
    }
    var name := f.funcname[|f.funcname| - 1];
    ghost var last := [Write(FunctionRecord(f, name))];
    ghost var text := BodyText(f.options, BODY_SIZE);
    ghost var params := FlatMap(ParamAudit(env.reserved), f.params);
    ExecAppend(a.Rules(), a.log.history, NameActs(env.reserved, Some(name)), params + (TextActs(text) + last));
    var ok;
    ok, aborted := AuditCheckName(a, env.reserved, Some(name));
    if aborted { return; }
    ExecAppend(a.Rules(), a.log.history, params, TextActs(text) + last);
    aborted := AuditParams(a, env.reserved, f.params);
    if aborted { return; }
    ExecAppend(a.Rules(), a.log.history, TextActs(text), last);
    aborted := AuditBody(a, f.options);
    if aborted { return; }
    a.log.Write(if f.isProcedure then "CREATE PROCEDURE" else "CREATE FUNCTION", Some(name), "program", Notice);
  }
}
