/** The JSON strings the API writes, and a reader that follows RFC 8259. */
module Json {
  import opened Core

  // ---- strings (section 7 of RFC 8259) ----------------------------------------------

  function EscapeChar(c: char): string {
    if c == '"' then "\\\""
    else if c == '\\' then "\\\\"
    else if c == '\n' then "\\n"
    else if c == '\r' then "\\r"
    else if c == '\t' then "\\t"
    else [c]
  }

  function Escape(s: string): string {
    FlatMap(EscapeChar, s)
  }

  /** What append_json_string appends. */
  function JsonString(s: string): string {
    "\"" + Escape(s) + "\""
  }

  /** The writer leaves other control characters unescaped. */
  predicate Printable(s: string) {
    forall i :: 0 <= i < |s| ==> s[i] >= ' ' || s[i] == '\n' || s[i] == '\r' || s[i] == '\t'
  }

  function HexValue(c: char): Option<nat> {
    if '0' <= c <= '9' then Some(c as int - '0' as int)
    else if 'a' <= c <= 'f' then Some(c as int - 'a' as int + 10)
    else if 'A' <= c <= 'F' then Some(c as int - 'A' as int + 10)
    else None
  }

  /** Four hexadecimal digits that name a character by themselves. */
  function Hex4(t: string): Option<char> {
    if |t| < 4 then None
    else match (HexValue(t[0]), HexValue(t[1]), HexValue(t[2]), HexValue(t[3]))
      case (Some(a), Some(b), Some(c), Some(d)) =>
        var code := ((a * 16 + b) * 16 + c) * 16 + d;
        if code < 0xD800 || 0xE000 <= code < 0x10000 then Some(code as char) else None
      case _ => None
  }

  function SimpleEscape(c: char): Option<char> {
    if c == '"' || c == '\\' || c == '/' then Some(c)
    else if c == 'b' then Some(8 as char)
    else if c == 'f' then Some(12 as char)
    else if c == 'n' then Some('\n')
    else if c == 'r' then Some('\r')
    else if c == 't' then Some('\t')
    else None
  }

  function Prepend(c: char, r: Option<(string, string)>): Option<(string, string)> {
    match r
    case None => None
    case Some((s, rest)) => Some(([c] + s, rest))
  }

  /** Reads up to the closing quote; the result is the string and the text behind it. */
  function DecodeBody(t: string): (r: Option<(string, string)>)
    ensures r.Some? ==> |r.value.1| < |t|
    decreases |t|
  {
    if t == "" then None
    else if t[0] == '"' then Some(("", t[1..]))
    else if t[0] == '\\' then
      if |t| < 2 then None
      else if t[1] == 'u' then
        match Hex4(t[2..])
        case None => None
        case Some(c) => Prepend(c, DecodeBody(t[6..]))
      else
        match SimpleEscape(t[1])
        case None => None
        case Some(c) => Prepend(c, DecodeBody(t[2..]))
    else if t[0] < ' ' then None
    else Prepend(t[0], DecodeBody(t[1..]))
  }

  function DecodeString(t: string): (r: Option<(string, string)>)
    ensures r.Some? ==> |r.value.1| < |t|
  {
    if t != "" && t[0] == '"' then DecodeBody(t[1..]) else None
  }

  /**
   * Whatever follows, the reader recovers exactly the written string, provided its
   * only control characters are newline, return and tab; otherwise it rejects the text.
   */
  lemma {:induction false} DecodeBodyInverts(s: string, rest: string)
    ensures DecodeBody(Escape(s) + "\"" + rest) == if Printable(s) then Some((s, rest)) else None
  {
    var t := Escape(s) + "\"" + rest;
    if s != "" {
      DecodeBodyInverts(s[1..], rest);
      var t' := Escape(s[1..]) + "\"" + rest;
      var e := EscapeChar(s[0]);
      assert t == e + t';
      assert t[|e|..] == t';
      assert Printable(s) <==> Printable([s[0]]) && Printable(s[1..]) by {
        assert s == [s[0]] + s[1..];
      }
      assert s == [s[0]] + s[1..];
      assert t[0] == e[0];
      if |e| == 2 {
        assert t[1] == e[1];
      }
    }
  }

  lemma StringRoundTrip(s: string, rest: string)
    ensures DecodeString(JsonString(s) + rest) == if Printable(s) then Some((s, rest)) else None
  {
    DecodeBodyInverts(s, rest);
    assert (JsonString(s) + rest)[1..] == Escape(s) + "\"" + rest;
  }

  // ---- values -----------------------------------------------------------------------

  datatype Member = Member(key: string, value: Value)

  datatype Value =
    | Null
    | Bool(b: bool)
    | Num(n: nat)
    | Str(s: string)
    | Arr(items: seq<Value>)
    | Obj(members: seq<Member>)

  function Digit(d: nat): char
    requires d < 10
  {
    ('0' as int + d) as char
  }

  function Digits(n: nat): string {
    if n < 10 then [Digit(n)] else Digits(n / 10) + [Digit(n % 10)]
  }

  function Print(v: Value): string
    decreases v
  {
    match v
    case Null => "null"
    case Bool(b) => if b then "true" else "false"
    case Num(n) => Digits(n)
    case Str(s) => JsonString(s)
    case Arr(items) => "[" + (if items == [] then "" else Print(items[0]) + PrintMore(items[1..])) + "]"
    case Obj(ms) => "{" + (if ms == [] then "" else PrintMember(ms[0]) + PrintMoreMembers(ms[1..])) + "}"
  }

  function PrintMore(items: seq<Value>): string
    decreases items
  {
    if items == [] then "" else "," + Print(items[0]) + PrintMore(items[1..])
  }

  function PrintMember(m: Member): string
    decreases m
  {
    JsonString(m.key) + ":" + Print(m.value)
  }

  function PrintMoreMembers(ms: seq<Member>): string
    decreases ms
  {
    if ms == [] then "" else "," + PrintMember(ms[0]) + PrintMoreMembers(ms[1..])
  }

  predicate PrintableValue(v: Value)
    decreases v
  {
    match v
    case Str(s) => Printable(s)
    case Arr(items) => forall i :: 0 <= i < |items| ==> PrintableValue(items[i])
    case Obj(ms) => forall i :: 0 <= i < |ms| ==> Printable(ms[i].key) && PrintableValue(ms[i].value)
    case _ => true
  }

  // ---- the reader -------------------------------------------------------------------

  predicate IsSpace(c: char) {
    c == ' ' || c == '\t' || c == '\n' || c == '\r'
  }

  function SkipSpace(t: string): (r: string)
    ensures |r| <= |t|
  {
    if t != "" && IsSpace(t[0]) then SkipSpace(t[1..]) else t
  }

  predicate IsDigit(c: char) {
    '0' <= c <= '9'
  }

  function ReadDigits(t: string, acc: nat): (r: (nat, string))
    ensures |r.1| <= |t|
    ensures t != "" && IsDigit(t[0]) ==> |r.1| < |t|
    decreases |t|
  {
    if t != "" && IsDigit(t[0]) then ReadDigits(t[1..], acc * 10 + (t[0] as int - '0' as int)) else (acc, t)
  }

  /** One value; numbers are read as non-negative integers, the only ones the API writes. */
  function ReadValue(t: string): (r: Option<(Value, string)>)
    ensures r.Some? ==> |r.value.1| < |t|
    decreases |t|, 1
  {
    var u := SkipSpace(t);
    if u == "" then None
    else if u[0] == '"' then
      match DecodeString(u)
      case None => None
      case Some((s, rest)) => Some((Str(s), rest))
    else if IsDigit(u[0]) then
      var (n, rest) := ReadDigits(u, 0);
      Some((Num(n), rest))
    else if u[0] == '[' then
      var w := SkipSpace(u[1..]);
      if w != "" && w[0] == ']' then Some((Arr([]), w[1..]))
      else
        match ReadValue(u[1..])
        case None => None
        case Some((v, rest)) =>
          match ReadMore(rest)
          case None => None
          case Some((vs, rest')) => Some((Arr([v] + vs), rest'))
    else if u[0] == '{' then
      var w := SkipSpace(u[1..]);
      if w != "" && w[0] == '}' then Some((Obj([]), w[1..]))
      else
        match ReadMember(u[1..])
        case None => None
        case Some((m, rest)) =>
          match ReadMoreMembers(rest)
          case None => None
          case Some((ms, rest')) => Some((Obj([m] + ms), rest'))
    else if "null" <= u then Some((Null, u[4..]))
    else if "true" <= u then Some((Bool(true), u[4..]))
    else if "false" <= u then Some((Bool(false), u[5..]))
    else None
  }

  function ReadMore(t: string): (r: Option<(seq<Value>, string)>)
    ensures r.Some? ==> |r.value.1| < |t|
    decreases |t|, 0
  {
    var u := SkipSpace(t);
    if u == "" then None
    else if u[0] == ']' then Some(([], u[1..]))
    else if u[0] != ',' then None
    else
      match ReadValue(u[1..])
      case None => None
      case Some((v, rest)) =>
        match ReadMore(rest)
        case None => None
        case Some((vs, rest')) => Some(([v] + vs, rest'))
  }

  function ReadMember(t: string): (r: Option<(Member, string)>)
    ensures r.Some? ==> |r.value.1| < |t|
    decreases |t|, 0
  {
    match DecodeString(SkipSpace(t))
    case None => None
    case Some((key, rest)) =>
      var u := SkipSpace(rest);
      if u == "" || u[0] != ':' then None
      else
        match ReadValue(u[1..])
        case None => None
        case Some((v, rest')) => Some((Member(key, v), rest'))
  }

  function ReadMoreMembers(t: string): (r: Option<(seq<Member>, string)>)
    ensures r.Some? ==> |r.value.1| < |t|
    decreases |t|, 0
  {
    var u := SkipSpace(t);
    if u == "" then None
    else if u[0] == '}' then Some(([], u[1..]))
    else if u[0] != ',' then None
    else
      match ReadMember(u[1..])
      case None => None
      case Some((m, rest)) =>
        match ReadMoreMembers(rest)
        case None => None
        case Some((ms, rest')) => Some(([m] + ms, rest'))
  }

  /** A complete text. */
  function ReadText(t: string): Option<Value> {
    match ReadValue(t)
    case None => None
    case Some((v, rest)) => if SkipSpace(rest) == "" then Some(v) else None
  }

  // ---- the reader inverts the writer --------------------------------------------------

  /** Text that cannot prolong a number. */
  predicate Delimited(rest: string) {
    rest == "" || !IsDigit(rest[0])
  }

  lemma {:induction false} DigitsAreRead(n: nat, rest: string)
    ensures ReadDigits(Digits(n) + rest, 0) == ReadDigits(rest, n)
    ensures Digits(n) != "" && IsDigit(Digits(n)[0])
  {
    if n < 10 {
      assert ([Digit(n)] + rest)[1..] == rest;
    } else {
      DigitsAreRead(n / 10, [Digit(n % 10)] + rest);
      assert Digits(n) + rest == Digits(n / 10) + ([Digit(n % 10)] + rest);
      assert ([Digit(n % 10)] + rest)[1..] == rest;
    }
  }

  /** No value starts with a space or a closing bracket. */
  lemma PrintStarts(v: Value)
    ensures Print(v) != "" && !IsSpace(Print(v)[0]) && Print(v)[0] != ']'
  {
    if v.Num? {
      DigitsAreRead(v.n, "");
    }
  }

  lemma {:induction false} ValueRoundTrip(v: Value, rest: string)
    requires Delimited(rest)
    ensures ReadValue(Print(v) + rest) == if PrintableValue(v) then Some((v, rest)) else None
    decreases v
  {
    var t := Print(v) + rest;
    PrintStarts(v);
    assert t[0] == Print(v)[0] && SkipSpace(t) == t;
    match v {
      case Null => assert t[4..] == rest;
      case Bool(b) => assert t[if b then 4 else 5..] == rest;
      case Num(n) => DigitsAreRead(n, rest);
      case Str(s) => StringRoundTrip(s, rest);
      case Arr(items) => ArrayRoundTrip(items, rest);
      case Obj(ms) => ObjectRoundTrip(ms, rest);
    }
  }

  lemma EmptyRoundTrip(rest: string)
    ensures ReadValue("[]" + rest) == Some((Arr([]), rest))
    ensures ReadValue("{}" + rest) == Some((Obj([]), rest))
  {
    var t, u := "[]" + rest, "{}" + rest;
    assert t[1..] == "]" + rest && t[1..][1..] == rest;
    assert u[1..] == "}" + rest && u[1..][1..] == rest;
  }

  lemma ReadArrayStep(t: string, v: Value, tail: string, vs: seq<Value>, rest: string)
    requires t != "" && t[0] == '[' && |t| > 1 && t[1] != ']' && !IsSpace(t[1])
    requires ReadValue(t[1..]) == Some((v, tail)) && ReadMore(tail) == Some((vs, rest))
    ensures ReadValue(t) == Some((Arr([v] + vs), rest))
  {
    assert SkipSpace(t) == t && SkipSpace(t[1..]) == t[1..];
  }

  lemma ReadArrayFails(t: string)
    requires t != "" && t[0] == '[' && |t| > 1 && t[1] != ']' && !IsSpace(t[1])
    requires ReadValue(t[1..]).None? || ReadMore(ReadValue(t[1..]).value.1).None?
    ensures ReadValue(t).None?
  {
    assert SkipSpace(t) == t && SkipSpace(t[1..]) == t[1..];
  }

  lemma PrintableItems(items: seq<Value>)
    requires items != []
    ensures PrintableValue(Arr(items)) <==> PrintableValue(items[0]) && PrintableValue(Arr(items[1..]))
  {
    assert items == [items[0]] + items[1..];
  }

  lemma ArrayText(items: seq<Value>, rest: string)
    requires items != []
    ensures var t := Print(Arr(items)) + rest;
            && |t| > 1 && t[0] == '[' && t[1] != ']' && !IsSpace(t[1])
            && t[1..] == Print(items[0]) + (PrintMore(items[1..]) + "]" + rest)
  {
    var t := Print(Arr(items)) + rest;
    assert t[1..] == Print(items[0]) + (PrintMore(items[1..]) + "]" + rest);
    PrintStarts(items[0]);
    assert t[1] == t[1..][0] == Print(items[0])[0];
  }

  lemma {:induction false} ArrayRoundTrip(items: seq<Value>, rest: string)
    requires Delimited(rest)
    ensures ReadValue(Print(Arr(items)) + rest) == if PrintableValue(Arr(items)) then Some((Arr(items), rest)) else None
    decreases items
  {
    if items == [] {
      EmptyRoundTrip(rest);
      assert Print(Arr(items)) == "[]";
    } else {
      var v, tail := items[0], PrintMore(items[1..]) + "]" + rest;
      ItemsTailDelimited(items[1..], rest);
      ValueRoundTrip(v, tail);
      MoreRoundTrip(items[1..], rest);
      ArrayText(items, rest);
      PrintableItems(items);
      if PrintableValue(Arr(items)) {
        ReadArrayStep(Print(Arr(items)) + rest, v, tail, items[1..], rest);
        assert [v] + items[1..] == items;
      } else {
        ReadArrayFails(Print(Arr(items)) + rest);
      }
    }
  }

  lemma ReadMoreStep(t: string, v: Value, tail: string, vs: seq<Value>, rest: string)
    requires t != "" && t[0] == ','
    requires ReadValue(t[1..]) == Some((v, tail)) && ReadMore(tail) == Some((vs, rest))
    ensures ReadMore(t) == Some(([v] + vs, rest))
  {
    assert SkipSpace(t) == t;
  }

  lemma ReadMoreFails(t: string)
    requires t != "" && t[0] == ','
    requires ReadValue(t[1..]).None? || ReadMore(ReadValue(t[1..]).value.1).None?
    ensures ReadMore(t).None?
  {
    assert SkipSpace(t) == t;
  }

  lemma MoreText(items: seq<Value>, rest: string)
    requires items != []
    ensures var t := PrintMore(items) + "]" + rest;
            t[0] == ',' && t[1..] == Print(items[0]) + (PrintMore(items[1..]) + "]" + rest)
  {
  }

  lemma ItemsTailDelimited(items: seq<Value>, rest: string)
    ensures Delimited(PrintMore(items) + "]" + rest)
  {
  }

  lemma {:induction false} MoreRoundTrip(items: seq<Value>, rest: string)
    requires Delimited(rest)
    ensures ReadMore(PrintMore(items) + "]" + rest) == if PrintableValue(Arr(items)) then Some((items, rest)) else None
    decreases items
  {
    var t := PrintMore(items) + "]" + rest;
    if items == [] {
      assert t[1..] == rest;
    } else {
      var v, tail := items[0], PrintMore(items[1..]) + "]" + rest;
      MoreText(items, rest);
      ItemsTailDelimited(items[1..], rest);
      ValueRoundTrip(v, tail);
      MoreRoundTrip(items[1..], rest);
      PrintableItems(items);
      if PrintableValue(Arr(items)) {
        assert items == [v] + items[1..];
        ReadMoreStep(t, v, tail, items[1..], rest);
      } else {
        ReadMoreFails(t);
      }
    }
  }

  lemma ReadMemberStep(key: string, text: string)
    requires var t := JsonString(key) + (":" + text);
             DecodeString(t) == if Printable(key) then Some((key, ":" + text)) else None
    ensures ReadMember(JsonString(key) + (":" + text))
         == if !Printable(key) || ReadValue(text).None? then None
            else Some((Member(key, ReadValue(text).value.0), ReadValue(text).value.1))
  {
    var t, u := JsonString(key) + (":" + text), ":" + text;
    assert t[0] == '"' && SkipSpace(t) == t;
    assert u[0] == ':' && SkipSpace(u) == u && u[1..] == text;
  }

  lemma {:induction false} MemberRoundTrip(m: Member, rest: string)
    requires Delimited(rest)
    ensures ReadMember(PrintMember(m) + rest)
         == if Printable(m.key) && PrintableValue(m.value) then Some((m, rest)) else None
    decreases m
  {
    var tail := ":" + (Print(m.value) + rest);
    assert PrintMember(m) + rest == JsonString(m.key) + tail;
    StringRoundTrip(m.key, tail);
    ValueRoundTrip(m.value, rest);
    ReadMemberStep(m.key, Print(m.value) + rest);
  }

  lemma PrintableMembers(ms: seq<Member>)
    requires ms != []
    ensures PrintableValue(Obj(ms))
       <==> Printable(ms[0].key) && PrintableValue(ms[0].value) && PrintableValue(Obj(ms[1..]))
  {
    assert ms == [ms[0]] + ms[1..];
  }

  lemma MembersTailDelimited(ms: seq<Member>, rest: string)
    ensures var t := PrintMoreMembers(ms) + "}" + rest; t != "" && !IsDigit(t[0]) && !IsSpace(t[0])
  {
  }

  lemma ReadObjectStep(t: string, m: Member, tail: string, ms: seq<Member>, rest: string)
    requires t != "" && t[0] == '{' && |t| > 1 && t[1] == '"'
    requires ReadMember(t[1..]) == Some((m, tail)) && ReadMoreMembers(tail) == Some((ms, rest))
    ensures ReadValue(t) == Some((Obj([m] + ms), rest))
  {
    assert SkipSpace(t) == t && SkipSpace(t[1..]) == t[1..];
  }

  lemma ReadObjectFails(t: string)
    requires t != "" && t[0] == '{' && |t| > 1 && t[1] == '"'
    requires ReadMember(t[1..]).None? || ReadMoreMembers(ReadMember(t[1..]).value.1).None?
    ensures ReadValue(t).None?
  {
    assert SkipSpace(t) == t && SkipSpace(t[1..]) == t[1..];
  }

  lemma ObjectText(ms: seq<Member>, rest: string)
    requires ms != []
    ensures var t := Print(Obj(ms)) + rest;
            && |t| > 1 && t[0] == '{' && t[1] == '"'
            && t[1..] == PrintMember(ms[0]) + (PrintMoreMembers(ms[1..]) + "}" + rest)
  {
    var t := Print(Obj(ms)) + rest;
    assert t[1..] == PrintMember(ms[0]) + (PrintMoreMembers(ms[1..]) + "}" + rest);
    assert t[1] == t[1..][0] == PrintMember(ms[0])[0];
  }

  lemma {:induction false} ObjectRoundTrip(ms: seq<Member>, rest: string)
    requires Delimited(rest)
    ensures ReadValue(Print(Obj(ms)) + rest) == if PrintableValue(Obj(ms)) then Some((Obj(ms), rest)) else None
    decreases ms
  {
    if ms == [] {
      EmptyRoundTrip(rest);
      assert Print(Obj(ms)) == "{}";
    } else {
      var m, tail := ms[0], PrintMoreMembers(ms[1..]) + "}" + rest;
      PrintableMembers(ms);
      MembersTailDelimited(ms[1..], rest);
      MemberRoundTrip(m, tail);
      MoreMembersRoundTrip(ms[1..], rest);
      ObjectText(ms, rest);
      if PrintableValue(Obj(ms)) {
        ReadObjectStep(Print(Obj(ms)) + rest, m, tail, ms[1..], rest);
        assert [m] + ms[1..] == ms;
      } else {
        ReadObjectFails(Print(Obj(ms)) + rest);
      }
    }
  }

  lemma ReadMembersStep(t: string, m: Member, tail: string, ms: seq<Member>, rest: string)
    requires t != "" && t[0] == ','
    requires ReadMember(t[1..]) == Some((m, tail)) && ReadMoreMembers(tail) == Some((ms, rest))
    ensures ReadMoreMembers(t) == Some(([m] + ms, rest))
  {
    assert SkipSpace(t) == t;
  }

  lemma ReadMembersFails(t: string)
    requires t != "" && t[0] == ','
    requires ReadMember(t[1..]).None? || ReadMoreMembers(ReadMember(t[1..]).value.1).None?
    ensures ReadMoreMembers(t).None?
  {
    assert SkipSpace(t) == t;
  }

  lemma MoreMembersText(ms: seq<Member>, rest: string)
    requires ms != []
    ensures var t := PrintMoreMembers(ms) + "}" + rest;
            t[0] == ',' && t[1..] == PrintMember(ms[0]) + (PrintMoreMembers(ms[1..]) + "}" + rest)
  {
  }

  lemma {:induction false} MoreMembersRoundTrip(ms: seq<Member>, rest: string)
    requires Delimited(rest)
    ensures ReadMoreMembers(PrintMoreMembers(ms) + "}" + rest) == if PrintableValue(Obj(ms)) then Some((ms, rest)) else None
    decreases ms
  {
    var t := PrintMoreMembers(ms) + "}" + rest;
    if ms == [] {
      assert t[1..] == rest;
    } else {
      var m, tail := ms[0], PrintMoreMembers(ms[1..]) + "}" + rest;
      PrintableMembers(ms);
      MembersTailDelimited(ms[1..], rest);
      MemberRoundTrip(m, tail);
      MoreMembersRoundTrip(ms[1..], rest);
      MoreMembersText(ms, rest);
      if PrintableValue(Obj(ms)) {
        ReadMembersStep(t, m, tail, ms[1..], rest);
        assert [m] + ms[1..] == ms;
      } else {
        ReadMembersFails(t);
      }
    }
  }

  /** Reading back a printed value returns it, provided all its strings are printable; otherwise the text is rejected. */
  lemma TextRoundTrip(v: Value)
    ensures ReadText(Print(v)) == if PrintableValue(v) then Some(v) else None
  {
    ValueRoundTrip(v, "");
    assert Print(v) + "" == Print(v);
  }
}
