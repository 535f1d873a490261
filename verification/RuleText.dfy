/** GET of a rule followed by PUT of the very text that GET returned (api_route.c). */
module RuleText {
  import opened Core
  import opened Registry
  import opened Text
  import opened JsonField
  import Json

  function LevelStr(level: Level): string {
    match level
    case Error => "ERROR"
    case Warning => "WARNING"
    case Notice => "NOTICE"
  }

  function BoolStr(b: bool): string {
    if b then "true" else "false"
  }

  /** A key literal as the handlers write it: quotes and colon included. */
  function Key(k: string): string {
    "\"" + k + "\":"
  }

  function Nullable(s: Option<string>): string {
    match s
    case None => "null"
    case Some(t) => Json.JsonString(t)
  }

  /** The reply body around the payload `data`. */
  function Envelope(status: nat, errCode: Option<string>, errMsg: Option<string>, data: Option<string>): string {
    "{" + Key("code") + Json.Digits(status) + "," + Key("error_code") + Nullable(errCode)
    + "," + Key("error_message") + Nullable(errMsg)
    + "," + Key("data") + (if data.None? then "{}" else data.value) + "}"
  }

  /** A string field and the comma behind it. */
  function StringField(k: string, s: string): string {
    Key(k) + Json.JsonString(s) + ","
  }

  function RuleData(id: string, name: string, c: RuleConfig): string {
    "{" + StringField("id", id) + StringField("name", name) + StringField("level", LevelStr(c.level))
    + (Key("enabled") + BoolStr(c.enabled) + "}")
  }

  /** The text of a successful GET of one rule. */
  function GetText(id: string, name: string, c: RuleConfig): string {
    Envelope(200, None, None, Some(RuleData(id, name, c)))
  }

  // ---- what PUT does with a body -------------------------------------------------------

  function ParseLevel(s: string): Option<Level> {
    if CaseEqual(s, "ERROR") then Some(Error)
    else if CaseEqual(s, "WARNING") then Some(Warning)
    else if CaseEqual(s, "NOTICE") then Some(Notice)
    else None
  }

  /** The three words, in any case, and nothing else. */
  lemma LevelWords(s: string)
    ensures ParseLevel(s) == Some(Error) <==> CaseEqual(s, "ERROR")
    ensures ParseLevel(s) == Some(Warning) <==> CaseEqual(s, "WARNING")
    ensures ParseLevel(s) == Some(Notice) <==> CaseEqual(s, "NOTICE")
  {
  }

  predicate ParseBool(s: string) {
    CaseEqual(s, "true") || s == "1"
  }

  /** The new configuration, or None for a body that is refused. */
  function PutConfig(c: RuleConfig, body: string): Option<RuleConfig> {
    var e, l := Field(body, "enabled"), Field(body, "level");
    if e.None? && l.None? then None
    else
      var enabled := if e.None? then c.enabled else ParseBool(e.value);
      if l.None? then Some(RuleConfig(enabled, c.level))
      else match ParseLevel(l.value)
        case None => None
        case Some(level) => Some(RuleConfig(enabled, level))
  }

  // ---- texts as segments ------------------------------------------------------------------

  /** Appending a key and a bare value adds two segments; `u` is the second one. */
  lemma AddBare(t: string, xs: seq<string>, k: string, v: string, w: string, u: string)
    returns (t': string, ys: seq<string>)
    requires xs != [] && t == Join(xs) && QuoteFree(k) && u == ":" + v + w
    ensures t' == t + Key(k) + v + w && ys == xs + [k, u] && t' == Join(ys)
  {
    t', ys := t + Key(k) + v + w, xs + [k, u];
    JoinQuoted(xs, k, u);
    SplitQuoteFree(k);
    assert xs + [k] + [u] == ys;
    assert Key(k) + v + w == "\"" + k + "\"" + u;
  }

  /** Appending a key and a string adds the key, a colon, the parts of the escaped string and what follows it. */
  lemma AddString(t: string, xs: seq<string>, k: string, s: string, after: string) returns (t': string, ys: seq<string>)
    requires xs != [] && t == Join(xs) && QuoteFree(k)
    ensures t' == t + (Key(k) + Json.JsonString(s) + after)
    ensures ys == xs + [k, ":"] + Split(Json.Escape(s)) + [after] && t' == Join(ys)
  {
    var e := Json.Escape(s);
    t', ys := t + (Key(k) + Json.JsonString(s) + after), xs + [k, ":"] + Split(e) + [after];
    JoinQuoted(xs, k, ":");
    SplitQuoteFree(k);
    assert xs + [k] + [":"] == xs + [k, ":"];
    JoinQuoted(xs + [k, ":"], e, after);
    assert Key(k) == "\"" + k + "\"" + ":";
    assert Key(k) + Json.JsonString(s) + after == Key(k) + ("\"" + e + "\"" + after);
    assert t + (Key(k) + ("\"" + e + "\"" + after)) == t + Key(k) + ("\"" + e + "\"" + after);
  }

  // ---- escaping and quotes ------------------------------------------------------------------

  predicate PlainChar(c: char) {
    c != '"' && c != '\\' && c != '\n' && c != '\r' && c != '\t'
  }

  predicate Plain(s: string) {
    forall i :: 0 <= i < |s| ==> PlainChar(s[i])
  }

  lemma {:induction false} EscapePlain(s: string)
    requires Plain(s)
    ensures Json.Escape(s) == s
  {
    if s != "" {
      EscapePlain(s[1..]);
      assert s == [s[0]] + s[1..];
    }
  }

  /** An escaped text without a backslash is the text itself. */
  lemma {:induction false} EscapeWithoutBackslash(s: string)
    requires '\\' !in Json.Escape(s)
    ensures Json.Escape(s) == s
  {
    if s != "" {
      var e := Json.EscapeChar(s[0]);
      assert Json.Escape(s) == e + Json.Escape(s[1..]);
      assert e[0] in Json.Escape(s);
      assert forall c :: c in Json.Escape(s[1..]) ==> c in Json.Escape(s);
      EscapeWithoutBackslash(s[1..]);
      assert s == [s[0]] + s[1..];
    }
  }

  /** Escaping neither creates nor hides a plain word. */
  lemma EscapedKey(s: string, key: string)
    requires Plain(key)
    ensures Json.Escape(s) == key <==> s == key
  {
    EscapePlain(key);
    if Json.Escape(s) == key {
      EscapeWithoutBackslash(s);
    }
  }

  /** The part of a text behind its last quote. */
  function LastPart(s: string): string {
    LastOf(Split(s))
  }

  /** The part of the escaped text in front of its first quote. */
  function Head(s: string): string {
    Split(Json.Escape(s))[0]
  }

  predicate EndsInBackslash(s: string) {
    s != "" && s[|s| - 1] == '\\'
  }

  lemma {:induction false} SplitPrefix(a: string, b: string)
    requires QuoteFree(a)
    ensures Split(a + b) == [a + Split(b)[0]] + Split(b)[1..]
  {
    if a == "" {
      assert a + b == b && a + Split(b)[0] == Split(b)[0];
    } else {
      assert (a + b)[1..] == a[1..] + b;
      SplitPrefix(a[1..], b);
      assert [a[0]] + (a[1..] + Split(b)[0]) == a + Split(b)[0];
    }
  }

  /** `e` is `p` escaped part by part, with a backslash in front of every quote. */
  ghost predicate PartsEscaped(e: seq<string>, p: seq<string>) {
    && e != [] && |e| == |p| && LastOf(e) == Json.Escape(LastOf(p))
    && forall i :: 0 <= i < |e| - 1 ==> EndsInBackslash(e[i])
  }

  lemma QuoteInFront(e: seq<string>, p: seq<string>)
    requires PartsEscaped(e, p)
    ensures PartsEscaped(["\\"] + e, [""] + p)
  {
  }

  lemma CharInFront(c: char, e: seq<string>, p: seq<string>)
    requires PartsEscaped(e, p)
    ensures PartsEscaped([Json.EscapeChar(c) + e[0]] + e[1..], [[c] + p[0]] + p[1..])
  {
    EscapeCons(c, p[0]);
  }

  lemma SplitEscapedQuote(rest: string)
    ensures Split("\\\"" + rest) == ["\\"] + Split(rest)
  {
    var t := "\"" + rest;
    SplitPrefix("\\", t);
    assert t[1..] == rest && "\\\"" + rest == "\\" + t;
    assert Split(t) == [""] + Split(rest);
    assert "\\" + "" == "\\";
  }

  /** Escaping keeps the last part apart; every other part gets a backslash in front of its quote. */
  lemma {:induction false} SplitEscape(s: string)
    ensures PartsEscaped(Split(Json.Escape(s)), Split(s))
  {
    if s != "" {
      var e, p := Split(Json.Escape(s[1..])), Split(s[1..]);
      SplitEscape(s[1..]);
      if s[0] == '"' {
        QuoteInFront(e, p);
        SplitEscapedQuote(Json.Escape(s[1..]));
      } else {
        CharInFront(s[0], e, p);
        SplitPrefix(Json.EscapeChar(s[0]), Json.Escape(s[1..]));
      }
    }
  }

  lemma EscapeCons(c: char, s: string)
    ensures Json.Escape([c] + s) == Json.EscapeChar(c) + Json.Escape(s)
  {
    assert ([c] + s)[1..] == s;
  }

  /** A key word is among the parts of an escaped text exactly when the text ends in a quote and that word, or is it. */
  lemma KeyAmongParts(s: string, key: string)
    requires Plain(key)
    ensures var e := Split(Json.Escape(s));
            && (LastOf(e) == key <==> LastPart(s) == key)
            && forall i :: 0 <= i < |e| - 1 ==> e[i] != key
  {
    SplitEscape(s);
    EscapedKey(LastPart(s), key);
    var e := Split(Json.Escape(s));
    forall i | 0 <= i < |e| - 1
      ensures e[i] != key
    {
      assert EndsInBackslash(e[i]);
    }
  }

  // ---- the GET text ------------------------------------------------------------------------------

  const FRONT: seq<string> := ["{", "code", ":200,", "error_code", ":null,", "error_message", ":null,", "data", ":{"]

  /** The GET text cut at its quotes. */
  function Segments(ids: seq<string>, names: seq<string>, level: string, last: string): seq<string> {
    FRONT + ["id", ":"] + ids + [","] + ["name", ":"] + names + [","] + ["level", ":"] + [level] + [","] + ["enabled", last]
  }

  lemma FrontIsJoined() returns (t: string, xs: seq<string>)
    ensures t == FrontText() + "" + "{"
    ensures xs == FRONT && t == Join(xs)
  {
    var status := Json.Digits(200);
    assert status == "200" by {
      assert Json.Digits(20) == Json.Digits(2) + ['0'];
    }
    t, xs := AddBare("{", ["{"], "code", status, ",", ":200,");
    t, xs := AddBare(t, xs, "error_code", "null", ",", ":null,");
    t, xs := AddBare(t, xs, "error_message", "null", ",", ":null,");
    t, xs := AddBare(t, xs, "data", "", "{", ":{");
  }

  lemma StringsAreJoined(t: string, xs: seq<string>, id: string, name: string, level: string)
    returns (t': string, ys: seq<string>)
    requires xs != [] && t == Join(xs)
    ensures t' == t + StringField("id", id) + StringField("name", name) + StringField("level", level)
    ensures ys != [] && ys == xs + ["id", ":"] + Split(Json.Escape(id)) + [","] + ["name", ":"] + Split(Json.Escape(name)) + [","]
                  + ["level", ":"] + Split(Json.Escape(level)) + [","]
    ensures t' == Join(ys)
  {
    t', ys := AddString(t, xs, "id", id, ",");
    t', ys := AddString(t', ys, "name", name, ",");
    t', ys := AddString(t', ys, "level", level, ",");
  }

  lemma TextGroups(p: string, a: string, b: string, c: string, d: string, e: string)
    ensures p + "" + "{" + a + b + c + d + e + "}}" == p + ("{" + a + b + c + (d + e + "}")) + "}"
  {
    assert p + "" == p;
    var x := "{" + a + b + c;
    assert p + "{" + a + b + c == p + x;
    assert x + (d + e + "}") == x + d + e + "}";
    assert p + (x + d + e + "}") + "}" == p + x + d + e + "}}";
  }

  /** The text in front of the payload's first field. */
  function FrontText(): string {
    "{" + Key("code") + Json.Digits(200) + "," + Key("error_code") + "null" + "," + Key("error_message") + "null" + ","
    + Key("data")
  }

  lemma GetTextGroups(id: string, name: string, l: string, c: RuleConfig)
    requires l == LevelStr(c.level)
    ensures GetText(id, name, c)
         == FrontText() + "" + "{" + StringField("id", id) + StringField("name", name) + StringField("level", l)
            + Key("enabled") + BoolStr(c.enabled) + "}}"
  {
    TextGroups(FrontText(), StringField("id", id), StringField("name", name), StringField("level", l), Key("enabled"),
               BoolStr(c.enabled));
  }

  lemma LastIsJoined(u: string, ys: seq<string>, b: string) returns (t: string)
    requires ys != [] && u == Join(ys)
    ensures t == u + Key("enabled") + b + "}}" && t == Join(ys + ["enabled", ":" + b + "}}"])
  {
    var zs;
    t, zs := AddBare(u, ys, "enabled", b, "}}", ":" + b + "}}");
  }

  lemma SegmentsEnd(ys: seq<string>, ids: seq<string>, names: seq<string>, level: string, last: string)
    requires ys == FRONT + ["id", ":"] + ids + [","] + ["name", ":"] + names + [","] + ["level", ":"] + [level] + [","]
    ensures ys + ["enabled", last] == Segments(ids, names, level, last)
  {
  }

  lemma JoinedText(id: string, name: string, l: string, b: string) returns (t: string)
    requires Plain(l)
    ensures t == FrontText() + "" + "{" + StringField("id", id) + StringField("name", name) + StringField("level", l)
                 + Key("enabled") + b + "}}"
    ensures t == Join(Segments(Split(Json.Escape(id)), Split(Json.Escape(name)), l, ":" + b + "}}"))
  {
    EscapePlain(l);
    SplitQuoteFree(l);
    var front, xs := FrontIsJoined();
    var u, ys := StringsAreJoined(front, xs, id, name, l);
    t := LastIsJoined(u, ys, b);
    SegmentsEnd(ys, Split(Json.Escape(id)), Split(Json.Escape(name)), l, ":" + b + "}}");
  }

  lemma GetTextIsJoined(id: string, name: string, c: RuleConfig)
    ensures GetText(id, name, c)
         == Join(Segments(Split(Json.Escape(id)), Split(Json.Escape(name)), LevelStr(c.level), ":" + BoolStr(c.enabled) + "}}"))
  {
    GetTextGroups(id, name, LevelStr(c.level), c);
    var t := JoinedText(id, name, LevelStr(c.level), BoolStr(c.enabled));
  }

  // ---- where the scanner finds the two keys ------------------------------------------------------

  /** The layout of the GET text around its four variable parts. */
  ghost predicate Laid(segs: seq<string>, ids: seq<string>, names: seq<string>, level: string, last: string) {
    var a := 11 + |ids|;
    var b := a + 3 + |names|;
    && |segs| == b + 7
    && segs[0] == "{" && segs[1] == "code" && segs[2] == ":200," && segs[3] == "error_code" && segs[4] == ":null,"
    && segs[5] == "error_message" && segs[6] == ":null," && segs[7] == "data" && segs[8] == ":{"
    && segs[9] == "id" && segs[10] == ":" && segs[11..a] == ids
    && segs[a] == "," && segs[a + 1] == "name" && segs[a + 2] == ":" && segs[a + 3..b] == names
    && segs[b] == "," && segs[b + 1] == "level" && segs[b + 2] == ":" && segs[b + 3] == level
    && segs[b + 4] == "," && segs[b + 5] == "enabled" && segs[b + 6] == last
  }

  lemma SegmentsAreLaid(ids: seq<string>, names: seq<string>, level: string, last: string)
    ensures Laid(Segments(ids, names, level, last), ids, names, level, last)
  {
  }

  lemma LaidIsQuoteFree(segs: seq<string>, ids: seq<string>, names: seq<string>, level: string, last: string)
    requires Laid(segs, ids, names, level, last)
    requires AllQuoteFree(ids) && AllQuoteFree(names) && QuoteFree(level) && QuoteFree(last)
    ensures AllQuoteFree(segs)
  {
    var a := 11 + |ids|;
    var b := a + 3 + |names|;
    forall i | 0 <= i < |segs|
      ensures QuoteFree(segs[i])
    {
      if 11 <= i < a {
        assert segs[i] == segs[11..a][i - 11];
      } else if a + 3 <= i < b {
        assert segs[i] == segs[a + 3..b][i - a - 3];
      }
    }
  }

  /** The key does not occur before position `n`. */
  ghost predicate NotBefore(segs: seq<string>, key: string, n: nat)
    requires n <= |segs|
  {
    forall i :: 1 <= i < n ==> segs[i] != key
  }

  predicate OnlyLast(parts: seq<string>, key: string) {
    forall i :: 0 <= i < |parts| - 1 ==> parts[i] != key
  }

  lemma BeforeIds(segs: seq<string>, ids: seq<string>, names: seq<string>, level: string, last: string, key: string)
    requires Laid(segs, ids, names, level, last) && ids != [] && OnlyLast(ids, key)
    requires key == "enabled" || key == "level"
    ensures NotBefore(segs, key, 10 + |ids|) && segs[10 + |ids|] == LastOf(ids)
  {
    forall i | 11 <= i <= 10 + |ids|
      ensures segs[i] == ids[i - 11]
    {
      assert segs[i] == segs[11..11 + |ids|][i - 11];
    }
  }

  lemma BeforeNames(segs: seq<string>, ids: seq<string>, names: seq<string>, level: string, last: string, key: string)
    requires Laid(segs, ids, names, level, last) && ids != [] && names != []
    requires OnlyLast(ids, key) && OnlyLast(names, key) && LastOf(ids) != key
    requires key == "enabled" || key == "level"
    ensures var n := 13 + |ids| + |names|; NotBefore(segs, key, n) && segs[n] == LastOf(names)
    ensures segs[14 + |ids|] == names[0]
  {
    BeforeIds(segs, ids, names, level, last, key);
    var a := 11 + |ids|;
    forall i | a + 3 <= i <= a + 2 + |names|
      ensures segs[i] == names[i - a - 3]
    {
      assert segs[i] == segs[a + 3..a + 3 + |names|][i - a - 3];
    }
    assert segs[a - 1] == LastOf(ids);
  }

  lemma FirstName(segs: seq<string>, ids: seq<string>, names: seq<string>, level: string, last: string)
    requires Laid(segs, ids, names, level, last) && names != []
    ensures segs[14 + |ids|] == names[0]
  {
    var a := 11 + |ids|;
    assert segs[a + 3] == segs[a + 3..a + 3 + |names|][0];
  }

  lemma EnabledIn(segs: seq<string>, ids: seq<string>, names: seq<string>, level: string, enabled: string)
    requires Laid(segs, ids, names, level, ":" + enabled + "}}") && AllQuoteFree(segs) && ids != [] && names != []
    requires OnlyLast(ids, "enabled") && OnlyLast(names, "enabled")
    requires (enabled == "true" || enabled == "false") && level != "enabled"
    ensures Field(Join(segs), "enabled")
         == Some(if LastOf(ids) == "enabled" then names[0] else if LastOf(names) == "enabled" then level else enabled)
  {
    var last := ":" + enabled + "}}";
    var a := 11 + |ids|;
    var b := a + 3 + |names|;
    if LastOf(ids) == "enabled" {
      BeforeIds(segs, ids, names, level, last, "enabled");
      FirstName(segs, ids, names, level, last);
      QuotedField(segs, "enabled", a - 1, a + 2);
    } else {
      BeforeNames(segs, ids, names, level, last, "enabled");
      if LastOf(names) == "enabled" {
        QuotedField(segs, "enabled", b - 1, b + 2);
      } else {
        assert segs[b - 1] == LastOf(names) && NotBefore(segs, "enabled", b + 5);
        assert segs[b + 6..] == [last];
        assert last == [':'] + (enabled + "}}");
        BareField(segs, "enabled", b + 5, enabled, "}}");
      }
    }
  }

  lemma LevelIn(segs: seq<string>, ids: seq<string>, names: seq<string>, level: string, last: string)
    requires Laid(segs, ids, names, level, last) && AllQuoteFree(segs) && ids != [] && names != []
    requires OnlyLast(ids, "level") && OnlyLast(names, "level")
    ensures Field(Join(segs), "level") == Some(if LastOf(ids) == "level" then names[0] else level)
  {
    var a := 11 + |ids|;
    var b := a + 3 + |names|;
    if LastOf(ids) == "level" {
      BeforeIds(segs, ids, names, level, last, "level");
      FirstName(segs, ids, names, level, last);
      QuotedField(segs, "level", a - 1, a + 2);
    } else {
      BeforeNames(segs, ids, names, level, last, "level");
      if LastOf(names) == "level" {
        QuotedField(segs, "level", b - 1, b + 2);
      } else {
        assert segs[b - 1] == LastOf(names) && NotBefore(segs, "level", b + 1);
        QuotedField(segs, "level", b + 1, b + 2);
      }
    }
  }

  /** What the scanner finds for `enabled` in the GET text. */
  function EnabledSeen(id: string, name: string, c: RuleConfig): string {
    if LastPart(id) == "enabled" then Head(name)
    else if LastPart(name) == "enabled" then LevelStr(c.level)
    else BoolStr(c.enabled)
  }

  /** What the scanner finds for `level` in the GET text. */
  function LevelSeen(id: string, name: string, c: RuleConfig): string {
    if LastPart(id) == "level" then Head(name) else LevelStr(c.level)
  }

  lemma Layout(id: string, name: string, c: RuleConfig)
    returns (text: string, segs: seq<string>, ids: seq<string>, names: seq<string>)
    ensures ids == Split(Json.Escape(id)) && names == Split(Json.Escape(name))
    ensures segs != [] && AllQuoteFree(segs) && text == GetText(id, name, c) == Join(segs)
    ensures Laid(segs, ids, names, LevelStr(c.level), ":" + BoolStr(c.enabled) + "}}")
  {
    text, ids, names := GetText(id, name, c), Split(Json.Escape(id)), Split(Json.Escape(name));
    var last := ":" + BoolStr(c.enabled) + "}}";
    segs := Segments(ids, names, LevelStr(c.level), last);
    SplitIsInverse(Json.Escape(id));
    SplitIsInverse(Json.Escape(name));
    SegmentsAreLaid(ids, names, LevelStr(c.level), last);
    LaidIsQuoteFree(segs, ids, names, LevelStr(c.level), last);
    GetTextIsJoined(id, name, c);
  }

  lemma ScansEnabled(id: string, name: string, c: RuleConfig)
    ensures Field(GetText(id, name, c), "enabled") == Some(EnabledSeen(id, name, c))
  {
    var text, segs, ids, names := Layout(id, name, c);
    KeyAmongParts(id, "enabled");
    KeyAmongParts(name, "enabled");
    EnabledIn(segs, ids, names, LevelStr(c.level), BoolStr(c.enabled));
  }

  lemma ScansLevel(id: string, name: string, c: RuleConfig)
    ensures Field(GetText(id, name, c), "level") == Some(LevelSeen(id, name, c))
  {
    var text, segs, ids, names := Layout(id, name, c);
    KeyAmongParts(id, "level");
    KeyAmongParts(name, "level");
    LevelIn(segs, ids, names, LevelStr(c.level), ":" + BoolStr(c.enabled) + "}}");
  }

  // ---- GET, then PUT of the same text ---------------------------------------------------------------

  /** What PUT makes of a GET text that was taken when the configuration was `saved`. */
  function Understood(id: string, name: string, saved: RuleConfig): Option<RuleConfig> {
    match ParseLevel(LevelSeen(id, name, saved))
    case None => None
    case Some(level) => Some(RuleConfig(ParseBool(EnabledSeen(id, name, saved)), level))
  }

  /** The configuration at the time of PUT plays no part: both fields are found. */
  lemma PutOfGet(id: string, name: string, now: RuleConfig, saved: RuleConfig)
    ensures PutConfig(now, GetText(id, name, saved)) == Understood(id, name, saved)
  {
    ScansEnabled(id, name, saved);
    ScansLevel(id, name, saved);
  }

  lemma LevelsParse(level: Level)
    ensures ParseLevel(LevelStr(level)) == Some(level) && !ParseBool(LevelStr(level))
  {
    assert CaseEqual(LevelStr(level), LevelStr(level));
  }

  lemma BoolsParse(b: bool)
    ensures ParseBool(BoolStr(b)) == b
  {
    assert CaseEqual("true", "true");
  }

  /** Neither the rule nor its description ends, behind its last quote, in a word that is mistaken for a key. */
  predicate KeysAreSafe(id: string, name: string) {
    LastPart(id) != "enabled" && LastPart(id) != "level" && LastPart(name) != "enabled"
  }

  lemma SafeKeysAreUnderstood(id: string, name: string, saved: RuleConfig)
    requires KeysAreSafe(id, name)
    ensures Understood(id, name, saved) == Some(saved)
  {
    LevelsParse(saved.level);
    BoolsParse(saved.enabled);
  }

  lemma UnsafeKeysAreNot(id: string, name: string) returns (c: RuleConfig)
    requires !KeysAreSafe(id, name)
    ensures Understood(id, name, c) != Some(c)
  {
    var e := Head(name);
    c := if LastPart(id) == "enabled" then RuleConfig(!ParseBool(e), Error)
         else if LastPart(name) == "enabled" then RuleConfig(true, Error)
         else RuleConfig(true, if ParseLevel(e) == Some(Error) then Notice else Error);
    LevelsParse(c.level);
  }

  /** PUT of the GET text is accepted and changes nothing. */
  ghost predicate RoundTrips(id: string, name: string) {
    forall c :: PutConfig(c, GetText(id, name, c)) == Some(c)
  }

  /** PUT of an old GET text is accepted and brings the old configuration back. */
  ghost predicate Restores(id: string, name: string) {
    forall now, saved :: PutConfig(now, GetText(id, name, saved)) == Some(saved)
  }

  lemma RoundTripFails(id: string, name: string)
    requires !KeysAreSafe(id, name)
    ensures !RoundTrips(id, name)
  {
    var c := UnsafeKeysAreNot(id, name);
    PutOfGet(id, name, c, c);
  }

  lemma RestoreWorks(id: string, name: string)
    requires KeysAreSafe(id, name)
    ensures Restores(id, name)
  {
    forall now, saved
      ensures PutConfig(now, GetText(id, name, saved)) == Some(saved)
    {
      PutOfGet(id, name, now, saved);
      SafeKeysAreUnderstood(id, name, saved);
    }
  }

  /**
   * For every id and every description, quotes included: the round trip works for every configuration,
   * and old texts restore theirs, exactly when the id does not end, behind its last quote, in `enabled` or
   * `level`, nor the description in `enabled`. A description that ends in `level` is harmless: the scanner
   * then stops at the description, but the next colon belongs to the real key.
   */
  lemma GetThenPutIsIdentityIff(id: string, name: string)
    ensures RoundTrips(id, name) <==> KeysAreSafe(id, name)
    ensures Restores(id, name) <==> KeysAreSafe(id, name)
  {
    if KeysAreSafe(id, name) {
      RestoreWorks(id, name);
    } else {
      RoundTripFails(id, name);
    }
  }

  /** Without quotes the last part is the whole text. */
  lemma PlainKeysAreSafeIff(id: string, name: string)
    requires QuoteFree(id) && QuoteFree(name)
    ensures KeysAreSafe(id, name) <==> id != "enabled" && id != "level" && name != "enabled"
  {
    SplitQuoteFree(id);
    SplitQuoteFree(name);
  }

  // ---- a body that a JSON client writes ----------------------------------------------------------------

  function ClientBody(enabled: bool, level: string): string {
    "{" + Key("enabled") + BoolStr(enabled) + "," + (Key("level") + Json.JsonString(level) + "}")
  }

  predicate Word(w: string) {
    w != "" && forall i :: 0 <= i < |w| ==> 'A' <= w[i] <= 'Z'
  }

  /** What the scanner cuts out of an escaped string is a given word exactly when the string is. */
  lemma HeadIsWordIff(s: string, w: string)
    requires Word(w)
    ensures CaseEqual(Head(s), w) <==> CaseEqual(s, w)
  {
    var e := Json.Escape(s);
    SplitIsInverse(s);
    SplitEscape(s);
    if |Split(e)| > 1 {
      assert EndsInBackslash(Head(s)) && Lower('\\') == '\\';
      assert '"' in s by {
        if QuoteFree(s) { SplitQuoteFree(s); }
      }
      assert Lower('"') == '"';
    } else {
      assert Split(s) == [s] && Head(s) == LastOf(Split(e)) == e;
      if CaseEqual(e, w) {
        assert forall c :: c in e ==> c != '\\' by {
          forall i | 0 <= i < |e| ensures e[i] != '\\' {
            assert Lower(e[i]) == Lower(w[i]);
          }
        }
        EscapeWithoutBackslash(s);
      }
      if CaseEqual(s, w) {
        forall i | 0 <= i < |s| ensures PlainChar(s[i]) {
          assert Lower(s[i]) == Lower(w[i]);
        }
        EscapePlain(s);
      }
    }
  }

  lemma HeadParsesAlike(s: string)
    ensures ParseLevel(Head(s)) == ParseLevel(s)
  {
    HeadIsWordIff(s, "ERROR");
    HeadIsWordIff(s, "WARNING");
    HeadIsWordIff(s, "NOTICE");
  }

  lemma ClientSegments(enabled: bool, level: string) returns (segs: seq<string>)
    ensures segs == ["{", "enabled", ":" + BoolStr(enabled) + ",", "level", ":"] + Split(Json.Escape(level)) + ["}"]
    ensures ClientBody(enabled, level) == Join(segs) && AllQuoteFree(segs)
  {
    var b := BoolStr(enabled);
    var t, xs := AddBare("{", ["{"], "enabled", b, ",", ":" + b + ",");
    var u, ys := AddString(t, xs, "level", level, "}");
    SplitIsInverse(Json.Escape(level));
    segs := ys;
    assert xs + ["level", ":"] == ["{", "enabled", ":" + b + ",", "level", ":"];
    assert AllQuoteFree(xs + ["level", ":"]);
  }

  lemma ClientLevel(enabled: bool, level: string)
    ensures Field(ClientBody(enabled, level), "level") == Some(Head(level))
  {
    var segs := ClientSegments(enabled, level);
    assert segs[5] == Head(level);
    QuotedField(segs, "level", 3, 4);
  }

  lemma BehindSwitch(segs: seq<string>, b: string) returns (rest: string)
    requires |segs| > 3 && segs[2] == ":" + b + ","
    ensures Join(segs[2..]) == [':'] + (b + rest) && rest != "" && rest[0] == ','
  {
    rest := ",\"" + Join(segs[3..]);
    assert segs[2..] == [segs[2]] + segs[3..];
    JoinCons(segs[2], segs[3..]);
    assert ":" + b + "," + "\"" + Join(segs[3..]) == [':'] + (b + rest);
  }

  lemma ClientSwitch(enabled: bool, level: string)
    ensures Field(ClientBody(enabled, level), "enabled") == Some(BoolStr(enabled))
  {
    var segs := ClientSegments(enabled, level);
    var rest := BehindSwitch(segs, BoolStr(enabled));
    BareField(segs, "enabled", 1, BoolStr(enabled), rest);
  }

  /**
   * PUT of the JSON text of a switch and any string for the level: the switch and the level are taken when
   * the string is one of the three levels, ignoring case; otherwise the whole body is refused.
   */
  lemma PutOfClientBody(now: RuleConfig, enabled: bool, level: string)
    ensures PutConfig(now, ClientBody(enabled, level))
         == match ParseLevel(level) case None => None case Some(l) => Some(RuleConfig(enabled, l))
  {
    ClientLevel(enabled, level);
    ClientSwitch(enabled, level);
    HeadParsesAlike(level);
    BoolsParse(enabled);
  }
}
