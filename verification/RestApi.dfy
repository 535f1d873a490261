/** Routing and the handlers that read or change the rule configuration (api_route.c). */
module RestApi {
  import opened Core
  import opened Registry
  import opened RecordBuffer
  import opened Text
  import opened RuleText
  import JsonField
  import Json

  // ---- building texts ---------------------------------------------------------------------

  class StringInfo {
    var data: string

    constructor ()
      ensures data == ""
    {
      data := "";
    }

    method Append(s: string)
      modifies this
      ensures data == old(data) + s
    {
      data := data + s;
    }

    method AppendJsonString(s: string)
      modifies this
      ensures data == old(data) + Json.JsonString(s)
    {
      Append("\"");
      var p := 0;
      while p < |s|
        invariant 0 <= p <= |s|
        invariant old(data) + "\"" + Json.Escape(s) == data + Json.Escape(s[p..])
      {
        assert s[p..][1..] == s[p + 1..];
        match s[p] {
          case '"' => Append("\\\"");
          case '\\' => Append("\\\\");
          case '\n' => Append("\\n");
          case '\r' => Append("\\r");
          case '\t' => Append("\\t");
          case c => Append([c]);
        }
        p := p + 1;
      }
      assert data == old(data) + "\"" + Json.Escape(s);
      Append("\"");
      assert data == old(data) + Json.JsonString(s);
    }

    method AppendField(k: string, s: string)
      modifies this
      ensures data == old(data) + StringField(k, s)
    {
      Append(Key(k));
      AppendJsonString(s);
      Append(",");
      assert data == old(data) + StringField(k, s);
    }
  }

  method Respond(status: nat, errCode: Option<string>, errMsg: Option<string>, payload: Option<string>)
    returns (body: string)
    ensures body == Envelope(status, errCode, errMsg, payload)
  {
    var si := new StringInfo();
    si.Append("{" + Key("code"));
    si.Append(Json.Digits(status));
    si.Append(",");
    si.Append(Key("error_code"));
    if errCode.Some? {
      si.AppendJsonString(errCode.value);
    } else {
      si.Append("null");
    }
    si.Append("," );
    si.Append(Key("error_message"));
    if errMsg.Some? {
      si.AppendJsonString(errMsg.value);
    } else {
      si.Append("null");
    }
    si.Append(",");
    si.Append(Key("data"));
    si.Append(if payload.Some? then payload.value else "{}");
    si.Append("}");
    assert "" + ("{" + Key("code")) == "{" + Key("code");
    body := si.data;
  }

  // ---- requests and replies -------------------------------------------------------------

  /** A request after its first line and body have been separated; an empty body counts as missing. */
  datatype Request = Request(verb: string, path: string, authorized: bool, body: Option<string>)

  /** Health, the rule list and the audit log are answered without modelling their text. */
  datatype Reply = Body(status: nat, text: string) | Health | RuleList | Logs(records: seq<Record>)

  const NO_RULE := "规则不存在"
  const NO_BODY := "缺少请求体"
  const NO_FIELD := "缺少 enabled/level 字段"
  const BAD_LEVEL := "非法级别取值"
  const NO_AUTH := "未认证或认证失败"
  const NO_PREFIX := "接口不存在（需 /api/v1 前缀）"
  const NO_ROUTE := "接口不存在"
  const BAD_METHOD := "方法不允许"

  function Refusal(status: nat, code: string, msg: string): Reply {
    Body(status, Envelope(status, Some(code), Some(msg), None))
  }

  function Done(payload: string): Reply {
    Body(200, Envelope(200, None, None, Some(payload)))
  }

  predicate IsRefusal(r: Reply) {
    r.Body? && (r.status == 400 || r.status == 401 || r.status == 404 || r.status == 405)
  }

  const PREFIX := "/api/v1"
  const RULES := "/rules/"

  /** The path without its query string. */
  function PathOf(req: Request): string {
    match StrChr(req.path, '?')
    case None => req.path
    case Some(i) => req.path[..i]
  }

  datatype Route = HealthRoute | Unauthorized | Outside | ListRoute | RuleRoute(id: string) | LogsRoute | ConfigRoute | Unknown

  function RouteOf(req: Request): Route {
    var p := PathOf(req);
    if p == "/api/v1/health" && req.verb == "GET" then HealthRoute
    else if !req.authorized then Unauthorized
    else if !(PREFIX <= p) then Outside
    else
      var q := p[|PREFIX|..];
      if q == "/rules" && req.verb == "GET" then ListRoute
      else if RULES <= q then RuleRoute(q[|RULES|..])
      else if q == "/audit-logs" && req.verb == "GET" then LogsRoute
      else if q == "/config" then ConfigRoute
      else Unknown
  }

  datatype Outcome = Outcome(rules: Rules, reply: Reply)

  function PutRule(rules: Rules, id: string, body: Option<string>): Outcome {
    var i := Find(rules.defs, id);
    if i < 0 then Outcome(rules, Refusal(404, "RULE_NOT_FOUND", NO_RULE))
    else if body.None? then Outcome(rules, Refusal(400, "BAD_REQUEST", NO_BODY))
    else match PutConfig(ConfigAt(rules, i), body.value)
      case Some(c) => Outcome(SetConfig(rules, i, c), Done("{\"updated\":true}"))
      case None =>
        var empty := JsonField.Field(body.value, "enabled").None? && JsonField.Field(body.value, "level").None?;
        Outcome(rules, Refusal(400, "BAD_REQUEST", if empty then NO_FIELD else BAD_LEVEL))
  }

  function GetRule(rules: Rules, id: string): Reply {
    var i := Find(rules.defs, id);
    if i < 0 then Refusal(404, "RULE_NOT_FOUND", NO_RULE)
    else Done(RuleData(rules.defs[i].id, rules.defs[i].name, ConfigAt(rules, i)))
  }

  /** DELETE switches the rule off and keeps its level; an unknown rule gets the same answer. */
  function DeleteRule(rules: Rules, id: string): Outcome {
    var i := Find(rules.defs, id);
    Outcome(if i < 0 then rules else SetConfig(rules, i, RuleConfig(false, ConfigAt(rules, i).level)),
            Body(204, Envelope(204, None, None, Some("{}"))))
  }

  function OnRule(rules: Rules, id: string, req: Request): Outcome {
    if req.verb == "GET" then Outcome(rules, GetRule(rules, id))
    else if req.verb == "PUT" then PutRule(rules, id, req.body)
    else if req.verb == "DELETE" then DeleteRule(rules, id)
    else Outcome(rules, Refusal(405, "METHOD_NOT_ALLOWED", BAD_METHOD))
  }

  function Api(rules: Rules, enabled: bool, window: seq<Record>, req: Request): Outcome {
    Answer(rules, enabled, window, RouteOf(req), req)
  }

  function Answer(rules: Rules, enabled: bool, window: seq<Record>, route: Route, req: Request): Outcome {
    match route
    case HealthRoute => Outcome(rules, Health)
    case Unauthorized => Outcome(rules, Refusal(401, "UNAUTHORIZED", NO_AUTH))
    case Outside => Outcome(rules, Refusal(404, "NOT_FOUND", NO_PREFIX))
    case ListRoute => Outcome(rules, RuleList)
    case RuleRoute(id) => OnRule(rules, id, req)
    case LogsRoute => Outcome(rules, Logs(window))
    case ConfigRoute =>
      if req.verb == "GET" then Outcome(rules, Done(ConfigData(enabled, Entries(rules))))
      else if req.verb == "PUT" then Outcome(rules, Done("{\"updated\":true}"))
      else Outcome(rules, Refusal(405, "METHOD_NOT_ALLOWED", BAD_METHOD))
    case Unknown => Outcome(rules, Refusal(404, "NOT_FOUND", NO_ROUTE))
  }

  // ---- the configuration export ---------------------------------------------------------

  datatype Entry = Entry(id: string, config: RuleConfig)

  function Entries(rules: Rules): seq<Entry> {
    seq(|rules.defs|, i requires 0 <= i < |rules.defs| => Entry(rules.defs[i].id, ConfigAt(rules, i)))
  }

  function ItemText(e: Entry): string {
    "{" + StringField("id", e.id) + Key("enabled") + BoolStr(e.config.enabled) + ","
    + Key("level") + Json.JsonString(LevelStr(e.config.level)) + "}"
  }

  function MoreItems(es: seq<Entry>): string {
    if es == [] then "" else "," + ItemText(es[0]) + MoreItems(es[1..])
  }

  function ItemsText(es: seq<Entry>): string {
    if es == [] then "" else ItemText(es[0]) + MoreItems(es[1..])
  }

  function ConfigHead(enabled: bool): string {
    "{" + Key("enabled") + BoolStr(enabled) + "," + Key("rules") + "["
  }

  function ConfigData(enabled: bool, es: seq<Entry>): string {
    ConfigHead(enabled) + ItemsText(es) + "]}"
  }

  method AppendItem(si: StringInfo, e: Entry)
    modifies si
    ensures si.data == old(si.data) + ItemText(e)
  {
    var d := new StringInfo();
    d.Append("{");
    d.AppendField("id", e.id);
    d.Append(Key("enabled"));
    d.Append(BoolStr(e.config.enabled));
    d.Append(",");
    d.Append(Key("level"));
    d.AppendJsonString(LevelStr(e.config.level));
    d.Append("}");
    assert "" + "{" == "{";
    si.Append(d.data);
  }

  /** What is still to be printed before item `i`. */
  function Pending(es: seq<Entry>, i: nat): string
    requires i <= |es|
  {
    if i == 0 then ItemsText(es) else MoreItems(es[i..])
  }

  function Separated(first: bool, e: Entry): string {
    if first then ItemText(e) else "," + ItemText(e)
  }

  lemma PendingStep(es: seq<Entry>, i: nat, before: string, item: string)
    requires i < |es| && item == Separated(i == 0, es[i])
    ensures before + item + Pending(es, i + 1) == before + Pending(es, i)
  {
    var rest := Pending(es, i + 1);
    assert es[i..][1..] == es[i + 1..];
    assert Pending(es, i) == item + rest;
    assert before + item + rest == before + (item + rest);
  }

  method AppendSeparated(si: StringInfo, first: bool, e: Entry)
    modifies si
    ensures si.data == old(si.data) + Separated(first, e)
  {
    if !first {
      si.Append(",");
    }
    AppendItem(si, e);
  }

  method AppendRule(si: StringInfo, registry: RuleRegistry, i: nat, ghost es: seq<Entry>)
    requires registry.Valid() && i < |registry.defs| && es == Entries(registry.View())
    modifies si
    ensures si.data + Pending(es, i + 1) == old(si.data) + Pending(es, i)
  {
    var c := registry.RuleConfigAt(i);
    var e := Entry(registry.defs[i].id, c);
    PendingStep(es, i, si.data, Separated(i == 0, e));
    AppendSeparated(si, i == 0, e);
  }

  method AppendItems(si: StringInfo, registry: RuleRegistry)
    requires registry.Valid()
    modifies si
    ensures si.data == old(si.data) + ItemsText(Entries(registry.View()))
  {
    ghost var es := Entries(registry.View());
    var n := |registry.defs|;
    var i := 0;
    while i < n
      invariant 0 <= i <= n == |es| && Entries(registry.View()) == es
      invariant si.data + Pending(es, i) == old(si.data) + Pending(es, 0)
    {
      AppendRule(si, registry, i, es);
      i := i + 1;
    }
    assert Pending(es, n) == "";
  }

  method ConfigGet(registry: RuleRegistry, enabled: bool) returns (text: string)
    requires registry.Valid()
    ensures text == ConfigData(enabled, Entries(registry.View()))
  {
    var d := new StringInfo();
    d.Append(ConfigHead(enabled));
    assert d.data == ConfigHead(enabled);
    AppendItems(d, registry);
    d.Append("]}");
    text := d.data;
  }

  // ---- the handlers -----------------------------------------------------------------------

  method Refuse(status: nat, code: string, msg: string) returns (r: Reply)
    ensures r == Refusal(status, code, msg)
  {
    var text := Respond(status, Some(code), Some(msg), None);
    r := Body(status, text);
  }

  method Finish(payload: string) returns (r: Reply)
    ensures r == Done(payload)
  {
    var text := Respond(200, None, None, Some(payload));
    r := Body(200, text);
  }

  method HandleRulePut(registry: RuleRegistry, id: string, body: Option<string>) returns (r: Reply)
    requires registry.Valid()
    modifies registry.configs
    ensures registry.Valid() && Outcome(registry.View(), r) == PutRule(old(registry.View()), id, body)
  {
    var idx := registry.FindRule(id);
    if idx < 0 {
      r := Refuse(404, "RULE_NOT_FOUND", NO_RULE);
      return;
    }
    if body.None? {
      r := Refuse(400, "BAD_REQUEST", NO_BODY);
      return;
    }
    var enabledField := JsonField.FindField(body.value, "enabled");
    var levelField := JsonField.FindField(body.value, "level");
    if enabledField.None? && levelField.None? {
      r := Refuse(400, "BAD_REQUEST", NO_FIELD);
      return;
    }
    var c := registry.RuleConfigAt(idx);
    var enabled, level := c.enabled, c.level;
    if enabledField.Some? {
      enabled := CaseEqual(enabledField.value, "true") || enabledField.value == "1";
    }
    if levelField.Some? {
      if CaseEqual(levelField.value, "ERROR") {
        level := Error;
      } else if CaseEqual(levelField.value, "WARNING") {
        level := Warning;
      } else if CaseEqual(levelField.value, "NOTICE") {
        level := Notice;
      } else {
        r := Refuse(400, "BAD_REQUEST", BAD_LEVEL);
        return;
      }
    }
    registry.SetRuleConfig(idx, enabled, level);
    r := Finish("{\"updated\":true}");
  }

  method HandleRuleGet(registry: RuleRegistry, id: string) returns (r: Reply)
    requires registry.Valid()
    ensures r == GetRule(registry.View(), id)
  {
    var idx := registry.FindRule(id);
    if idx < 0 {
      r := Refuse(404, "RULE_NOT_FOUND", NO_RULE);
      return;
    }
    var def := registry.defs[idx];
    var c := registry.RuleConfigAt(idx);
    var d := new StringInfo();
    d.Append("{");
    d.AppendField("id", def.id);
    d.AppendField("name", def.name);
    d.AppendField("level", LevelStr(c.level));
    d.Append(Key("enabled") + BoolStr(c.enabled) + "}");
    assert "" + "{" == "{";
    r := Finish(d.data);
  }

  method HandleRuleDelete(registry: RuleRegistry, id: string) returns (r: Reply)
    requires registry.Valid()
    modifies registry.configs
    ensures registry.Valid() && Outcome(registry.View(), r) == DeleteRule(old(registry.View()), id)
  {
    var idx := registry.FindRule(id);
    if idx >= 0 {
      var c := registry.RuleConfigAt(idx);
      registry.SetRuleConfig(idx, false, c.level);
    }
    var text := Respond(204, None, None, Some("{}"));
    r := Body(204, text);
  }

  method HandleAuditLogs(log: Ring) returns (r: Reply)
    requires log.Valid()
    ensures r == Logs(Window(log.history, log.slots.Length))
  {
    var cap := log.slots.Length;
    var recs := new Record[cap](_ => Record("", "", "", Notice, Pass));
    var n := log.Query(recs);
    r := Logs(recs[..n]);
  }

  method HandleRequest(registry: RuleRegistry, log: Ring, enabled: bool, req: Request) returns (r: Reply)
    requires registry.Valid() && log.Valid()
    modifies registry.configs
    ensures registry.Valid()
    ensures Outcome(registry.View(), r)
         == Api(old(registry.View()), enabled, Window(log.history, log.slots.Length), req)
  {
    match RouteOf(req) {
      case HealthRoute => r := Health;
      case Unauthorized => r := Refuse(401, "UNAUTHORIZED", NO_AUTH);
      case Outside => r := Refuse(404, "NOT_FOUND", NO_PREFIX);
      case ListRoute => r := RuleList;
      case RuleRoute(id) =>
        if req.verb == "GET" {
          r := HandleRuleGet(registry, id);
        } else if req.verb == "PUT" {
          r := HandleRulePut(registry, id, req.body);
        } else if req.verb == "DELETE" {
          r := HandleRuleDelete(registry, id);
        } else {
          r := Refuse(405, "METHOD_NOT_ALLOWED", BAD_METHOD);
        }
      case LogsRoute => r := HandleAuditLogs(log);
      case ConfigRoute =>
        if req.verb == "GET" {
          var text := ConfigGet(registry, enabled);
          r := Finish(text);
        } else if req.verb == "PUT" {
          r := Finish("{\"updated\":true}");
        } else {
          r := Refuse(405, "METHOD_NOT_ALLOWED", BAD_METHOD);
        }
      case Unknown => r := Refuse(404, "NOT_FOUND", NO_ROUTE);
    }
  }
}
