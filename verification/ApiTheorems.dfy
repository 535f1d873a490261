/** What requests can and cannot do to the rule configuration, and what the export says. */
module ApiTheorems {
  import opened Core
  import opened Registry
  import opened Text
  import opened RuleText
  import opened RestApi
  import JsonField
  import Json

  // ---- frame ----------------------------------------------------------------------------------

  /** The rule a request may change: the one named in its path, if the verb is PUT or DELETE. */
  function Touches(req: Request): Option<string> {
    match RouteOf(req)
    case RuleRoute(id) => if req.verb == "PUT" || req.verb == "DELETE" then Some(id) else None
    case _ => None
  }

  lemma ApiKeepsDefs(rules: Rules, enabled: bool, window: seq<Record>, req: Request)
    ensures var rules' := Api(rules, enabled, window, req).rules;
            rules'.defs == rules.defs && rules'.configs.Some? == rules.configs.Some?
  {
  }

  /** One request changes at most the rule it names, and only the first rule with that id. */
  lemma ApiFrame(rules: Rules, enabled: bool, window: seq<Record>, req: Request, k: nat)
    requires k < |rules.defs|
    ensures var rules' := Api(rules, enabled, window, req).rules;
            && rules'.defs == rules.defs
            && (ConfigAt(rules', k) != ConfigAt(rules, k) ==>
                  Touches(req) == Some(rules.defs[k].id) && k == Find(rules.defs, rules.defs[k].id))
  {
  }

  /** Requests that are refused, and every request other than PUT and DELETE, change nothing. */
  lemma RefusalsChangeNothing(rules: Rules, enabled: bool, window: seq<Record>, req: Request)
    ensures var o := Api(rules, enabled, window, req);
            IsRefusal(o.reply) || req.verb == "GET" || Touches(req).None? ==> o.rules == rules
  {
  }

  function Serve(rules: Rules, enabled: bool, window: seq<Record>, reqs: seq<Request>): Rules
    decreases |reqs|
  {
    if reqs == [] then rules
    else Serve(Api(rules, enabled, window, reqs[0]).rules, enabled, window, reqs[1..])
  }

  /** Over any sequence of requests a rule keeps its configuration unless some request names it. */
  lemma {:induction false} UnnamedRulesAreKept(rules: Rules, enabled: bool, window: seq<Record>, reqs: seq<Request>, k: nat)
    requires k < |rules.defs|
    requires forall r :: r in reqs ==> Touches(r) != Some(rules.defs[k].id)
    ensures var rules' := Serve(rules, enabled, window, reqs);
            rules'.defs == rules.defs && ConfigAt(rules', k) == ConfigAt(rules, k)
    decreases |reqs|
  {
    if reqs != [] {
      ApiFrame(rules, enabled, window, reqs[0], k);
      assert reqs[0] in reqs && forall r :: r in reqs[1..] ==> r in reqs;
      UnnamedRulesAreKept(Api(rules, enabled, window, reqs[0]).rules, enabled, window, reqs[1..], k);
    }
  }

  // ---- GET, then PUT of the same text -----------------------------------------------------------

  function PathToRule(id: string): string {
    PREFIX + RULES + id
  }

  lemma RoutesToRule(verb: string, id: string, body: Option<string>)
    requires '?' !in id
    ensures RouteOf(Request(verb, PathToRule(id), true, body)) == RuleRoute(id)
  {
    var p := PathToRule(id);
    NoQuery(p);
    assert p[|PREFIX|..] == RULES + id;
    assert p != "/api/v1/health" by {
      assert p[8] == 'r';
    }
    assert (RULES + id)[|RULES|..] == id;
    assert (RULES + id) != "/rules" by {
      assert |RULES + id| >= 7;
    }
  }

  lemma {:induction false} NoQuery(p: string)
    requires '?' !in p
    ensures StrChr(p, '?') == None
  {
    if p != "" {
      assert p[0] in p && forall c :: c in p[1..] ==> c in p;
      NoQuery(p[1..]);
    }
  }

  lemma GetAnswer(rules: Rules, enabled: bool, window: seq<Record>, k: nat, id: string)
    requires k < |rules.defs| && DistinctIds(rules.defs) && id == rules.defs[k].id && '?' !in id
    ensures Api(rules, enabled, window, Request("GET", PathToRule(id), true, None))
         == Outcome(rules, Done(RuleData(id, rules.defs[k].name, ConfigAt(rules, k))))
  {
    FindIsExact(rules.defs, k);
    RoutesToRule("GET", id, None);
  }

  lemma PutAnswer(rules: Rules, enabled: bool, window: seq<Record>, k: nat, id: string, body: string, c: RuleConfig)
    requires k < |rules.defs| && DistinctIds(rules.defs) && id == rules.defs[k].id && '?' !in id
    requires PutConfig(ConfigAt(rules, k), body) == Some(c)
    ensures Api(rules, enabled, window, Request("PUT", PathToRule(id), true, Some(body)))
         == Outcome(SetConfig(rules, k, c), Done("{\"updated\":true}"))
  {
    FindIsExact(rules.defs, k);
    RoutesToRule("PUT", id, Some(body));
  }

  lemma SetSame(rules: Rules, k: nat)
    requires k < |rules.defs|
    ensures SetConfig(rules, k, ConfigAt(rules, k)) == rules
  {
    if rules.configs.Some? {
      assert rules.configs.value[k := rules.configs.value[k]] == rules.configs.value;
    }
  }

  /** The entry `k` is the given one, and all other entries are those of the old configuration. */
  ghost predicate Changed(before: Rules, after: Rules, k: nat, c: RuleConfig) {
    && after.defs == before.defs && ConfigAt(after, k) == c
    && forall j :: j != k ==> ConfigAt(after, j) == ConfigAt(before, j)
  }

  /**
   * PUT of `{"enabled": ..., "level": ...}` as a JSON client writes it: sets exactly the two values, or is
   * refused as a whole when the string is no level, the valid switch notwithstanding. Before the shared memory
   * exists nothing is stored, although the answer is the same.
   */
  lemma ClientPutIff(rules: Rules, enabled: bool, window: seq<Record>, k: nat, id: string, on: bool, level: string)
    requires k < |rules.defs| && DistinctIds(rules.defs) && id == rules.defs[k].id && '?' !in id
    ensures var o := Api(rules, enabled, window, Request("PUT", PathToRule(id), true, Some(ClientBody(on, level))));
            match ParseLevel(level)
            case None => o == Outcome(rules, Refusal(400, "BAD_REQUEST", BAD_LEVEL))
            case Some(l) =>
              && o.reply == Done("{\"updated\":true}")
              && (if rules.configs.Some? then Changed(rules, o.rules, k, RuleConfig(on, l)) else o.rules == rules)
  {
    FindIsExact(rules.defs, k);
    RoutesToRule("PUT", id, Some(ClientBody(on, level)));
    PutOfClientBody(ConfigAt(rules, k), on, level);
    ClientLevel(on, level);
    if rules.configs.Some? && ParseLevel(level).Some? {
      StoredIsRead(rules, k, RuleConfig(on, ParseLevel(level).value));
    }
  }

  /** The effect of DELETE, and why it is not a return to the default: the rule ends up disabled at its old level. */
  lemma DeleteDisables(rules: Rules, enabled: bool, window: seq<Record>, k: nat, id: string, body: Option<string>)
    requires k < |rules.defs| && DistinctIds(rules.defs) && id == rules.defs[k].id && '?' !in id && rules.configs.Some?
    ensures var o := Api(rules, enabled, window, Request("DELETE", PathToRule(id), true, body));
            && o.reply.Body? && o.reply.status == 204
            && Changed(rules, o.rules, k, RuleConfig(false, rules.configs.value[k].level))
            && ConfigAt(o.rules, k) != RuleConfig(true, rules.defs[k].defaultLevel)
  {
    FindIsExact(rules.defs, k);
    RoutesToRule("DELETE", id, body);
    StoredIsRead(rules, k, RuleConfig(false, ConfigAt(rules, k).level));
  }

  /**
   * PUT of an exact reply to GET succeeds and brings back the configuration of that moment, whatever has
   * happened to the configuration in between; if nothing has, it changes nothing.
   */
  lemma SavedReplyRestores(rules: Rules, later: Rules, enabled: bool, window: seq<Record>, k: nat, id: string, text: string)
    requires k < |rules.defs| && DistinctIds(rules.defs) && later.defs == rules.defs
    requires id == rules.defs[k].id && '?' !in id && KeysAreSafe(id, rules.defs[k].name)
    requires Api(rules, enabled, window, Request("GET", PathToRule(id), true, None)).reply == Body(200, text)
    ensures var o := Api(later, enabled, window, Request("PUT", PathToRule(id), true, Some(text)));
            && o.reply == Done("{\"updated\":true}")
            && (if later.configs.Some? then Changed(later, o.rules, k, ConfigAt(rules, k)) else o.rules == later)
            && (later == rules ==> o.rules == rules)
  {
    var name, saved := rules.defs[k].name, ConfigAt(rules, k);
    GetAnswer(rules, enabled, window, k, id);
    assert text == GetText(id, name, saved);
    RestoreWorks(id, name);
    PutAnswer(later, enabled, window, k, id, text, saved);
    if later.configs.Some? {
      StoredIsRead(later, k, saved);
    }
    SetSame(rules, k);
  }

  // ---- every answer ------------------------------------------------------------------------------------

  predicate Known(rules: Rules, id: string) {
    exists k :: 0 <= k < |rules.defs| && rules.defs[k].id == id
  }

  /** The route, read off the whole path: the health check is public, everything else needs a token. */
  function Named(req: Request): Route {
    if req.verb == "GET" && req.path == "/api/v1/health" then HealthRoute
    else if !req.authorized then Unauthorized
    else if !("/api/v1" <= req.path) then Outside
    else if req.verb == "GET" && req.path == "/api/v1/rules" then ListRoute
    else if "/api/v1/rules/" <= req.path then RuleRoute(req.path[14..])
    else if req.verb == "GET" && req.path == "/api/v1/audit-logs" then LogsRoute
    else if req.path == "/api/v1/config" then ConfigRoute
    else Unknown
  }

  /** The status for a request about one rule. */
  function PromisedRule(rules: Rules, id: string, verb: string, body: Option<string>): nat {
    if verb == "DELETE" then 204
    else if verb != "GET" && verb != "PUT" then 405
    else if !Known(rules, id) then 404
    else if verb == "PUT" && (body.None? || PutConfig(RuleConfig(true, Error), body.value).None?) then 400
    else 200
  }

  /** The status for every request. */
  function Promised(rules: Rules, req: Request): nat {
    PromisedAt(rules, Named(req), req)
  }

  function PromisedAt(rules: Rules, route: Route, req: Request): nat {
    match route
    case Unauthorized => 401
    case Outside => 404
    case Unknown => 404
    case RuleRoute(id) => PromisedRule(rules, id, req.verb, req.body)
    case ConfigRoute => if req.verb == "GET" || req.verb == "PUT" then 200 else 405
    case _ => 200
  }

  function StatusOf(r: Reply): nat {
    if r.Body? then r.status else 200
  }

  lemma Stripped(p: string, rest: string, whole: string)
    requires PREFIX <= p && whole == PREFIX + rest
    ensures p[|PREFIX|..] == rest <==> p == whole
    ensures rest <= p[|PREFIX|..] <==> whole <= p
    ensures whole <= p ==> p[|PREFIX|..][|rest|..] == p[|whole|..]
  {
    assert p == PREFIX + p[|PREFIX|..];
    if rest <= p[|PREFIX|..] {
      assert p[..|whole|] == PREFIX + p[|PREFIX|..][..|rest|];
    }
    if whole <= p {
      assert p[|PREFIX|..][..|rest|] == p[..|whole|][|PREFIX|..] == rest;
    }
  }

  /** Stripping the prefix first finds the same routes. */
  lemma RouteIs(req: Request)
    requires '?' !in req.path
    ensures RouteOf(req) == Named(req)
  {
    NoQuery(req.path);
    if PREFIX <= req.path {
      var rules, rule, logs, config := WholePaths();
      Stripped(req.path, "/rules", rules);
      Stripped(req.path, "/rules/", rule);
      Stripped(req.path, "/audit-logs", logs);
      Stripped(req.path, "/config", config);
    }
  }

  lemma WholePaths() returns (rules: string, rule: string, logs: string, config: string)
    ensures rules == "/api/v1/rules" == PREFIX + "/rules" && rule == "/api/v1/rules/" == PREFIX + "/rules/"
    ensures logs == "/api/v1/audit-logs" == PREFIX + "/audit-logs" && config == "/api/v1/config" == PREFIX + "/config"
  {
    rules, rule, logs, config := "/api/v1/rules", "/api/v1/rules/", "/api/v1/audit-logs", "/api/v1/config";
  }

  /** The audit log answers with the window of the record ring as it is. */
  lemma LogsAnswer(rules: Rules, enabled: bool, window: seq<Record>, req: Request)
    requires req.verb == "GET" && req.path == "/api/v1/audit-logs" && req.authorized
    ensures Api(rules, enabled, window, req) == Outcome(rules, Logs(window))
  {
    LogsAreNamed(req);
    RouteIs(req);
  }

  lemma LogsAreNamed(req: Request)
    requires req.verb == "GET" && req.path == "/api/v1/audit-logs" && req.authorized
    ensures '?' !in req.path && Named(req) == LogsRoute
  {
    assert req.path[8] == 'a' && "/api/v1/health"[8] == 'h' && "/api/v1/rules/"[8] == 'r' && "/api/v1/rules"[8] == 'r';
  }

  /** A query string behind the path changes nothing. */
  lemma QueryIsIgnored(verb: string, path: string, query: string, authorized: bool, body: Option<string>)
    requires '?' !in path
    ensures RouteOf(Request(verb, path + ['?'] + query, authorized, body)) == RouteOf(Request(verb, path, authorized, body))
  {
    NoQuery(path);
    JsonField.StrChrAt(path, '?', query);
    assert (path + ['?'] + query)[..|path|] == path;
  }

  // ---- the exported configuration is JSON that says what the registry says -------------------------

  function ItemTree(e: Entry): Json.Value {
    Json.Obj([Json.Member("id", Json.Str(e.id)), Json.Member("enabled", Json.Bool(e.config.enabled)),
              Json.Member("level", Json.Str(LevelStr(e.config.level)))])
  }

  function ItemTrees(es: seq<Entry>): seq<Json.Value> {
    if es == [] then [] else [ItemTree(es[0])] + ItemTrees(es[1..])
  }

  function ConfigTree(enabled: bool, es: seq<Entry>): Json.Value {
    Json.Obj([Json.Member("enabled", Json.Bool(enabled)), Json.Member("rules", Json.Arr(ItemTrees(es)))])
  }

  function ReplyTree(status: nat, data: Json.Value): Json.Value {
    Json.Obj([Json.Member("code", Json.Num(status)), Json.Member("error_code", Json.Null),
              Json.Member("error_message", Json.Null), Json.Member("data", data)])
  }

  lemma PlainKey(k: string)
    requires Plain(k)
    ensures Json.JsonString(k) + ":" == Key(k)
  {
    EscapePlain(k);
  }

  // Regrouping of concatenations, stated over arbitrary strings.

  lemma Group(p: string, a: string, b: string, q: string)
    ensures p + a + b + q == p + (a + b) + q && p + a + b == p + (a + b)
  {
  }

  lemma Inner(p: string, a: string, b: string, c: string, q: string)
    ensures p + (a + (b + c)) + q == p + a + b + c + q
  {
    assert a + (b + c) == a + b + c;
  }

  lemma LastMember(m: Json.Member)
    ensures Json.PrintMoreMembers([m]) == "," + Json.PrintMember(m)
  {
    assert [m][1..] == [];
  }

  lemma NextMember(m: Json.Member, ms: seq<Json.Member>)
    ensures Json.PrintMoreMembers([m] + ms) == "," + Json.PrintMember(m) + Json.PrintMoreMembers(ms)
  {
    assert ([m] + ms)[1..] == ms;
  }

  lemma ObjectOf(m: Json.Member, ms: seq<Json.Member>)
    ensures Json.Print(Json.Obj([m] + ms)) == "{" + (Json.PrintMember(m) + Json.PrintMoreMembers(ms)) + "}"
  {
    assert ([m] + ms)[1..] == ms;
  }

  lemma Commas2(a: string, b: string)
    ensures "{" + (a + ("," + b)) + "}" == "{" + a + "," + b + "}"
  {
    Inner("{", a, ",", b, "}");
  }

  lemma Commas3(a: string, b: string, c: string)
    ensures "{" + (a + ("," + b + ("," + c))) + "}" == "{" + a + "," + b + "," + c + "}"
  {
    var u := "," + c;
    Inner("{", a, "," + b, u, "}");
    assert "{" + a + ("," + b) == "{" + a + "," + b;
    Inner("{" + a + "," + b, ",", c, "", "}");
    assert c + "" == c && "," + c + "" == u;
  }

  lemma Commas4(a: string, b: string, c: string, d: string)
    ensures "{" + (a + ("," + b + ("," + c + ("," + d)))) + "}" == "{" + a + "," + b + "," + c + "," + d + "}"
  {
    var e := c + ("," + d);
    assert "," + c + ("," + d) == "," + e;
    Commas3(a, b, e);
    var p := "{" + a + "," + b + ",";
    Inner(p, c, ",", d, "}");
  }

  lemma ObjectOf2(a: Json.Member, b: Json.Member)
    ensures Json.Print(Json.Obj([a, b])) == "{" + Json.PrintMember(a) + "," + Json.PrintMember(b) + "}"
  {
    assert [a] + [b] == [a, b];
    ObjectOf(a, [b]);
    LastMember(b);
    Commas2(Json.PrintMember(a), Json.PrintMember(b));
  }

  lemma ObjectOf3(a: Json.Member, b: Json.Member, c: Json.Member)
    ensures Json.Print(Json.Obj([a, b, c]))
         == "{" + Json.PrintMember(a) + "," + Json.PrintMember(b) + "," + Json.PrintMember(c) + "}"
  {
    assert [b] + [c] == [b, c] && [a] + [b, c] == [a, b, c];
    ObjectOf(a, [b, c]);
    NextMember(b, [c]);
    LastMember(c);
    Commas3(Json.PrintMember(a), Json.PrintMember(b), Json.PrintMember(c));
  }

  lemma ObjectOf4(a: Json.Member, b: Json.Member, c: Json.Member, d: Json.Member)
    ensures Json.Print(Json.Obj([a, b, c, d]))
         == "{" + Json.PrintMember(a) + "," + Json.PrintMember(b) + "," + Json.PrintMember(c) + "," + Json.PrintMember(d) + "}"
  {
    assert [c] + [d] == [c, d] && [b] + [c, d] == [b, c, d] && [a] + [b, c, d] == [a, b, c, d];
    ObjectOf(a, [b, c, d]);
    NextMember(b, [c, d]);
    NextMember(c, [d]);
    LastMember(d);
    Commas4(Json.PrintMember(a), Json.PrintMember(b), Json.PrintMember(c), Json.PrintMember(d));
  }

  lemma MemberText(k: string, v: Json.Value)
    requires Plain(k)
    ensures Json.PrintMember(Json.Member(k, v)) == Key(k) + Json.Print(v)
  {
    PlainKey(k);
  }

  lemma TwoMembers(a: Json.Member, b: Json.Member)
    requires Plain(a.key) && Plain(b.key)
    ensures Json.Print(Json.Obj([a, b])) == "{" + (Key(a.key) + Json.Print(a.value)) + "," + (Key(b.key) + Json.Print(b.value)) + "}"
  {
    ObjectOf2(a, b);
    MemberText(a.key, a.value);
    MemberText(b.key, b.value);
  }

  lemma ThreeMembers(a: Json.Member, b: Json.Member, c: Json.Member)
    requires Plain(a.key) && Plain(b.key) && Plain(c.key)
    ensures Json.Print(Json.Obj([a, b, c]))
         == "{" + (Key(a.key) + Json.Print(a.value)) + "," + (Key(b.key) + Json.Print(b.value)) + ","
            + (Key(c.key) + Json.Print(c.value)) + "}"
  {
    ObjectOf3(a, b, c);
    MemberText(a.key, a.value);
    MemberText(b.key, b.value);
    MemberText(c.key, c.value);
  }

  lemma ItemIsPrinted(e: Entry)
    ensures ItemText(e) == Json.Print(ItemTree(e))
  {
    var id, on, level := Json.Str(e.id), Json.Bool(e.config.enabled), Json.Str(LevelStr(e.config.level));
    ThreeMembers(Json.Member("id", id), Json.Member("enabled", on), Json.Member("level", level));
    ItemGroups(Key("id"), Json.Print(id), Key("enabled"), Json.Print(on), Key("level"), Json.Print(level));
  }

  lemma ItemGroups(k1: string, a: string, k2: string, b: string, k3: string, c: string)
    ensures "{" + (k1 + a + ",") + k2 + b + "," + k3 + c + "}" == "{" + (k1 + a) + "," + (k2 + b) + "," + (k3 + c) + "}"
  {
    assert "{" + (k1 + a + ",") == "{" + (k1 + a) + ",";
    var p := "{" + (k1 + a) + ",";
    Group(p, k2, b, ",");
    var q := p + (k2 + b) + ",";
    Group(q, k3, c, "}");
  }

  lemma {:induction false} MoreItemsArePrinted(es: seq<Entry>)
    ensures MoreItems(es) == Json.PrintMore(ItemTrees(es))
  {
    if es != [] {
      ItemIsPrinted(es[0]);
      MoreItemsArePrinted(es[1..]);
      assert ItemTrees(es)[1..] == ItemTrees(es[1..]);
    }
  }

  lemma ItemsArePrinted(es: seq<Entry>)
    ensures "[" + ItemsText(es) + "]" == Json.Print(Json.Arr(ItemTrees(es)))
  {
    if es != [] {
      ItemIsPrinted(es[0]);
      MoreItemsArePrinted(es[1..]);
      assert ItemTrees(es)[1..] == ItemTrees(es[1..]);
    }
  }

  lemma ConfigGroups(k1: string, b: string, k2: string, items: string)
    ensures "{" + k1 + b + "," + k2 + "[" + items + "]}" == "{" + (k1 + b) + "," + (k2 + ("[" + items + "]")) + "}"
  {
    Group("{", k1, b, ",");
    var p := "{" + (k1 + b) + ",";
    var list := "[" + items + "]";
    assert k2 + "[" + items + "]}" == k2 + list + "}";
    assert p + k2 + "[" + items + "]}" == p + (k2 + "[" + items + "]}");
    assert p + (k2 + list) + "}" == p + (k2 + list + "}");
  }

  lemma ConfigIsPrinted(enabled: bool, es: seq<Entry>)
    ensures ConfigData(enabled, es) == Json.Print(ConfigTree(enabled, es))
  {
    var on, list := Json.Bool(enabled), Json.Arr(ItemTrees(es));
    ItemsArePrinted(es);
    TwoMembers(Json.Member("enabled", on), Json.Member("rules", list));
    ConfigGroups(Key("enabled"), BoolStr(enabled), Key("rules"), ItemsText(es));
  }

  lemma EnvelopeGroups(k1: string, a: string, k2: string, b: string, k3: string, c: string, k4: string, d: string)
    ensures "{" + k1 + a + "," + k2 + b + "," + k3 + c + "," + k4 + d + "}"
         == "{" + (k1 + a) + "," + (k2 + b) + "," + (k3 + c) + "," + (k4 + d) + "}"
  {
    Group("{", k1, a, ",");
    var p := "{" + (k1 + a) + ",";
    Group(p, k2, b, ",");
    var q := p + (k2 + b) + ",";
    Group(q, k3, c, ",");
    var r := q + (k3 + c) + ",";
    Group(r, k4, d, "}");
  }

  lemma EnvelopeText(status: nat, text: string)
    ensures Envelope(status, None, None, Some(text))
         == "{" + (Key("code") + Json.Digits(status)) + "," + (Key("error_code") + "null") + ","
            + (Key("error_message") + "null") + "," + (Key("data") + text) + "}"
  {
    EnvelopeGroups(Key("code"), Json.Digits(status), Key("error_code"), "null", Key("error_message"), "null",
                   Key("data"), text);
  }

  lemma FourMembers(a: Json.Member, b: Json.Member, c: Json.Member, d: Json.Member)
    requires Plain(a.key) && Plain(b.key) && Plain(c.key) && Plain(d.key)
    ensures Json.Print(Json.Obj([a, b, c, d]))
         == "{" + (Key(a.key) + Json.Print(a.value)) + "," + (Key(b.key) + Json.Print(b.value)) + ","
            + (Key(c.key) + Json.Print(c.value)) + "," + (Key(d.key) + Json.Print(d.value)) + "}"
  {
    ObjectOf4(a, b, c, d);
    MemberText(a.key, a.value);
    MemberText(b.key, b.value);
    MemberText(c.key, c.value);
    MemberText(d.key, d.value);
  }

  lemma ReplyText(status: nat, data: Json.Value)
    ensures Json.Print(ReplyTree(status, data))
         == "{" + (Key("code") + Json.Digits(status)) + "," + (Key("error_code") + "null") + ","
            + (Key("error_message") + "null") + "," + (Key("data") + Json.Print(data)) + "}"
  {
    FourMembers(Json.Member("code", Json.Num(status)), Json.Member("error_code", Json.Null),
                Json.Member("error_message", Json.Null), Json.Member("data", data));
  }

  lemma ReplyIsPrinted(status: nat, data: Json.Value)
    ensures Envelope(status, None, None, Some(Json.Print(data))) == Json.Print(ReplyTree(status, data))
  {
    ReplyText(status, data);
    EnvelopeText(status, Json.Print(data));
  }

  /** A client that reads the reply member by member. */
  function Get(v: Json.Value, key: string): Option<Json.Value> {
    if v.Obj? then Lookup(v.members, key) else None
  }

  function Lookup(ms: seq<Json.Member>, key: string): Option<Json.Value> {
    if ms == [] then None
    else if ms[0].key == key then Some(ms[0].value)
    else Lookup(ms[1..], key)
  }

  function ReadEntry(v: Json.Value): Option<Entry> {
    match (Get(v, "id"), Get(v, "enabled"), Get(v, "level"))
    case (Some(Str(id)), Some(Bool(enabled)), Some(Str(level))) =>
      (match ParseLevel(level)
       case None => None
       case Some(l) => Some(Entry(id, RuleConfig(enabled, l))))
    case _ => None
  }

  function ReadEntries(vs: seq<Json.Value>): Option<seq<Entry>> {
    if vs == [] then Some([])
    else match (ReadEntry(vs[0]), ReadEntries(vs[1..]))
      case (Some(e), Some(es)) => Some([e] + es)
      case _ => None
  }

  function ReadConfig(text: string): Option<(bool, seq<Entry>)> {
    match Json.ReadText(text)
    case None => None
    case Some(reply) =>
      match Get(reply, "data")
      case None => None
      case Some(data) =>
        match (Get(data, "enabled"), Get(data, "rules"))
        case (Some(Bool(enabled)), Some(Arr(vs))) =>
          (match ReadEntries(vs)
           case None => None
           case Some(es) => Some((enabled, es)))
        case _ => None
  }

  lemma EntryIsRead(e: Entry)
    ensures ReadEntry(ItemTree(e)) == Some(e)
  {
    LevelsParse(e.config.level);
    var a, b, c := Json.Member("id", Json.Str(e.id)), Json.Member("enabled", Json.Bool(e.config.enabled)),
                   Json.Member("level", Json.Str(LevelStr(e.config.level)));
    assert [a, b, c][1..] == [b, c] && [b, c][1..] == [c];
    assert Lookup([b, c], "level") == Lookup([c], "level");
    assert Lookup([a, b, c], "enabled") == Lookup([b, c], "enabled");
  }

  lemma {:induction false} EntriesAreRead(es: seq<Entry>)
    ensures ReadEntries(ItemTrees(es)) == Some(es)
  {
    if es != [] {
      EntryIsRead(es[0]);
      EntriesAreRead(es[1..]);
      assert ItemTrees(es)[1..] == ItemTrees(es[1..]);
      assert es == [es[0]] + es[1..];
    }
  }

  lemma DataIsFound(status: nat, data: Json.Value)
    ensures Get(ReplyTree(status, data), "data") == Some(data)
  {
    var a, b, c, d := Json.Member("code", Json.Num(status)), Json.Member("error_code", Json.Null),
                      Json.Member("error_message", Json.Null), Json.Member("data", data);
    assert [a, b, c, d][1..] == [b, c, d] && [b, c, d][1..] == [c, d] && [c, d][1..] == [d];
    assert Lookup([c, d], "data") == Lookup([d], "data");
    assert Lookup([b, c, d], "data") == Lookup([c, d], "data");
  }

  lemma {:induction false} TreesArePrintable(es: seq<Entry>)
    ensures Json.PrintableValue(Json.Arr(ItemTrees(es))) <==> forall e :: e in es ==> Json.Printable(e.id)
  {
    if es != [] {
      assert forall e :: e in es <==> e == es[0] || e in es[1..];
      TreesArePrintable(es[1..]);
      ItemIsPrintable(es[0]);
      assert ItemTrees(es)[1..] == ItemTrees(es[1..]);
      Json.PrintableItems(ItemTrees(es));
    }
  }

  lemma ItemIsPrintable(e: Entry)
    ensures Json.PrintableValue(ItemTree(e)) <==> Json.Printable(e.id)
  {
    var id, level := Json.Str(e.id), Json.Str(LevelStr(e.config.level));
    var ms := [Json.Member("id", id), Json.Member("enabled", Json.Bool(e.config.enabled)), Json.Member("level", level)];
    assert Json.Printable("id") && Json.Printable("enabled") && Json.Printable("level");
    assert Json.PrintableValue(id) <==> Json.Printable(e.id);
    assert ms[0].value == id;
  }

  lemma ConfigIsPrintable(enabled: bool, es: seq<Entry>)
    ensures Json.PrintableValue(ReplyTree(200, ConfigTree(enabled, es))) <==> forall e :: e in es ==> Json.Printable(e.id)
  {
    TreesArePrintable(es);
    assert Json.Printable("enabled") && Json.Printable("rules");
    var list := Json.Arr(ItemTrees(es));
    var ms := [Json.Member("enabled", Json.Bool(enabled)), Json.Member("rules", list)];
    assert ms[1].value == list;
    assert Json.PrintableValue(Json.Obj(ms)) <==> Json.PrintableValue(list);
    ReplyIsPrintable(200, Json.Obj(ms));
  }

  lemma ReplyIsPrintable(status: nat, data: Json.Value)
    ensures Json.PrintableValue(ReplyTree(status, data)) <==> Json.PrintableValue(data)
  {
    var ms := [Json.Member("code", Json.Num(status)), Json.Member("error_code", Json.Null),
               Json.Member("error_message", Json.Null), Json.Member("data", data)];
    assert Json.Printable("code") && Json.Printable("error_code") && Json.Printable("error_message") && Json.Printable("data");
    assert ms[3].value == data;
  }

  lemma ConfigIsFound(enabled: bool, es: seq<Entry>)
    ensures var tree := ConfigTree(enabled, es);
            Get(tree, "enabled") == Some(Json.Bool(enabled)) && Get(tree, "rules") == Some(Json.Arr(ItemTrees(es)))
  {
    var a, b := Json.Member("enabled", Json.Bool(enabled)), Json.Member("rules", Json.Arr(ItemTrees(es)));
    assert [a, b][1..] == [b];
    assert Lookup([a, b], "rules") == Lookup([b], "rules");
  }

  lemma ReadConfigOf(text: string, reply: Json.Value, data: Json.Value, enabled: bool, vs: seq<Json.Value>, es: seq<Entry>)
    requires Json.ReadText(text) == Some(reply) && Get(reply, "data") == Some(data)
    requires Get(data, "enabled") == Some(Json.Bool(enabled)) && Get(data, "rules") == Some(Json.Arr(vs))
    requires ReadEntries(vs) == Some(es)
    ensures ReadConfig(text) == Some((enabled, es))
  {
  }

  lemma ExportIsRead(rules: Rules, enabled: bool)
    ensures ReadConfig(Envelope(200, None, None, Some(ConfigData(enabled, Entries(rules)))))
         == if forall e :: e in Entries(rules) ==> Json.Printable(e.id) then Some((enabled, Entries(rules))) else None
  {
    var es := Entries(rules);
    var tree := ConfigTree(enabled, es);
    var reply := ReplyTree(200, tree);
    ConfigIsPrinted(enabled, es);
    ReplyIsPrinted(200, tree);
    ConfigIsPrintable(enabled, es);
    Json.TextRoundTrip(reply);
    DataIsFound(200, tree);
    ConfigIsFound(enabled, es);
    EntriesAreRead(es);
    if Json.PrintableValue(reply) {
      ReadConfigOf(Json.Print(reply), reply, tree, enabled, ItemTrees(es), es);
    }
  }

  /** What a client reads off the export: each id with its switch and level. */
  ghost predicate Lists(es: seq<Entry>, rules: Rules) {
    |es| == |rules.defs| && forall k :: 0 <= k < |es| ==> es[k].id == rules.defs[k].id && es[k].config == ConfigAt(rules, k)
  }

  /**
   * At the API: GET of the configuration answers with a text that reads back to the switch and to the id, switch
   * and level of all rules, in order, provided that no id contains a control character other than newline, return
   * and tab; otherwise the text is no JSON at all. Nothing is changed.
   */
  lemma ExportRoundTrip(rules: Rules, enabled: bool, window: seq<Record>, req: Request)
    requires req.verb == "GET" && req.path == "/api/v1/config" && req.authorized
    ensures var o := Api(rules, enabled, window, req);
            && o.rules == rules && o.reply.Body? && o.reply.status == 200
            && var read := ReadConfig(o.reply.text);
               && (read.Some? <==> forall k :: 0 <= k < |rules.defs| ==> Json.Printable(rules.defs[k].id))
               && (read.Some? ==> read.value.0 == enabled && Lists(read.value.1, rules))
  {
    ConfigAnswer(rules, enabled, window, req);
    ExportIsRead(rules, enabled);
    ListedPrintable(rules);
  }

  lemma ConfigAnswer(rules: Rules, enabled: bool, window: seq<Record>, req: Request)
    requires req.verb == "GET" && req.path == "/api/v1/config" && req.authorized
    ensures Api(rules, enabled, window, req) == Outcome(rules, Done(ConfigData(enabled, Entries(rules))))
  {
    ConfigIsNamed(req);
    RouteIs(req);
  }

  lemma ConfigIsNamed(req: Request)
    requires req.path == "/api/v1/config" && req.authorized
    ensures '?' !in req.path && Named(req) == ConfigRoute
  {
    assert req.path[8] == 'c' && "/api/v1/health"[8] == 'h' && "/api/v1/rules/"[8] == 'r';
  }

  lemma ListedPrintable(rules: Rules)
    ensures (forall e :: e in Entries(rules) ==> Json.Printable(e.id))
       <==> forall k :: 0 <= k < |rules.defs| ==> Json.Printable(rules.defs[k].id)
  {
    var es := Entries(rules);
    forall k | 0 <= k < |rules.defs|
      ensures es[k] in es && es[k].id == rules.defs[k].id
    {
    }
  }

  /** Every refusal is a JSON text that carries its status, code and message. */
  lemma RefusalIsRead(status: nat, code: string, msg: string)
    requires Json.Printable(code) && Json.Printable(msg)
    ensures Json.ReadText(Refusal(status, code, msg).text) == Some(RefusalTree(status, code, msg))
  {
    var a, b := Json.Member("code", Json.Num(status)), Json.Member("error_code", Json.Str(code));
    var c, d := Json.Member("error_message", Json.Str(msg)), Json.Member("data", Json.Obj([]));
    RefusalText(status, code, msg);
    RefusalIsPrintable(a, b, c, d, code, msg);
    Json.TextRoundTrip(RefusalTree(status, code, msg));
  }

  function RefusalTree(status: nat, code: string, msg: string): Json.Value {
    Json.Obj([Json.Member("code", Json.Num(status)), Json.Member("error_code", Json.Str(code)),
              Json.Member("error_message", Json.Str(msg)), Json.Member("data", Json.Obj([]))])
  }

  lemma RefusalText(status: nat, code: string, msg: string)
    ensures Envelope(status, Some(code), Some(msg), None) == Json.Print(RefusalTree(status, code, msg))
  {
    var a, b := Json.Member("code", Json.Num(status)), Json.Member("error_code", Json.Str(code));
    var c, d := Json.Member("error_message", Json.Str(msg)), Json.Member("data", Json.Obj([]));
    FourMembers(a, b, c, d);
    RefusalGroups(Json.Digits(status), code, msg, Json.Print(d.value));
  }

  lemma RefusalGroups(status: string, code: string, msg: string, data: string)
    requires data == "{}"
    ensures "{" + Key("code") + status + "," + Key("error_code") + Nullable(Some(code)) + "," + Key("error_message")
            + Nullable(Some(msg)) + "," + Key("data") + "{}" + "}"
         == "{" + (Key("code") + status) + "," + (Key("error_code") + Json.JsonString(code)) + ","
            + (Key("error_message") + Json.JsonString(msg)) + "," + (Key("data") + data) + "}"
  {
    EnvelopeGroups(Key("code"), status, Key("error_code"), Json.JsonString(code), Key("error_message"),
                   Json.JsonString(msg), Key("data"), data);
  }

  lemma RefusalIsPrintable(a: Json.Member, b: Json.Member, c: Json.Member, d: Json.Member, code: string, msg: string)
    requires a.key == "code" && a.value.Num? && b == Json.Member("error_code", Json.Str(code))
    requires c == Json.Member("error_message", Json.Str(msg)) && d == Json.Member("data", Json.Obj([]))
    requires Json.Printable(code) && Json.Printable(msg)
    ensures Json.PrintableValue(Json.Obj([a, b, c, d]))
  {
    assert Json.Printable("code") && Json.Printable("error_code") && Json.Printable("error_message") && Json.Printable("data");
    var ms := [a, b, c, d];
    assert Json.PrintableValue(Json.Str(code)) && Json.PrintableValue(Json.Str(msg)) && Json.PrintableValue(Json.Obj([]));
  }

  lemma ReadableAlike(c: RuleConfig, d: RuleConfig, body: string)
    ensures PutConfig(c, body).Some? == PutConfig(d, body).Some?
  {
  }

  lemma RuleAnswer(rules: Rules, id: string, req: Request)
    ensures StatusOf(OnRule(rules, id, req).reply) == PromisedRule(rules, id, req.verb, req.body)
  {
    assert Known(rules, id) <==> Find(rules.defs, id) >= 0;
    if req.body.Some? && Find(rules.defs, id) >= 0 {
      ReadableAlike(ConfigAt(rules, Find(rules.defs, id)), RuleConfig(true, Error), req.body.value);
    }
  }

  lemma RouteAnswer(rules: Rules, enabled: bool, window: seq<Record>, route: Route, req: Request)
    ensures StatusOf(Answer(rules, enabled, window, route, req).reply) == PromisedAt(rules, route, req)
  {
    if route.RuleRoute? {
      RuleAnswer(rules, route.id, req);
    }
  }

  /** Every request is answered with the status that its path, verb, body and token call for. */
  lemma EveryAnswer(rules: Rules, enabled: bool, window: seq<Record>, req: Request)
    requires '?' !in req.path
    ensures StatusOf(Api(rules, enabled, window, req).reply) == Promised(rules, req)
  {
    RouteIs(req);
    RouteAnswer(rules, enabled, window, Named(req), req);
  }
}
