/** The rule registry and its shared configuration (rule_registry.c). */
module Registry {
  import opened Core

  datatype RuleDef = RuleDef(id: string, name: string, kind: string, defaultLevel: Level)

  datatype RuleConfig = RuleConfig(enabled: bool, level: Level)

  /** `configs` is absent while the shared memory has not been created. */
  datatype RuleTable = RuleTable(defs: seq<RuleDef>, configs: Option<seq<RuleConfig>>)

  type Rules = t: RuleTable | t.configs.Some? ==> |t.configs.value| == |t.defs|
    witness RuleTable([], None)

  ghost predicate DistinctIds(defs: seq<RuleDef>) {
    forall i, j :: 0 <= i < j < |defs| ==> defs[i].id != defs[j].id
  }

  /** First index at or after `k` whose id matches, or -1. */
  function FindFrom(defs: seq<RuleDef>, id: string, k: nat): (i: int)
    requires k <= |defs|
    ensures i == -1 || k <= i < |defs|
    ensures i >= 0 ==> defs[i].id == id && forall j :: k <= j < i ==> defs[j].id != id
    ensures i < 0 ==> forall j :: k <= j < |defs| ==> defs[j].id != id
    decreases |defs| - k
  {
    if k == |defs| then -1
    else if defs[k].id == id then k
    else FindFrom(defs, id, k + 1)
  }

  function Find(defs: seq<RuleDef>, id: string): int {
    FindFrom(defs, id, 0)
  }

  /** With distinct ids a lookup returns exactly the index that carries the id. */
  lemma FindIsExact(defs: seq<RuleDef>, k: nat)
    requires k < |defs| && DistinctIds(defs)
    ensures Find(defs, defs[k].id) == k
  {
    var i := Find(defs, defs[k].id);
    assert 0 <= i <= k && defs[i].id == defs[k].id;
  }

  /** Out of range reads as enabled at ERROR; without shared memory the defaults apply. */
  function ConfigAt(rules: Rules, i: int): RuleConfig {
    if i < 0 || i >= |rules.defs| then RuleConfig(true, Error)
    else if rules.configs.None? then RuleConfig(true, rules.defs[i].defaultLevel)
    else rules.configs.value[i]
  }

  function SetConfig(rules: Rules, i: int, c: RuleConfig): Rules {
    if i < 0 || i >= |rules.defs| || rules.configs.None? then rules
    else rules.(configs := Some(rules.configs.value[i := c]))
  }

  /** What is stored is what is read: the entry that was set, and every other entry as before. */
  lemma StoredIsRead(rules: Rules, k: nat, c: RuleConfig)
    requires k < |rules.defs| && rules.configs.Some?
    ensures var after := SetConfig(rules, k, c);
            && after.defs == rules.defs && after.configs.Some?
            && ConfigAt(after, k) == c
            && forall j :: j != k ==> ConfigAt(after, j) == ConfigAt(rules, j)
  {
  }

  function EffectiveLevel(rules: Rules, id: string, defLevel: Level): Level {
    var i := Find(rules.defs, id);
    if i < 0 then defLevel
    else if rules.configs.Some? then rules.configs.value[i].level
    else rules.defs[i].defaultLevel
  }

  function Defaults(defs: seq<RuleDef>): seq<RuleConfig> {
    seq(|defs|, i requires 0 <= i < |defs| => RuleConfig(true, defs[i].defaultLevel))
  }

  class RuleRegistry {
    const defs: seq<RuleDef>
    var configs: array?<RuleConfig>

    predicate Valid()
      reads this
    {
      configs != null ==> configs.Length == |defs|
    }

    function View(): Rules
      requires Valid()
      reads this, configs
    {
      RuleTable(defs, if configs == null then None else Some(configs[..]))
    }

    constructor (defs: seq<RuleDef>)
      ensures Valid() && this.defs == defs && View() == RuleTable(defs, None)
    {
      this.defs := defs;
      configs := null;
    }

    /** Creates the shared array unless another process already has (`existing`). */
    method Startup(existing: array?<RuleConfig>)
      requires existing != null ==> existing.Length == |defs|
      modifies this
      ensures Valid() && configs != null
      ensures existing != null ==> configs == existing
      ensures existing == null ==> fresh(configs) && View() == RuleTable(defs, Some(Defaults(defs)))
    {
      if existing != null {
        configs := existing;
        return;
      }
      var fresh_ := new RuleConfig[|defs|](_ => RuleConfig(true, Error));
      for i := 0 to |defs|
        invariant fresh(fresh_)
        invariant forall k :: 0 <= k < i ==> fresh_[k] == RuleConfig(true, defs[k].defaultLevel)
      {
        fresh_[i] := RuleConfig(true, defs[i].defaultLevel);
      }
      configs := fresh_;
      assert configs[..] == Defaults(defs);
    }

    method FindRule(id: string) returns (idx: int)
      ensures idx == Find(defs, id)
    {
      var i := 0;
      while i < |defs|
        invariant 0 <= i <= |defs|
        invariant Find(defs, id) == FindFrom(defs, id, i)
      {
        if defs[i].id == id {
          return i;
        }
        i := i + 1;
      }
      return -1;
    }

    method RuleConfigAt(i: int) returns (c: RuleConfig)
      requires Valid()
      ensures c == ConfigAt(View(), i)
      ensures configs != null && 0 <= i < |defs| ==> c == configs[i]
      ensures configs == null && 0 <= i < |defs| ==> c == RuleConfig(true, defs[i].defaultLevel)
      ensures !(0 <= i < |defs|) ==> c == RuleConfig(true, Error)
    {
      if i < 0 || i >= |defs| {
        return RuleConfig(true, Error);
      }
      if configs == null {
        return RuleConfig(true, defs[i].defaultLevel);
      }
      return configs[i];
    }

    method SetRuleConfig(i: int, enabled: bool, level: Level)
      requires Valid()
      modifies configs
      ensures Valid() && View() == SetConfig(old(View()), i, RuleConfig(enabled, level))
      ensures configs != null && 0 <= i < |defs| ==> configs[..] == old(configs[..])[i := RuleConfig(enabled, level)]
      ensures configs != null && !(0 <= i < |defs|) ==> configs[..] == old(configs[..])
    {
      if i < 0 || i >= |defs| || configs == null {
        return;
      }
      configs[i] := RuleConfig(enabled, level);
    }

    method GetEffectiveLevel(id: string, defLevel: Level) returns (level: Level)
      requires Valid()
      ensures level == EffectiveLevel(View(), id, defLevel)
    {
      var idx := FindRule(id);
      if idx < 0 {
        return defLevel;
      }
      if configs != null {
        return configs[idx].level;
      }
      return defs[idx].defaultLevel;
    }
  }
}
