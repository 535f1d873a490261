/** audit_emit and audit_emit_fixed over the shared configuration and the record ring. */
module AuditorModule {
  import opened Core
  import opened Registry
  import opened RecordBuffer
  import opened Verdict

  class Auditor {
    const registry: RuleRegistry
    const log: Ring

    ghost predicate Valid()
      reads this, registry, registry.configs, log, log.slots
    {
      registry.Valid() && log.Valid()
    }

    function Rules(): Rules
      requires registry.Valid()
      reads registry, registry.configs
    {
      registry.View()
    }

    constructor (registry: RuleRegistry, log: Ring)
      requires registry.Valid() && log.Valid()
      ensures Valid() && this.registry == registry && this.log == log
    {
      this.registry := registry;
      this.log := log;
    }

    /** Reports at the configured level. The result tells whether the statement was aborted. */
    method Emit(defLevel: Level, rule: string) returns (aborted: bool)
      requires Valid()
      modifies log, log.slots
      ensures Valid()
      ensures Run(log.history, aborted) == Exec(Rules(), old(log.history), [Verdict.Emit(Configured(rule, defLevel))])
    {
      var idx := registry.FindRule(rule);
      var level := defLevel;
      if idx >= 0 && registry.configs != null {
        if !registry.configs[idx].enabled {
          return false;
        }
        level := registry.configs[idx].level;
      }
      log.Write("VIOLATION", Some(""), rule, level);
      match level
      case Error => aborted := true;
      case Warning => aborted := true;
      case Notice => aborted := false;
    }

    /** Reports at the level passed in, which the configuration does not override. */
    method EmitFixed(level: Level, rule: string) returns (aborted: bool)
      requires Valid()
      modifies log, log.slots
      ensures Valid()
      ensures Run(log.history, aborted) == Exec(Rules(), old(log.history), [Verdict.Emit(Fixed(rule, level))])
    {
      var idx := registry.FindRule(rule);
      if idx >= 0 && registry.configs != null {
        if !registry.configs[idx].enabled {
          return false;
        }
      }
      log.Write("VIOLATION", Some(""), rule, level);
      match level
      case Error => aborted := true;
      case Warning => aborted := true;
      case Notice => aborted := false;
    }

    /** audit_emit_fixed at the level that audit_effective_level reports. */
    method EmitEffective(defLevel: Level, rule: string) returns (aborted: bool)
      requires Valid()
      modifies log, log.slots
      ensures Valid()
      ensures Run(log.history, aborted) == Exec(Rules(), old(log.history), [Verdict.Emit(Effective(rule, defLevel))])
    {
      var level := registry.GetEffectiveLevel(rule, defLevel);
      aborted := EmitFixed(level, rule);
    }
  }
}
