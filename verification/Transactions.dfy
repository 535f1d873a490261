/** The transaction state machine of one backend (rule_tcl.c). */
module Transactions {
  import opened Core
  import opened Verdict
  import opened Ast
  import opened AuditorModule
  import opened RuleCommon

  datatype Tcl = Tcl(inTxn: bool, ddlCount: nat)

  const IDLE := Tcl(false, 0)

  function KindStr(kind: TxnKind): string {
    match kind
    case Begin => "BEGIN/START TRANSACTION"
    case Start => "BEGIN/START TRANSACTION"
    case Commit => "COMMIT"
    case Rollback => "ROLLBACK"
    case Savepoint => "SAVEPOINT"
    case Release => "RELEASE SAVEPOINT"
    case RollbackTo => "ROLLBACK TO SAVEPOINT"
    case Prepare => "PREPARE TRANSACTION"
    case CommitPrepared => "COMMIT PREPARED"
    case RollbackPrepared => "ROLLBACK PREPARED"
  }

  const MULTI_DDL := "tcl_multi_ddl_in_txn"

  predicate Opens(kind: TxnKind) {
    kind.Begin? || kind.Start?
  }

  predicate Closes(kind: TxnKind) {
    kind.Commit? || kind.Rollback?
  }

  function MultiActs(tcl: Tcl): seq<Action> {
    When(tcl.inTxn && tcl.ddlCount > 1, Adv(MULTI_DDL))
  }

  function KindActs(kind: TxnKind, tcl: Tcl): seq<Action> {
    match kind
    case Begin => [Note("tcl_begin")]
    case Start => [Note("tcl_begin")]
    case Commit => [Note("tcl_commit")] + MultiActs(tcl)
    case Rollback => [Note("tcl_rollback")] + MultiActs(tcl)
    case Savepoint => [Note("tcl_savepoint")]
    case Release => [Note("tcl_savepoint")]
    case RollbackTo => [Note("tcl_savepoint")]
    case Prepare => [Adv("tcl_prepared")]
    case CommitPrepared => [Adv("tcl_prepared")]
    case RollbackPrepared => [Adv("tcl_prepared")]
  }

  function TxnActs(kind: TxnKind, tcl: Tcl): seq<Action> {
    KindActs(kind, tcl) + [Write(MakeRecord("TCL", Some(KindStr(kind)), "tcl", Notice))]
  }

  function AfterTxn(kind: TxnKind, tcl: Tcl): Tcl {
    if Opens(kind) then Tcl(true, 0) else if Closes(kind) then IDLE else tcl
  }

  function AfterDdl(tcl: Tcl): Tcl {
    if tcl.inTxn then tcl.(ddlCount := tcl.ddlCount + 1) else tcl
  }

  class TxnState {
    var inExplicitTxn: bool
    var txnDdlCount: nat

    constructor ()
      ensures View() == IDLE
    {
      inExplicitTxn, txnDdlCount := false, 0;
    }

    function View(): Tcl
      reads this
    {
      Tcl(inExplicitTxn, txnDdlCount)
    }

    method NoteDdl()
      modifies this
      ensures View() == AfterDdl(old(View()))
      ensures inExplicitTxn == old(inExplicitTxn)
      ensures txnDdlCount == if old(inExplicitTxn) then old(txnDdlCount) + 1 else old(txnDdlCount)
    {
      if inExplicitTxn {
        txnDdlCount := txnDdlCount + 1;
      }
    }

    /** COMMIT and ROLLBACK differ only in the rule that echoes them. */
    method AuditClose(a: Auditor, echo: string) returns (aborted: bool)
      requires a.Valid()
      modifies this, a.log, a.log.slots
      ensures a.Valid()
      ensures Run(a.log.history, aborted)
           == Exec(a.Rules(), old(a.log.history), [Note(echo)] + MultiActs(old(View())))
      ensures View() == if aborted then old(View()) else IDLE
    {
      ExecAppend(a.Rules(), a.log.history, [Note(echo)], MultiActs(View()));
      aborted := a.Emit(Notice, echo);
      if aborted { return; }
      if inExplicitTxn && txnDdlCount > 1 {
        aborted := a.Emit(Warning, MULTI_DDL);
        if aborted { return; }
      }
      inExplicitTxn := false;
      txnDdlCount := 0;
    }

    method AuditKind(a: Auditor, kind: TxnKind) returns (aborted: bool)
      requires a.Valid()
      modifies this, a.log, a.log.slots
      ensures a.Valid()
      ensures Run(a.log.history, aborted) == Exec(a.Rules(), old(a.log.history), KindActs(kind, old(View())))
      ensures View() == if aborted then old(View()) else AfterTxn(kind, old(View()))
    {
      match kind {
        case Begin | Start =>
          aborted := a.Emit(Notice, "tcl_begin");
          if aborted { return; }
          inExplicitTxn := true;
          txnDdlCount := 0;
        case Commit =>
          aborted := AuditClose(a, "tcl_commit");
        case Rollback =>
          aborted := AuditClose(a, "tcl_rollback");
        case Savepoint | Release | RollbackTo =>
          aborted := a.Emit(Notice, "tcl_savepoint");
        case Prepare | CommitPrepared | RollbackPrepared =>
          aborted := a.Emit(Warning, "tcl_prepared");
      }
    }

    method AuditTransaction(a: Auditor, kind: TxnKind) returns (aborted: bool)
      requires a.Valid()
      modifies this, a.log, a.log.slots
      ensures a.Valid()
      ensures Run(a.log.history, aborted) == Exec(a.Rules(), old(a.log.history), TxnActs(kind, old(View())))
      ensures View() == if aborted then old(View()) else AfterTxn(kind, old(View()))
    {
      ghost var last := [Write(MakeRecord("TCL", Some(KindStr(kind)), "tcl", Notice))];
      ExecAppend(a.Rules(), a.log.history, KindActs(kind, View()), last);
      aborted := AuditKind(a, kind);
      if aborted { return; }
      a.log.Write("TCL", Some(KindStr(kind)), "tcl", Notice);
    }
  }
}
