/**
 * The ledger screens of the board: a manual entry (`novo_lancamento`),
 * recorded as already approved, and the approval of pending entries
 * (`aprovar_lancamentos` and its dialog's `aprovar_selecionado`).
 */
module Ledger {
  import opened Common
  import opened Store
  import opened Gateway
  import BrDate

  /** The approver id the manual-entry INSERT writes. */
  const ManualApprover := 1

  /**
   * The manual-entry form: the value after `float(...)` (`None` when it is
   * not a number), the movement type, and the account and description as
   * typed.
   */
  datatype EntryForm = EntryForm(valor: Option<real>, tipo: string, contaText: string, descricaoText: string)

  /** The row the INSERT writes: approved on the spot, by approver 1, at NOW(), with origin "manual". */
  function ManualRow(valor: real, tipo: string, conta: int, descricao: string, dir: int, now: int): Row {
    LancamentoRow(valor, tipo, Aprovado, dir, conta, descricao, "manual", Some(ManualApprover), Some(now))
  }

  /** What `salvar` ends in: the error box for a bad number, or the dialog closed. */
  datatype EntryOutcome = InvalidValues | Closed

  /**
   * `salvar`, given the account as `int(...)` read it: a value or an
   * account that does not convert shows the error and touches nothing;
   * otherwise the INSERT goes through `execute_query`, which swallows any
   * database error, and the dialog closes either way.
   */
  function EntryEffect(db: Db, form: EntryForm, conta: Option<int>, dir: int, env: Env): (r: (EntryOutcome, Db))
    ensures r.0 == InvalidValues <==> form.valor.None? || conta.None?
    ensures r.0 == InvalidValues ==> r.1 == db
  {
    if form.valor.None? || conta.None? then (InvalidValues, db)
    else
      var row := ManualRow(form.valor.value, form.tipo, conta.value, BrDate.Strip(form.descricaoText), dir, env.now);
      (Closed, QueryOutcome(db, Insert(row), env).1)
  }

  /** `novo_lancamento.salvar`, with the board's id `dir`. */
  method SaveEntry(mgr: DatabaseManager, form: EntryForm, dir: int, env: Env) returns (outcome: EntryOutcome)
    modifies mgr, mgr.server
    ensures (outcome, mgr.server.data) == EntryEffect(old(mgr.server.data), form, BrDate.PyInt(form.contaText), dir, env)
    ensures mgr.lent == old(mgr.lent)
    ensures mgr.acquired == old(mgr.acquired) + (if outcome == InvalidValues then 0 else 1)
  {
    var conta := BrDate.PyInt(form.contaText);
    if form.valor.None? || conta.None? {
      return InvalidValues;
    }
    var row := ManualRow(form.valor.value, form.tipo, conta.value, BrDate.Strip(form.descricaoText), dir, env.now);
    var _ := mgr.ExecuteQuery(Insert(row), env);
    outcome := Closed;
  }

  /**
   * A manual entry lands under the next ledger key exactly as typed, with
   * the description stripped, already approved by approver 1 at the
   * statement's NOW(); it keeps the store consistent. Nothing else changes.
   */
  lemma ManualEntryRecorded(db: Db, valor: real, tipo: string, conta: int, descricao: string, dir: int, env: Env)
    requires Consistent(db)
    requires !env.fault(db, Insert(ManualRow(valor, tipo, conta, descricao, dir, env.now)))
    ensures var row := ManualRow(valor, tipo, conta, descricao, dir, env.now);
            var d := QueryOutcome(db, Insert(row), env).1;
            && d == Added(db, row)
            && Rows(d, Lancamento)[Tbl(db, Lancamento).next] == row
            && row.status == Aprovado && row.origem == "manual"
            && row.idAprovador == Some(ManualApprover) && row.dataAprovacao == Some(env.now)
            && Consistent(d)
  {
    var row := ManualRow(valor, tipo, conta, descricao, dir, env.now);
    assert ParentsExist(db, row);
    InsertKeepsConsistent(db, row, env);
  }

  /** A failing INSERT leaves the ledger as it was, and the dialog still closes. */
  lemma ManualEntryLost(db: Db, form: EntryForm, conta: int, dir: int, env: Env)
    requires form.valor.Some?
    requires env.fault(db, Insert(ManualRow(form.valor.value, form.tipo, conta, BrDate.Strip(form.descricaoText), dir, env.now)))
    ensures EntryEffect(db, form, Some(conta), dir, env) == (Closed, db)
  {
    var row := ManualRow(form.valor.value, form.tipo, conta, BrDate.Strip(form.descricaoText), dir, env.now);
    assert Step(db, Insert(row), env) == Failure(DriverError);
    assert QueryOutcome(db, Insert(row), env).1 == db;
  }

  /** An account typed as digits, with blanks around it, is read as its number. */
  lemma AccountDigitsRead(n: nat)
    ensures BrDate.PyInt(" " + BrDate.Show(n) + " ") == Some(n)
  {
    var ds := BrDate.Show(n);
    BrDate.StripPadding(" ", ds, " ");
    BrDate.StripKeeps(ds);
    BrDate.PyIntShow(n);
  }

  // ---------------------------------------------------------------------------
  // Approving pending entries
  // ---------------------------------------------------------------------------

  /** The entries the approval dialog lists: every pending ledger row. */
  function PendingEntries(db: Db): set<int> {
    set k | k in Rows(db, Lancamento) && Rows(db, Lancamento)[k].LancamentoRow?
                                        && Rows(db, Lancamento)[k].status == Pendente
  }

  /**
   * `aprovar_lancamentos`: the dialog opens on the rows of the listing
   * query; no rows, or a failed query, show the notice instead.
   */
  method ListPending(mgr: DatabaseManager, listingSql: string, env: Env) returns (dialog: Option<(seq<string>, seq<seq<Value>>)>)
    modifies mgr, mgr.server
    ensures var q := QueryOutcome(old(mgr.server.data), Select(listingSql, []), env).0;
            dialog.Some? <==> q.data.Some? && q.data.value != []
    ensures dialog.Some? ==> dialog.value.1 == QueryOutcome(old(mgr.server.data), Select(listingSql, []), env).0.data.value
    ensures mgr.server.data == old(mgr.server.data)
    ensures mgr.lent == old(mgr.lent) && mgr.acquired == old(mgr.acquired) + 1
  {
    SelectCommitsNothing(mgr.server.data, listingSql, [], env);
    var q := mgr.ExecuteQuery(Select(listingSql, []), env);
    if q.data.None? || q.data.value == [] {
      return None;
    }
    return Some((q.columns.value, q.data.value));
  }

  /**
   * `aprovar_selecionado`: without a selection only a warning; otherwise
   * the selected entry is approved by the session's board member through
   * `execute_query` and the dialog closes.
   */
  method ApproveSelected(mgr: DatabaseManager, selection: Option<int>, dir: int, env: Env) returns (closed: bool)
    modifies mgr, mgr.server
    ensures closed <==> selection.Some?
    ensures selection.None? ==> mgr.server.data == old(mgr.server.data) && mgr.acquired == old(mgr.acquired)
    ensures selection.Some? ==>
              mgr.server.data == QueryOutcome(old(mgr.server.data), ApproveLedger(selection.value, dir), env).1
              && mgr.acquired == old(mgr.acquired) + 1
    ensures mgr.lent == old(mgr.lent)
  {
    if selection.None? {
      return false;
    }
    var _ := mgr.ExecuteQuery(ApproveLedger(selection.value, dir), env);
    return true;
  }

  /**
   * Approving a listed entry stamps it approved, by the approver, at NOW(),
   * keeps every other field, takes it off the pending list and touches no
   * other row.
   */
  lemma ApprovePending(db: Db, id: int, approver: int, env: Env)
    requires id in PendingEntries(db)
    requires !env.fault(db, ApproveLedger(id, approver))
    ensures var entry := Rows(db, Lancamento)[id];
            var d := QueryOutcome(db, ApproveLedger(id, approver), env).1;
            && id in Rows(d, Lancamento)
            && Rows(d, Lancamento)[id] == LancamentoRow(entry.valor, entry.tipoMovimentacao, Aprovado, entry.idDirecao,
                                                          entry.idConta, entry.descricao, entry.origem,
                                                          Some(approver), Some(env.now))
            && PendingEntries(d) == PendingEntries(db) - {id}
            && (forall k :: k in Rows(db, Lancamento) && k != id ==> k in Rows(d, Lancamento) && Rows(d, Lancamento)[k] == Rows(db, Lancamento)[k])
            && (forall t :: t != Lancamento ==> Tbl(d, t) == Tbl(db, t))
  {
    var d := QueryOutcome(db, ApproveLedger(id, approver), env).1;
    assert d == Replaced(db, Lancamento, id, Approved(Rows(db, Lancamento)[id], approver, env.now));
    assert PendingEntries(d) == PendingEntries(db) - {id} by {
      forall k
        ensures k in PendingEntries(d) <==> k in PendingEntries(db) - {id}
      {
      }
    }
  }

  /**
   * The UPDATE does not check the status: approving an entry that is
   * already approved stamps it again with the new approver and time.
   */
  lemma ReapprovalRestamps(db: Db, id: int, approver: int, env: Env)
    requires id in Rows(db, Lancamento) && Rows(db, Lancamento)[id].LancamentoRow?
    requires Rows(db, Lancamento)[id].status == Aprovado
    requires !env.fault(db, ApproveLedger(id, approver))
    ensures var r := Rows(QueryOutcome(db, ApproveLedger(id, approver), env).1, Lancamento)[id];
            r.status == Aprovado && r.idAprovador == Some(approver) && r.dataAprovacao == Some(env.now)
  {
    assert QueryOutcome(db, ApproveLedger(id, approver), env).1
        == Replaced(db, Lancamento, id, Approved(Rows(db, Lancamento)[id], approver, env.now));
  }

  /** An approval keeps every ledger row's approver and timestamp in step with its status. */
  lemma ApprovalKeepsConsistent(db: Db, id: int, approver: int, env: Env)
    requires Consistent(db)
    ensures Consistent(QueryOutcome(db, ApproveLedger(id, approver), env).1)
  {
    if After(db, ApproveLedger(id, approver), env).Success? {
      UpdateKeepsConsistent(db, ApproveLedger(id, approver), env);
    }
  }

  // ---------------------------------------------------------------------------
  // The status state machine
  // ---------------------------------------------------------------------------

  /**
   * Outside the stored procedures, a row that exists before and after a
   * statement changes only when the statement is the approval of that very
   * ledger entry (which stamps it approved) or the write-off of that very
   * asset (which marks it written off). Inserts only add rows under new
   * keys; deletes only remove rows.
   */
  lemma RowChangesOnlyByUpdate(db: Db, s: Statement, env: Env, t: TableName, k: int)
    requires WellKeyed(db) && !s.Call?
    requires After(db, s, env).Success?
    requires k in Rows(db, t) && k in Rows(After(db, s, env).value, t)
    requires Rows(After(db, s, env).value, t)[k] != Rows(db, t)[k]
    ensures var now := Rows(After(db, s, env).value, t)[k];
            || (s.ApproveLedger? && s.idLancamento == k && t == Lancamento
                && now == Approved(Rows(db, t)[k], s.idAprovador, env.now) && now.status == Aprovado)
            || (s.RetireAsset? && s.idBem == k && t == Bens
                && now == Retired(Rows(db, t)[k]) && now.status == Baixado)
  {
    match s
    case Insert(row) =>
    case DeleteWhere(u, owner) =>
    case ApproveLedger(id, approver) =>
    case RetireAsset(id) =>
    case Select(_, _) =>
  }
}
