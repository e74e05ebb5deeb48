/**
 * The staff payroll screen (`gerar_folha_funcionarios`): the sheet of the
 * board's employees, the per-employee pop-up for bonus, discounts and
 * extras, and the generation of one `folha_funcionarios` batch with one
 * `item_folha_f` per employee, approved by `sp_aprovar_folha_funcionarios`
 * in the same transaction.
 */
module StaffPayroll {
  import opened Common
  import opened Store
  import opened Sheets
  import opened Gateway
  import BrDate

  /** A row of the employee query: id_funcionario, id_contrato, cargo, setor, salario. */
  datatype StaffRow = StaffRow(idFuncionario: int, idContrato: Option<int>, cargo: string, setor: string,
                               salario: real)

  /** An employee's entry on the sheet. */
  datatype StaffItem = StaffItem(salarioBase: real, bonus: real, descontos: real, adicionais: real)

  /** The approver id and the chart-of-accounts id the screen passes to the procedure. */
  const Approver := 1
  const PayrollAccount := 9

  /** Every employee starts on the registered salary with all adjustments zero. */
  function Initial(rows: seq<StaffRow>): (entries: seq<(int, StaffItem)>)
    ensures |entries| == |rows|
    ensures forall j :: 0 <= j < |rows| ==>
              entries[j] == (rows[j].idFuncionario, StaffItem(rows[j].salario, 0.0, 0.0, 0.0))
  {
    seq(|rows|, j requires 0 <= j < |rows| => (rows[j].idFuncionario, StaffItem(rows[j].salario, 0.0, 0.0, 0.0)))
  }

  /**
   * Opening the screen: no sheet when the employee query returned nothing
   * (no rows, or `(None, None)` after an error); otherwise the dict built
   * from the rows.
   */
  method OpenSheet(fetched: Option<seq<StaffRow>>) returns (sheet: Option<Sheet<StaffItem>>)
    ensures sheet.None? <==> fetched.None? || fetched.value == []
    ensures sheet.Some? ==> fresh(sheet.value) && sheet.value.Valid()
    ensures sheet.Some? ==> (sheet.value.order, sheet.value.itens) == Collect(Initial(fetched.value))
  {
    if fetched.None? || fetched.value == [] {
      return None;
    }
    var s := new Sheet(Initial(fetched.value));
    return Some(s);
  }

  // ---------------------------------------------------------------------------
  // Totals over the sheet
  // ---------------------------------------------------------------------------

  /** The money fields of an entry, and its net pay. */
  datatype Field = Base | Bonus | Discounts | Extras | NetPay

  function FieldOf(v: StaffItem, f: Field): real {
    match f
    case Base => v.salarioBase
    case Bonus => v.bonus
    case Discounts => v.descontos
    case Extras => v.adicionais
    case NetPay => v.salarioBase + v.bonus + v.adicionais - v.descontos
  }

  /** The sum of one field over the sheet, in iteration order. */
  function Total(order: seq<int>, itens: map<int, StaffItem>, f: Field): real
    requires Covers(order, itens)
  {
    if order == [] then 0.0 else FieldOf(itens[order[0]], f) + Total(order[1..], itens, f)
  }

  /** The estimated net total is base + bonus + extras - discounts, summed separately. */
  lemma {:induction false} NetTotalSplits(order: seq<int>, itens: map<int, StaffItem>)
    requires Covers(order, itens)
    ensures Total(order, itens, NetPay)
            == Total(order, itens, Base) + Total(order, itens, Bonus) + Total(order, itens, Extras)
               - Total(order, itens, Discounts)
  {
    if order != [] {
      NetTotalSplits(order[1..], itens);
    }
  }

  /** Each fetched employee is on the sheet on the registered salary only. */
  predicate StartsOnSalary(rows: seq<StaffRow>, itens: map<int, StaffItem>) {
    forall j :: 0 <= j < |rows| ==>
      rows[j].idFuncionario in itens && itens[rows[j].idFuncionario] == StaffItem(rows[j].salario, 0.0, 0.0, 0.0)
  }

  /** With every adjustment zero the net total is the sum of base salaries. */
  lemma {:induction false} UnadjustedNetIsBase(order: seq<int>, itens: map<int, StaffItem>)
    requires Covers(order, itens)
    requires forall j :: 0 <= j < |order| ==>
               itens[order[j]].bonus == itens[order[j]].descontos == itens[order[j]].adicionais == 0.0
    ensures Total(order, itens, NetPay) == Total(order, itens, Base)
  {
    if order != [] {
      assert forall j :: 0 <= j < |order[1..]| ==> order[1..][j] == order[j + 1];
      UnadjustedNetIsBase(order[1..], itens);
    }
  }

  lemma OpenedEntry(rows: seq<StaffRow>, j: int)
    requires Distinct(Ids(Initial(rows)))
    requires 0 <= j < |rows|
    ensures rows[j].idFuncionario in Collect(Initial(rows)).1
    ensures Collect(Initial(rows)).1[rows[j].idFuncionario] == StaffItem(rows[j].salario, 0.0, 0.0, 0.0)
  {
    DistinctIdsAreLast(Initial(rows), j);
    CollectAt(Initial(rows), j);
  }

  /**
   * A freshly opened sheet of distinct employees lists them in query order,
   * each on the registered salary only, and its net total is its base total:
   * generating without editing pays the registered salaries.
   */
  lemma OpenedSheetPaysSalaries(rows: seq<StaffRow>)
    requires Distinct(Ids(Initial(rows)))
    ensures Collect(Initial(rows)).0 == Ids(Initial(rows))
    ensures StartsOnSalary(rows, Collect(Initial(rows)).1)
    ensures Covers(Collect(Initial(rows)).0, Collect(Initial(rows)).1)
    ensures Total(Collect(Initial(rows)).0, Collect(Initial(rows)).1, NetPay)
            == Total(Collect(Initial(rows)).0, Collect(Initial(rows)).1, Base)
  {
    var order := Collect(Initial(rows)).0;
    var itens := Collect(Initial(rows)).1;
    CollectOfDistinct(Initial(rows));
    forall j | 0 <= j < |rows|
      ensures rows[j].idFuncionario in itens && itens[rows[j].idFuncionario] == StaffItem(rows[j].salario, 0.0, 0.0, 0.0)
    {
      OpenedEntry(rows, j);
    }
    assert StartsOnSalary(rows, itens);
    ZeroAdjustmentsOfOpened(rows, order, itens);
  }

  lemma ZeroAdjustmentsOfOpened(rows: seq<StaffRow>, order: seq<int>, itens: map<int, StaffItem>)
    requires order == Ids(Initial(rows)) && StartsOnSalary(rows, itens)
    ensures Covers(order, itens)
    ensures Total(order, itens, NetPay) == Total(order, itens, Base)
  {
    forall j | 0 <= j < |order|
      ensures order[j] in itens
      ensures itens[order[j]].bonus == itens[order[j]].descontos == itens[order[j]].adicionais == 0.0
    {
      assert order[j] == rows[j].idFuncionario;
    }
    UnadjustedNetIsBase(order, itens);
  }

  // ---------------------------------------------------------------------------
  // The edit pop-up
  // ---------------------------------------------------------------------------

  /**
   * The three fields of the pop-up after `float(text or 0)`, in the order
   * they are assigned; `None` where the text is not a number. The base
   * salary is not on the pop-up.
   */
  datatype StaffForm = StaffForm(bonus: Option<real>, descontos: Option<real>, adicionais: Option<real>)

  predicate FormValid(f: StaffForm) {
    f.bonus.Some? && f.descontos.Some? && f.adicionais.Some?
  }

  /**
   * The pop-up's OK as written: the fields are assigned one at a time, so a
   * field that is not a number stops the assignments after the earlier
   * fields were already stored. The flag says whether all three were.
   */
  function ApplyAsWritten(v: StaffItem, f: StaffForm): (r: (StaffItem, bool))
    ensures r.1 <==> FormValid(f)
    ensures r.0.salarioBase == v.salarioBase
  {
    if f.bonus.None? then (v, false)
    else
      var v1 := v.(bonus := f.bonus.value);
      if f.descontos.None? then (v1, false)
      else
        var v2 := v1.(descontos := f.descontos.value);
        if f.adicionais.None? then (v2, false)
        else (v2.(adicionais := f.adicionais.value), true)
  }

  /** A rejected pop-up can still have changed the entry: a valid bonus followed by invalid discounts keeps the new bonus. */
  lemma PartialEditKeepsBonus(v: StaffItem, bonus: real)
    requires bonus != v.bonus
    ensures var f := StaffForm(Some(bonus), None, Some(0.0));
            && !ApplyAsWritten(v, f).1
            && ApplyAsWritten(v, f).0 != v
            && ApplyAsWritten(v, f).0.bonus == bonus
            && Apply(v, f).None?
  {
  }

  /** The pop-up's OK, all three fields or none; the base salary is never touched. */
  function Apply(v: StaffItem, f: StaffForm): (r: Option<StaffItem>)
    ensures r.None? <==> !FormValid(f)
    ensures r.Some? ==> r.value == ApplyAsWritten(v, f).0
    ensures r.Some? ==> r.value.salarioBase == v.salarioBase
  {
    if FormValid(f) then Some(StaffItem(v.salarioBase, f.bonus.value, f.descontos.value, f.adicionais.value))
    else None
  }

  /** The pop-up opens pre-filled with the entry's own values; confirming them unchanged keeps the entry. */
  function Prefilled(v: StaffItem): StaffForm {
    StaffForm(Some(v.bonus), Some(v.descontos), Some(v.adicionais))
  }

  lemma PrefilledIsIdentity(v: StaffItem)
    ensures Apply(v, Prefilled(v)) == Some(v)
  {
  }

  /** `ok()` as written: the assignments happen in order until a conversion fails. */
  method EditAsWritten(sheet: Sheet<StaffItem>, id: int, f: StaffForm) returns (ok: bool)
    requires sheet.Valid() && id in sheet.itens
    modifies sheet
    ensures sheet.Valid() && sheet.order == old(sheet.order)
    ensures sheet.itens == old(sheet.itens)[id := ApplyAsWritten(old(sheet.itens[id]), f).0]
    ensures ok == ApplyAsWritten(old(sheet.itens[id]), f).1
  {
    ok := false;
    if f.bonus.None? { return; }
    sheet.Put(id, sheet.itens[id].(bonus := f.bonus.value));
    if f.descontos.None? { return; }
    sheet.Put(id, sheet.itens[id].(descontos := f.descontos.value));
    if f.adicionais.None? { return; }
    sheet.Put(id, sheet.itens[id].(adicionais := f.adicionais.value));
    ok := true;
  }

  /** `ok()` corrected: the entry changes only when every field converts. */
  method Edit(sheet: Sheet<StaffItem>, id: int, f: StaffForm) returns (ok: bool)
    requires sheet.Valid() && id in sheet.itens
    modifies sheet
    ensures sheet.Valid() && sheet.order == old(sheet.order)
    ensures ok <==> FormValid(f)
    ensures ok ==> sheet.itens == old(sheet.itens)[id := Apply(old(sheet.itens[id]), f).value]
    ensures !ok ==> sheet.itens == old(sheet.itens)
  {
    match Apply(sheet.itens[id], f)
    case None =>
      ok := false;
    case Some(w) =>
      sheet.Put(id, w);
      ok := true;
  }

  // ---------------------------------------------------------------------------
  // Generating the batch
  // ---------------------------------------------------------------------------

  /** The `item_folha_f` row of one employee in batch `h`. */
  function ItemRow(h: int, id: int, v: StaffItem): Row {
    ItemFolhaFRow(v.salarioBase, v.bonus, v.descontos, v.adicionais, h, id)
  }

  /** The item rows of batch `h`, in the sheet's iteration order. */
  function ItemRows(h: int, order: seq<int>, itens: map<int, StaffItem>): (rs: seq<Row>)
    requires Covers(order, itens)
    ensures |rs| == |order|
    ensures forall j :: 0 <= j < |order| ==> rs[j] == ItemRow(h, order[j], itens[order[j]])
  {
    if order == [] then [] else [ItemRow(h, order[0], itens[order[0]])] + ItemRows(h, order[1..], itens)
  }

  /** The `folha_funcionarios` header: pending, no aggregate. */
  function HeaderRow(comp: string, pag: string, dir: int): Row {
    FolhaFuncionariosRow(comp, pag, Pendente, dir)
  }

  /** The id the header will receive, which the items and the procedure call use. */
  function BatchId(db: Db): int {
    Tbl(db, FolhaFuncionarios).next
  }

  /** Header and items: what the transaction holds before the procedure call. */
  function Prepare(db: Db, comp: string, pag: string, order: seq<int>, itens: map<int, StaffItem>, dir: int): seq<Statement>
    requires Covers(order, itens)
  {
    [Insert(HeaderRow(comp, pag, dir))] + Inserts(ItemRows(BatchId(db), order, itens))
  }

  function Approval(db: Db): ProcCall {
    AprovarFolhaFuncionarios(BatchId(db), Approver, PayrollAccount)
  }

  /** The whole transaction `gerar` runs. */
  function Script(db: Db, comp: string, pag: string, order: seq<int>, itens: map<int, StaffItem>, dir: int): seq<Statement>
    requires Covers(order, itens)
  {
    Prepare(db, comp, pag, order, itens, dir) + [Call(Approval(db))]
  }

  /** What `gerar` reports. */
  datatype Outcome = InvalidDates | Generated(count: nat, total: real) | Failed(error: DbError)

  /**
   * `gerar`'s effect: invalid dates stop it before the database is touched;
   * otherwise the transaction either commits as a whole, reporting the
   * number of employees and the estimated net total, or leaves the
   * committed data as it was.
   */
  function GenerateOutcome(db: Db, order: seq<int>, itens: map<int, StaffItem>, dir: int,
                           compText: string, pagText: string, env: Env): (r: (Outcome, Db))
    requires Covers(order, itens)
    ensures r.0 == InvalidDates <==> BrDate.ParseDateBr(compText).None? || BrDate.ParseDateBr(pagText).None?
  {
    match (BrDate.ParseDateBr(compText), BrDate.ParseDateBr(pagText))
    case (Some(comp), Some(pag)) => Transaction(db, comp, pag, order, itens, dir, env)
    case _ => (InvalidDates, db)
  }

  /** The transaction on valid dates: all of it committed, or nothing. */
  function Transaction(db: Db, comp: string, pag: string, order: seq<int>, itens: map<int, StaffItem>,
                       dir: int, env: Env): (r: (Outcome, Db))
    requires Covers(order, itens)
    ensures r.0 != InvalidDates
    ensures r.0.Failed? ==> r.1 == db
    ensures r.0.Generated? ==> r.0.count == |order| && r.0.total == Total(order, itens, NetPay)
  {
    match RunAll(db, Script(db, comp, pag, order, itens, dir), env)
    case Success(d) => (Generated(|order|, Total(order, itens, NetPay)), d)
    case Failure(e) => (Failed(e), db)
  }

  /** The transaction, statement group by statement group: header, items, procedure call. */
  lemma ScriptRuns(db: Db, comp: string, pag: string, order: seq<int>, itens: map<int, StaffItem>, dir: int, env: Env)
    requires Covers(order, itens)
    ensures RunAll(db, Script(db, comp, pag, order, itens, dir), env)
            == ThenAfter(Then(After(db, Insert(HeaderRow(comp, pag, dir)), env),
                              Inserts(ItemRows(BatchId(db), order, itens)), env),
                         Call(Approval(db)), env)
  {
    var header := Insert(HeaderRow(comp, pag, dir));
    var items := Inserts(ItemRows(BatchId(db), order, itens));
    RunAllSnoc(db, Prepare(db, comp, pag, order, itens, dir), Call(Approval(db)), env);
    RunAllAppend(db, [header], items, env);
    RunAllSingle(db, header, env);
  }

  /**
   * `gerar`: parse both dates, then run the transaction. The connection is
   * taken only once both dates are valid.
   */
  method Generate(mgr: DatabaseManager, sheet: Sheet<StaffItem>, dir: int, compText: string, pagText: string, env: Env)
    returns (outcome: Outcome)
    requires sheet.Valid()
    modifies mgr, mgr.server
    ensures (outcome, mgr.server.data) == GenerateOutcome(old(mgr.server.data), sheet.order, sheet.itens, dir, compText, pagText, env)
    ensures mgr.lent == old(mgr.lent)
    ensures mgr.acquired == old(mgr.acquired) + (if outcome == InvalidDates then 0 else 1)
  {
    var compSql := BrDate.ParseDateBr(compText);
    var pagSql := BrDate.ParseDateBr(pagText);
    if compSql.None? || pagSql.None? {
      return InvalidDates;
    }
    outcome := RunTransaction(mgr, sheet, dir, compSql.value, pagSql.value, env);
  }

  /**
   * The `with` block of `gerar`: run the batch on a pooled connection;
   * commit, or roll back on the first error. The connection is always
   * returned.
   */
  method RunTransaction(mgr: DatabaseManager, sheet: Sheet<StaffItem>, dir: int, comp: string, pag: string, env: Env)
    returns (outcome: Outcome)
    requires sheet.Valid()
    modifies mgr, mgr.server
    ensures Covers(sheet.order, sheet.itens)
    ensures (outcome, mgr.server.data) == Transaction(old(mgr.server.data), comp, pag, sheet.order, sheet.itens, dir, env)
    ensures mgr.lent == old(mgr.lent) && mgr.acquired == old(mgr.acquired) + 1
  {
    assert Covers(sheet.order, sheet.itens);
    var conn := mgr.GetConnection();
    var r := RunBatch(conn, comp, pag, sheet.order, sheet.itens, dir, env);
    if r.Failure? {
      conn.Rollback();
      mgr.Release(conn);
      return Failed(r.error);
    }
    conn.Commit();
    mgr.Release(conn);
    return Generated(|sheet.order|, Total(sheet.order, sheet.itens, NetPay));
  }

  /**
   * The statements of the `with` block: insert the header, one item per
   * sheet entry under the header's new id, then call the approval
   * procedure, stopping at the first error.
   */
  method RunBatch(conn: Connection, comp: string, pag: string, order: seq<int>, itens: map<int, StaffItem>,
                  dir: int, env: Env) returns (r: Result<(), DbError>)
    requires conn.isOpen && Covers(order, itens)
    modifies conn
    ensures conn.isOpen
    ensures match RunAll(old(conn.work), Script(old(conn.work), comp, pag, order, itens, dir), env)
            case Success(d) => r.Success? && conn.work == d
            case Failure(e) => r == Failure(e)
  {
    ScriptRuns(conn.work, comp, pag, order, itens, dir, env);
    var header := conn.Execute(Insert(HeaderRow(comp, pag, dir)), env);
    if header.Failure? {
      return Failure(header.error);
    }
    var idFolha := header.value.lastRowId;
    var items := conn.InsertEach(ItemRows(idFolha, order, itens), env);
    if items.Failure? {
      return Failure(items.error);
    }
    var call := conn.Execute(Call(AprovarFolhaFuncionarios(idFolha, Approver, PayrollAccount)), env);
    if call.Failure? {
      return Failure(call.error);
    }
    return Success(());
  }

  // ---------------------------------------------------------------------------
  // What a prepared batch looks like
  // ---------------------------------------------------------------------------

  /** The data the transaction holds before the procedure call, or the first error. */
  function Prepared(db: Db, comp: string, pag: string, order: seq<int>, itens: map<int, StaffItem>,
                    dir: int, env: Env): Result<Db, DbError>
    requires Covers(order, itens)
  {
    RunAll(db, Prepare(db, comp, pag, order, itens, dir), env)
  }

  /** The header and the items are appended to their tables under fresh ids. */
  lemma PreparedLayout(db: Db, comp: string, pag: string, order: seq<int>, itens: map<int, StaffItem>,
                       dir: int, env: Env)
    requires WellKeyed(db) && Covers(order, itens)
    requires Prepared(db, comp, pag, order, itens, dir, env).Success?
    ensures var d1 := After(db, Insert(HeaderRow(comp, pag, dir)), env);
            && d1.Success?
            && Appended(db, d1.value, FolhaFuncionarios, BatchId(db), [HeaderRow(comp, pag, dir)])
            && Appended(d1.value, Prepared(db, comp, pag, order, itens, dir, env).value, ItemFolhaF,
                        Tbl(db, ItemFolhaF).next, ItemRows(BatchId(db), order, itens))
  {
    HeaderThenItems(db, HeaderRow(comp, pag, dir), ItemFolhaF, ItemRows(BatchId(db), order, itens), env);
  }

  /** Before the procedure runs the store is still consistent. */
  lemma PreparedConsistent(db: Db, comp: string, pag: string, order: seq<int>, itens: map<int, StaffItem>,
                           dir: int, env: Env)
    requires Consistent(db) && Covers(order, itens)
    requires Prepared(db, comp, pag, order, itens, dir, env).Success?
    ensures Consistent(Prepared(db, comp, pag, order, itens, dir, env).value)
  {
    var prep := Prepare(db, comp, pag, order, itens, dir);
    assert PlainStatements(prep) by {
      forall j | 0 <= j < |prep|
        ensures !prep[j].Call? && (prep[j].Insert? ==> ApprovalConsistent(prep[j].row))
      {
      }
    }
    RunAllKeepsConsistent(db, prep, env);
  }

  /**
   * `d` holds, on top of `db`, one pending header under the new id and one
   * item per sheet entry under consecutive fresh ids after the existing
   * ones; no other row and no other table changed.
   */
  ghost predicate BatchLaidOut(db: Db, d: Db, comp: string, pag: string, order: seq<int>,
                               itens: map<int, StaffItem>, dir: int)
    requires Covers(order, itens)
  {
    var h := BatchId(db);
    var n0 := Tbl(db, ItemFolhaF).next;
    && h in Rows(d, FolhaFuncionarios)
    && Rows(d, FolhaFuncionarios)[h] == HeaderRow(comp, pag, dir)
    && (forall j :: 0 <= j < |order| ==> NewItem(d, n0, j, h, order, itens))
    && (forall k :: k in Rows(d, ItemFolhaF) <==> k in Rows(db, ItemFolhaF) || n0 <= k < n0 + |order|)
    && (forall k :: k in Rows(db, ItemFolhaF) ==> Rows(d, ItemFolhaF)[k] == Rows(db, ItemFolhaF)[k])
    && (forall u :: u != FolhaFuncionarios && u != ItemFolhaF ==> Tbl(d, u) == Tbl(db, u))
  }

  /**
   * Before the procedure runs, the transaction holds the batch laid out as
   * `BatchLaidOut` says, and the procedure is called on exactly that data.
   */
  lemma PreparedBatch(db: Db, comp: string, pag: string, order: seq<int>, itens: map<int, StaffItem>,
                      dir: int, env: Env, d: Db)
    requires WellKeyed(db) && Covers(order, itens)
    requires Prepared(db, comp, pag, order, itens, dir, env) == Success(d)
    ensures BatchLaidOut(db, d, comp, pag, order, itens, dir)
    ensures RunAll(db, Script(db, comp, pag, order, itens, dir), env) == After(d, Call(Approval(db)), env)
  {
    PreparedLayout(db, comp, pag, order, itens, dir, env);
    var d1 := After(db, Insert(HeaderRow(comp, pag, dir)), env).value;
    LaidOutByAppends(db, d1, d, comp, pag, order, itens, dir);
    RunAllSnoc(db, Prepare(db, comp, pag, order, itens, dir), Call(Approval(db)), env);
  }

  /** Appending the header, then the items, lays the batch out. */
  lemma LaidOutByAppends(db: Db, d1: Db, d: Db, comp: string, pag: string, order: seq<int>,
                         itens: map<int, StaffItem>, dir: int)
    requires Covers(order, itens)
    requires Appended(db, d1, FolhaFuncionarios, BatchId(db), [HeaderRow(comp, pag, dir)])
    requires Appended(d1, d, ItemFolhaF, Tbl(db, ItemFolhaF).next, ItemRows(BatchId(db), order, itens))
    ensures BatchLaidOut(db, d, comp, pag, order, itens, dir)
  {
    var h := BatchId(db);
    assert Tbl(d, FolhaFuncionarios) == Tbl(d1, FolhaFuncionarios);
    assert h in Rows(d1, FolhaFuncionarios);
    assert Rows(d1, FolhaFuncionarios)[h + 0] == [HeaderRow(comp, pag, dir)][0];
    forall j | 0 <= j < |order|
      ensures NewItem(d, Tbl(db, ItemFolhaF).next, j, h, order, itens)
    {
      assert ItemRows(h, order, itens)[j] == ItemRow(h, order[j], itens[order[j]]);
    }
  }

  /** Row `n0 + j` of `item_folha_f` is the item of the `j`-th sheet entry in batch `h`. */
  ghost predicate NewItem(d: Db, n0: int, j: int, h: int, order: seq<int>, itens: map<int, StaffItem>)
    requires 0 <= j < |order| && Covers(order, itens)
  {
    n0 + j in Rows(d, ItemFolhaF) && Rows(d, ItemFolhaF)[n0 + j] == ItemRow(h, order[j], itens[order[j]])
  }

  /** An `item_folha_f` row of batch `h`. */
  predicate InBatch(r: Row, h: int) {
    r.ItemFolhaFRow? && r.idFolhaFuncionarios == h
  }

  /**
   * The rows of `item_folha_f` that reference the new header are exactly
   * the new ones: no earlier item can reference an id that did not exist.
   */
  lemma PreparedBatchMembers(db: Db, d: Db, comp: string, pag: string, order: seq<int>,
                             itens: map<int, StaffItem>, dir: int, k: int)
    requires Consistent(db) && Covers(order, itens)
    requires BatchLaidOut(db, d, comp, pag, order, itens, dir)
    requires k in Rows(d, ItemFolhaF)
    ensures var n0 := Tbl(db, ItemFolhaF).next;
            InBatch(Rows(d, ItemFolhaF)[k], BatchId(db)) <==> n0 <= k < n0 + |order|
  {
    var n0 := Tbl(db, ItemFolhaF).next;
    if !(n0 <= k < n0 + |order|) {
      OldItemPredatesBatch(db, k);
    } else {
      assert NewItem(d, n0, k - n0, BatchId(db), order, itens);
    }
  }

  lemma OldItemPredatesBatch(db: Db, k: int)
    requires Consistent(db) && k in Rows(db, ItemFolhaF)
    ensures !InBatch(Rows(db, ItemFolhaF)[k], BatchId(db))
  {
    var r := Rows(db, ItemFolhaF)[k];
    assert (FolhaFuncionarios, r.idFolhaFuncionarios) in Parents(r);
  }

  /** Rows `k1` and `k2` are both `item_folha_f` rows, for the same employee. */
  predicate SameEmployee(rows: map<int, Row>, k1: int, k2: int) {
    && k1 in rows && k2 in rows
    && rows[k1].ItemFolhaFRow? && rows[k2].ItemFolhaFRow?
    && rows[k1].idFuncionario == rows[k2].idFuncionario
  }

  /**
   * Each employee has exactly one item in the new batch: among the rows laid
   * out as `BatchLaidOut` describes (which `PreparedBatchMembers` shows are
   * all the batch's rows), no two are for the same employee.
   */
  lemma OneItemPerEmployee(d: Db, n0: int, h: int, order: seq<int>, itens: map<int, StaffItem>, k1: int, k2: int)
    requires Distinct(order) && Covers(order, itens)
    requires forall j :: 0 <= j < |order| ==> NewItem(d, n0, j, h, order, itens)
    requires n0 <= k1 < n0 + |order| && n0 <= k2 < n0 + |order|
    requires SameEmployee(Rows(d, ItemFolhaF), k1, k2)
    ensures k1 == k2
  {
    assert NewItem(d, n0, k1 - n0, h, order, itens);
    assert NewItem(d, n0, k2 - n0, h, order, itens);
  }

  /**
   * An employee on the sheet who is no longer in `funcionarios` (dismissed
   * after the screen opened) makes the whole generation fail: the item's
   * foreign key cannot resolve, so nothing is committed.
   */
  lemma DismissedEmployeeAbortsBatch(db: Db, comp: string, pag: string, order: seq<int>,
                                     itens: map<int, StaffItem>, dir: int, env: Env, j: int)
    requires Consistent(db) && Covers(order, itens)
    requires 0 <= j < |order| && order[j] !in Rows(db, Funcionarios)
    ensures RunAll(db, Script(db, comp, pag, order, itens, dir), env).Failure?
  {
    var prepared := Prepared(db, comp, pag, order, itens, dir, env);
    if prepared.Success? {
      PreparedBatch(db, comp, pag, order, itens, dir, env, prepared.value);
      PreparedConsistent(db, comp, pag, order, itens, dir, env);
      DismissedEmployeeBreaksBatch(db, prepared.value, comp, pag, order, itens, dir, j);
      assert false;
    }
    FailurePropagates(db, Prepare(db, comp, pag, order, itens, dir), [Call(Approval(db))], env);
  }

  /** A laid-out batch with an item for an employee missing from `funcionarios` breaks a foreign key. */
  lemma DismissedEmployeeBreaksBatch(db: Db, d: Db, comp: string, pag: string, order: seq<int>,
                                     itens: map<int, StaffItem>, dir: int, j: int)
    requires Covers(order, itens) && BatchLaidOut(db, d, comp, pag, order, itens, dir)
    requires 0 <= j < |order| && order[j] !in Rows(db, Funcionarios)
    ensures !Consistent(d)
  {
    var k := Tbl(db, ItemFolhaF).next + j;
    assert NewItem(d, Tbl(db, ItemFolhaF).next, j, BatchId(db), order, itens);
    assert Tbl(d, Funcionarios) == Tbl(db, Funcionarios);
    if Consistent(d) {
      ItemNeedsEmployee(d, k);
    }
  }

  lemma ItemNeedsEmployee(d: Db, k: int)
    requires Consistent(d) && k in Rows(d, ItemFolhaF)
    ensures Rows(d, ItemFolhaF)[k].idFuncionario in Rows(d, Funcionarios)
  {
    var r := Rows(d, ItemFolhaF)[k];
    assert (Funcionarios, r.idFuncionario) in Parents(r);
  }
}
