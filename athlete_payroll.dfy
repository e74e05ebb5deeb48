/**
 * The squad payroll screen (`gerar_folha_elenco`): the sheet of active
 * athletes, the per-athlete edit pop-up, and the generation of one
 * `folha_elenco` batch with one `item_folha_e` per athlete, approved by
 * `sp_aprovar_folha_elenco` in the same transaction.
 */
module AthletePayroll {
  import opened Common
  import opened Store
  import opened Sheets
  import opened Gateway
  import BrDate

  /** A row of the active-roster query: id_elenco, nome_jogador, funcao and the latest base salary (0 if none). */
  datatype RosterRow = RosterRow(idElenco: int, nomeJogador: string, funcao: string, salarioBase: real)

  /** An athlete's entry on the sheet. */
  datatype AthleteItem = AthleteItem(salarioBase: real, bonus: real, direitoImagem: real,
                                     parcelaLuvas: real, descontos: real)

  /** The approver id and the chart-of-accounts id the screen passes to the procedure. */
  const Approver := 1
  const PayrollAccount := 8

  /** Every athlete starts on the base salary with all adjustments zero. */
  function Initial(rows: seq<RosterRow>): (entries: seq<(int, AthleteItem)>)
    ensures |entries| == |rows|
    ensures forall j :: 0 <= j < |rows| ==>
              entries[j] == (rows[j].idElenco, AthleteItem(rows[j].salarioBase, 0.0, 0.0, 0.0, 0.0))
  {
    seq(|rows|, j requires 0 <= j < |rows| => (rows[j].idElenco, AthleteItem(rows[j].salarioBase, 0.0, 0.0, 0.0, 0.0)))
  }

  /**
   * Opening the screen: no sheet when the roster query returned nothing
   * (no rows, or `(None, None)` after an error); otherwise the dict built
   * from the rows.
   */
  method OpenSheet(fetched: Option<seq<RosterRow>>) returns (sheet: Option<Sheet<AthleteItem>>)
    ensures sheet.None? <==> fetched.None? || fetched.value == []
    ensures sheet.Some? ==> fresh(sheet.value) && sheet.value.Valid()
    ensures sheet.Some? ==> (sheet.value.order, sheet.value.itens) == Collect(Initial(fetched.value))
  {
    if fetched.None? || fetched.value == [] {
      return None;
    }
    var s := new Sheet(Initial(fetched.value));
    return Some(s);
  }

  // ---------------------------------------------------------------------------
  // Totals over the sheet
  // ---------------------------------------------------------------------------

  /** The money fields of an entry, and its net pay. */
  datatype Field = Base | Bonus | ImageRights | Gloves | Discounts | NetPay

  function FieldOf(v: AthleteItem, f: Field): real {
    match f
    case Base => v.salarioBase
    case Bonus => v.bonus
    case ImageRights => v.direitoImagem
    case Gloves => v.parcelaLuvas
    case Discounts => v.descontos
    case NetPay => v.salarioBase + v.bonus + v.direitoImagem + v.parcelaLuvas - v.descontos
  }

  /** The sum of one field over the sheet, in iteration order. */
  function Total(order: seq<int>, itens: map<int, AthleteItem>, f: Field): real
    requires Covers(order, itens)
  {
    if order == [] then 0.0 else FieldOf(itens[order[0]], f) + Total(order[1..], itens, f)
  }

  /** The estimated net total is base + bonus + image rights + gloves instalment - discounts, summed separately. */
  lemma {:induction false} NetTotalSplits(order: seq<int>, itens: map<int, AthleteItem>)
    requires Covers(order, itens)
    ensures Total(order, itens, NetPay)
            == Total(order, itens, Base) + Total(order, itens, Bonus) + Total(order, itens, ImageRights)
               + Total(order, itens, Gloves) - Total(order, itens, Discounts)
  {
    if order != [] {
      NetTotalSplits(order[1..], itens);
    }
  }

  /** With every adjustment zero the net total is the sum of base salaries. */
  lemma {:induction false} UnadjustedNetIsBase(order: seq<int>, itens: map<int, AthleteItem>)
    requires Covers(order, itens)
    requires forall j :: 0 <= j < |order| ==>
               itens[order[j]].bonus == itens[order[j]].direitoImagem == itens[order[j]].parcelaLuvas
               == itens[order[j]].descontos == 0.0
    ensures Total(order, itens, NetPay) == Total(order, itens, Base)
  {
    if order != [] {
      assert forall j :: 0 <= j < |order[1..]| ==> order[1..][j] == order[j + 1];
      UnadjustedNetIsBase(order[1..], itens);
    }
  }

  /** The sum of the roster's base salaries. */
  function RosterBase(rows: seq<RosterRow>): real {
    if rows == [] then 0.0 else RosterBase(rows[..|rows| - 1]) + rows[|rows| - 1].salarioBase
  }

  lemma {:induction false} BaseTotalOfRoster(rows: seq<RosterRow>, itens: map<int, AthleteItem>)
    requires StartsOnBase(rows, itens)
    ensures Covers(Ids(Initial(rows)), itens)
    ensures Total(Ids(Initial(rows)), itens, Base) == RosterBase(rows)
  {
    if rows != [] {
      var prefix := rows[..|rows| - 1];
      assert StartsOnBase(prefix, itens) by {
        forall j | 0 <= j < |prefix|
          ensures prefix[j].idElenco in itens
          ensures itens[prefix[j].idElenco] == AthleteItem(prefix[j].salarioBase, 0.0, 0.0, 0.0, 0.0)
        {
          assert prefix[j] == rows[j];
        }
      }
      assert Initial(rows) == Initial(prefix) + [Initial(rows)[|rows| - 1]];
      assert Ids(Initial(rows)) == Ids(Initial(prefix)) + [rows[|rows| - 1].idElenco];
      BaseTotalOfRoster(prefix, itens);
      TotalAppend(Ids(Initial(prefix)), [rows[|rows| - 1].idElenco], itens, Base);
    }
  }

  lemma {:induction false} TotalAppend(a: seq<int>, b: seq<int>, itens: map<int, AthleteItem>, f: Field)
    requires Covers(a, itens) && Covers(b, itens)
    ensures Covers(a + b, itens)
    ensures Total(a + b, itens, f) == Total(a, itens, f) + Total(b, itens, f)
  {
    assert Covers(a + b, itens) by {
      forall j | 0 <= j < |a + b|
        ensures (a + b)[j] in itens
      {
        if j >= |a| {
          assert (a + b)[j] == b[j - |a|];
        }
      }
    }
    if a == [] {
      assert a + b == b;
    } else {
      assert (a + b)[1..] == a[1..] + b;
      TotalAppend(a[1..], b, itens, f);
    }
  }

  /** Each fetched athlete is on the sheet on base salary only. */
  predicate StartsOnBase(rows: seq<RosterRow>, itens: map<int, AthleteItem>) {
    forall j :: 0 <= j < |rows| ==>
      rows[j].idElenco in itens && itens[rows[j].idElenco] == AthleteItem(rows[j].salarioBase, 0.0, 0.0, 0.0, 0.0)
  }

  lemma OpenedEntry(rows: seq<RosterRow>, j: int)
    requires Distinct(Ids(Initial(rows)))
    requires 0 <= j < |rows|
    ensures rows[j].idElenco in Collect(Initial(rows)).1
    ensures Collect(Initial(rows)).1[rows[j].idElenco] == AthleteItem(rows[j].salarioBase, 0.0, 0.0, 0.0, 0.0)
  {
    DistinctIdsAreLast(Initial(rows), j);
    CollectAt(Initial(rows), j);
  }


  /**
   * A freshly opened sheet of distinct athletes lists them in query order,
   * each on base salary only, and its net total is the roster's base total:
   * generating without editing pays the base salaries.
   */
  lemma OpenedSheetPaysBase(rows: seq<RosterRow>)
    requires Distinct(Ids(Initial(rows)))
    ensures Collect(Initial(rows)).0 == Ids(Initial(rows))
    ensures StartsOnBase(rows, Collect(Initial(rows)).1)
    ensures Covers(Collect(Initial(rows)).0, Collect(Initial(rows)).1)
    ensures Total(Collect(Initial(rows)).0, Collect(Initial(rows)).1, NetPay) == RosterBase(rows)
  {
    var order := Collect(Initial(rows)).0;
    var itens := Collect(Initial(rows)).1;
    CollectOfDistinct(Initial(rows));
    forall j | 0 <= j < |rows|
      ensures rows[j].idElenco in itens && itens[rows[j].idElenco] == AthleteItem(rows[j].salarioBase, 0.0, 0.0, 0.0, 0.0)
    {
      OpenedEntry(rows, j);
    }
    assert StartsOnBase(rows, itens);
    ZeroAdjustmentsOfOpened(rows, order, itens);
    BaseTotalOfRoster(rows, itens);
  }

  lemma ZeroAdjustmentsOfOpened(rows: seq<RosterRow>, order: seq<int>, itens: map<int, AthleteItem>)
    requires order == Ids(Initial(rows)) && StartsOnBase(rows, itens)
    ensures Covers(order, itens)
    ensures Total(order, itens, NetPay) == Total(order, itens, Base)
  {
    forall j | 0 <= j < |order|
      ensures order[j] in itens
      ensures itens[order[j]].bonus == itens[order[j]].direitoImagem == itens[order[j]].parcelaLuvas
              == itens[order[j]].descontos == 0.0
    {
      assert order[j] == rows[j].idElenco;
    }
    UnadjustedNetIsBase(order, itens);
  }

  // ---------------------------------------------------------------------------
  // The edit pop-up
  // ---------------------------------------------------------------------------

  /**
   * The five fields of the pop-up after `float(text or 0)`, in the order
   * they are assigned; `None` where the text is not a number.
   */
  datatype AthleteForm = AthleteForm(salarioBase: Option<real>, bonus: Option<real>, direitoImagem: Option<real>,
                                     parcelaLuvas: Option<real>, descontos: Option<real>)

  predicate FormValid(f: AthleteForm) {
    f.salarioBase.Some? && f.bonus.Some? && f.direitoImagem.Some? && f.parcelaLuvas.Some? && f.descontos.Some?
  }

  /**
   * The pop-up's OK as written: the fields are assigned one at a time, so a
   * field that is not a number stops the assignments after the earlier
   * fields were already stored. The flag says whether all five were.
   */
  function ApplyAsWritten(v: AthleteItem, f: AthleteForm): (r: (AthleteItem, bool))
    ensures r.1 <==> FormValid(f)
  {
    if f.salarioBase.None? then (v, false)
    else
      var v1 := v.(salarioBase := f.salarioBase.value);
      if f.bonus.None? then (v1, false)
      else
        var v2 := v1.(bonus := f.bonus.value);
        if f.direitoImagem.None? then (v2, false)
        else
          var v3 := v2.(direitoImagem := f.direitoImagem.value);
          if f.parcelaLuvas.None? then (v3, false)
          else
            var v4 := v3.(parcelaLuvas := f.parcelaLuvas.value);
            if f.descontos.None? then (v4, false)
            else (v4.(descontos := f.descontos.value), true)
  }

  /** A rejected pop-up can still have changed the entry: a valid base followed by an invalid bonus keeps the new base. */
  lemma PartialEditKeepsBase(v: AthleteItem, base: real)
    requires base != v.salarioBase
    ensures var f := AthleteForm(Some(base), None, Some(0.0), Some(0.0), Some(0.0));
            && !ApplyAsWritten(v, f).1
            && ApplyAsWritten(v, f).0 != v
            && ApplyAsWritten(v, f).0.salarioBase == base
            && Apply(v, f).None?
  {
  }

  /** The pop-up's OK, all five fields or none: the entry the sheet keeps. */
  function Apply(v: AthleteItem, f: AthleteForm): (r: Option<AthleteItem>)
    ensures r.None? <==> !FormValid(f)
    ensures r.Some? ==> r.value == ApplyAsWritten(v, f).0
  {
    if FormValid(f) then
      Some(AthleteItem(f.salarioBase.value, f.bonus.value, f.direitoImagem.value, f.parcelaLuvas.value, f.descontos.value))
    else None
  }

  /** The pop-up opens pre-filled with the entry's own values; confirming them unchanged keeps the entry. */
  function Prefilled(v: AthleteItem): AthleteForm {
    AthleteForm(Some(v.salarioBase), Some(v.bonus), Some(v.direitoImagem), Some(v.parcelaLuvas), Some(v.descontos))
  }

  lemma PrefilledIsIdentity(v: AthleteItem)
    ensures Apply(v, Prefilled(v)) == Some(v)
  {
  }

  /** `ok()` as written: the assignments happen in order until a conversion fails. */
  method EditAsWritten(sheet: Sheet<AthleteItem>, id: int, f: AthleteForm) returns (ok: bool)
    requires sheet.Valid() && id in sheet.itens
    modifies sheet
    ensures sheet.Valid() && sheet.order == old(sheet.order)
    ensures sheet.itens == old(sheet.itens)[id := ApplyAsWritten(old(sheet.itens[id]), f).0]
    ensures ok == ApplyAsWritten(old(sheet.itens[id]), f).1
  {
    ok := false;
    if f.salarioBase.None? { return; }
    sheet.Put(id, sheet.itens[id].(salarioBase := f.salarioBase.value));
    if f.bonus.None? { return; }
    sheet.Put(id, sheet.itens[id].(bonus := f.bonus.value));
    if f.direitoImagem.None? { return; }
    sheet.Put(id, sheet.itens[id].(direitoImagem := f.direitoImagem.value));
    if f.parcelaLuvas.None? { return; }
    sheet.Put(id, sheet.itens[id].(parcelaLuvas := f.parcelaLuvas.value));
    if f.descontos.None? { return; }
    sheet.Put(id, sheet.itens[id].(descontos := f.descontos.value));
    ok := true;
  }

  /** `ok()` corrected: the entry changes only when every field converts. */
  method Edit(sheet: Sheet<AthleteItem>, id: int, f: AthleteForm) returns (ok: bool)
    requires sheet.Valid() && id in sheet.itens
    modifies sheet
    ensures sheet.Valid() && sheet.order == old(sheet.order)
    ensures ok <==> FormValid(f)
    ensures ok ==> sheet.itens == old(sheet.itens)[id := Apply(old(sheet.itens[id]), f).value]
    ensures !ok ==> sheet.itens == old(sheet.itens)
  {
    match Apply(sheet.itens[id], f)
    case None =>
      ok := false;
    case Some(w) =>
      sheet.Put(id, w);
      ok := true;
  }

  // ---------------------------------------------------------------------------
  // Generating the batch
  // ---------------------------------------------------------------------------

  /** The `item_folha_e` row of one athlete in batch `h`. */
  function ItemRow(h: int, id: int, v: AthleteItem): Row {
    ItemFolhaERow(v.salarioBase, v.bonus, v.direitoImagem, v.parcelaLuvas, v.descontos, h, id)
  }

  /** The item rows of batch `h`, in the sheet's iteration order. */
  function ItemRows(h: int, order: seq<int>, itens: map<int, AthleteItem>): (rs: seq<Row>)
    requires Covers(order, itens)
    ensures |rs| == |order|
    ensures forall j :: 0 <= j < |order| ==> rs[j] == ItemRow(h, order[j], itens[order[j]])
  {
    if order == [] then [] else [ItemRow(h, order[0], itens[order[0]])] + ItemRows(h, order[1..], itens)
  }

  /** The `folha_elenco` header: pending, carrying the sheet's total image rights. */
  function HeaderRow(comp: string, pag: string, order: seq<int>, itens: map<int, AthleteItem>, dir: int): Row
    requires Covers(order, itens)
  {
    FolhaElencoRow(comp, pag, Total(order, itens, ImageRights), Pendente, dir)
  }

  /** The id the header will receive, which the items and the procedure call use. */
  function BatchId(db: Db): int {
    Tbl(db, FolhaElenco).next
  }

  /** Header and items: what the transaction holds before the procedure call. */
  function Prepare(db: Db, comp: string, pag: string, order: seq<int>, itens: map<int, AthleteItem>, dir: int): seq<Statement>
    requires Covers(order, itens)
  {
    [Insert(HeaderRow(comp, pag, order, itens, dir))] + Inserts(ItemRows(BatchId(db), order, itens))
  }

  function Approval(db: Db): ProcCall {
    AprovarFolhaElenco(BatchId(db), Approver, PayrollAccount)
  }

  /** The whole transaction `gerar` runs. */
  function Script(db: Db, comp: string, pag: string, order: seq<int>, itens: map<int, AthleteItem>, dir: int): seq<Statement>
    requires Covers(order, itens)
  {
    Prepare(db, comp, pag, order, itens, dir) + [Call(Approval(db))]
  }

  /** What `gerar` reports. */
  datatype Outcome = InvalidDates | Generated(count: nat, total: real) | Failed(error: DbError)

  /**
   * `gerar`'s effect: invalid dates stop it before the database is touched;
   * otherwise the transaction either commits as a whole, reporting the
   * number of athletes and the estimated net total, or leaves the committed
   * data as it was.
   */
  function GenerateOutcome(db: Db, order: seq<int>, itens: map<int, AthleteItem>, dir: int,
                           compText: string, pagText: string, env: Env): (r: (Outcome, Db))
    requires Covers(order, itens)
    ensures r.0 == InvalidDates <==> BrDate.ParseDateBr(compText).None? || BrDate.ParseDateBr(pagText).None?
  {
    match (BrDate.ParseDateBr(compText), BrDate.ParseDateBr(pagText))
    case (Some(comp), Some(pag)) => Transaction(db, comp, pag, order, itens, dir, env)
    case _ => (InvalidDates, db)
  }

  /** The transaction on valid dates: all of it committed, or nothing. */
  function Transaction(db: Db, comp: string, pag: string, order: seq<int>, itens: map<int, AthleteItem>,
                       dir: int, env: Env): (r: (Outcome, Db))
    requires Covers(order, itens)
    ensures r.0 != InvalidDates
    ensures r.0.Failed? ==> r.1 == db
    ensures r.0.Generated? ==> r.0.count == |order| && r.0.total == Total(order, itens, NetPay)
  {
    match RunAll(db, Script(db, comp, pag, order, itens, dir), env)
    case Success(d) => (Generated(|order|, Total(order, itens, NetPay)), d)
    case Failure(e) => (Failed(e), db)
  }

  /** The transaction, statement group by statement group: header, items, procedure call. */
  lemma ScriptRuns(db: Db, comp: string, pag: string, order: seq<int>, itens: map<int, AthleteItem>, dir: int, env: Env)
    requires Covers(order, itens)
    ensures RunAll(db, Script(db, comp, pag, order, itens, dir), env)
            == ThenAfter(Then(After(db, Insert(HeaderRow(comp, pag, order, itens, dir)), env),
                              Inserts(ItemRows(BatchId(db), order, itens)), env),
                         Call(Approval(db)), env)
  {
    var header := Insert(HeaderRow(comp, pag, order, itens, dir));
    var items := Inserts(ItemRows(BatchId(db), order, itens));
    RunAllSnoc(db, Prepare(db, comp, pag, order, itens, dir), Call(Approval(db)), env);
    RunAllAppend(db, [header], items, env);
    RunAllSingle(db, header, env);
  }

  /**
   * `gerar`: parse both dates, then run the transaction. The connection is
   * taken only once both dates are valid.
   */
  method Generate(mgr: DatabaseManager, sheet: Sheet<AthleteItem>, dir: int, compText: string, pagText: string, env: Env)
    returns (outcome: Outcome)
    requires sheet.Valid()
    modifies mgr, mgr.server
    ensures (outcome, mgr.server.data) == GenerateOutcome(old(mgr.server.data), sheet.order, sheet.itens, dir, compText, pagText, env)
    ensures mgr.lent == old(mgr.lent)
    ensures mgr.acquired == old(mgr.acquired) + (if outcome == InvalidDates then 0 else 1)
  {
    var compSql := BrDate.ParseDateBr(compText);
    var pagSql := BrDate.ParseDateBr(pagText);
    if compSql.None? || pagSql.None? {
      return InvalidDates;
    }
    outcome := RunTransaction(mgr, sheet, dir, compSql.value, pagSql.value, env);
  }

  /**
   * The `with` block of `gerar`: run the batch on a pooled connection;
   * commit, or roll back on the first error. The connection is always
   * returned.
   */
  method RunTransaction(mgr: DatabaseManager, sheet: Sheet<AthleteItem>, dir: int, comp: string, pag: string, env: Env)
    returns (outcome: Outcome)
    requires sheet.Valid()
    modifies mgr, mgr.server
    ensures Covers(sheet.order, sheet.itens)
    ensures (outcome, mgr.server.data) == Transaction(old(mgr.server.data), comp, pag, sheet.order, sheet.itens, dir, env)
    ensures mgr.lent == old(mgr.lent) && mgr.acquired == old(mgr.acquired) + 1
  {
    assert Covers(sheet.order, sheet.itens);
    var conn := mgr.GetConnection();
    var r := RunBatch(conn, comp, pag, sheet.order, sheet.itens, dir, env);
    if r.Failure? {
      conn.Rollback();
      mgr.Release(conn);
      return Failed(r.error);
    }
    conn.Commit();
    mgr.Release(conn);
    return Generated(|sheet.order|, Total(sheet.order, sheet.itens, NetPay));
  }

  /**
   * The statements of the `with` block: insert the header, one item per
   * sheet entry under the header's new id, then call the approval
   * procedure, stopping at the first error.
   */
  method RunBatch(conn: Connection, comp: string, pag: string, order: seq<int>, itens: map<int, AthleteItem>,
                  dir: int, env: Env) returns (r: Result<(), DbError>)
    requires conn.isOpen && Covers(order, itens)
    modifies conn
    ensures conn.isOpen
    ensures match RunAll(old(conn.work), Script(old(conn.work), comp, pag, order, itens, dir), env)
            case Success(d) => r.Success? && conn.work == d
            case Failure(e) => r == Failure(e)
  {
    ScriptRuns(conn.work, comp, pag, order, itens, dir, env);
    var header := conn.Execute(Insert(HeaderRow(comp, pag, order, itens, dir)), env);
    if header.Failure? {
      return Failure(header.error);
    }
    var idFolha := header.value.lastRowId;
    var items := conn.InsertEach(ItemRows(idFolha, order, itens), env);
    if items.Failure? {
      return Failure(items.error);
    }
    var call := conn.Execute(Call(AprovarFolhaElenco(idFolha, Approver, PayrollAccount)), env);
    if call.Failure? {
      return Failure(call.error);
    }
    return Success(());
  }

  // ---------------------------------------------------------------------------
  // What a prepared batch looks like
  // ---------------------------------------------------------------------------

  /** The image-rights amounts of a list of stored item rows. */
  function StoredImageRights(rs: seq<Row>): real {
    if rs == [] then 0.0
    else (if rs[0].ItemFolhaERow? then rs[0].direitoImagem else 0.0) + StoredImageRights(rs[1..])
  }

  /** The header's aggregate is the sum of its items' image rights. */
  lemma {:induction false} HeaderAggregateMatchesItems(h: int, order: seq<int>, itens: map<int, AthleteItem>)
    requires Covers(order, itens)
    ensures StoredImageRights(ItemRows(h, order, itens)) == Total(order, itens, ImageRights)
  {
    if order != [] {
      assert ItemRows(h, order, itens)[1..] == ItemRows(h, order[1..], itens);
      HeaderAggregateMatchesItems(h, order[1..], itens);
    }
  }

  /** The data the transaction holds before the procedure call, or the first error. */
  function Prepared(db: Db, comp: string, pag: string, order: seq<int>, itens: map<int, AthleteItem>,
                    dir: int, env: Env): Result<Db, DbError>
    requires Covers(order, itens)
  {
    RunAll(db, Prepare(db, comp, pag, order, itens, dir), env)
  }

  /** The header and the items are appended to their tables under fresh ids. */
  lemma PreparedLayout(db: Db, comp: string, pag: string, order: seq<int>, itens: map<int, AthleteItem>,
                       dir: int, env: Env)
    requires WellKeyed(db) && Covers(order, itens)
    requires Prepared(db, comp, pag, order, itens, dir, env).Success?
    ensures var d1 := After(db, Insert(HeaderRow(comp, pag, order, itens, dir)), env);
            && d1.Success?
            && Appended(db, d1.value, FolhaElenco, BatchId(db), [HeaderRow(comp, pag, order, itens, dir)])
            && Appended(d1.value, Prepared(db, comp, pag, order, itens, dir, env).value, ItemFolhaE,
                        Tbl(db, ItemFolhaE).next, ItemRows(BatchId(db), order, itens))
  {
    HeaderThenItems(db, HeaderRow(comp, pag, order, itens, dir), ItemFolhaE, ItemRows(BatchId(db), order, itens), env);
  }

  /** Before the procedure runs the store is still consistent. */
  lemma PreparedConsistent(db: Db, comp: string, pag: string, order: seq<int>, itens: map<int, AthleteItem>,
                           dir: int, env: Env)
    requires Consistent(db) && Covers(order, itens)
    requires Prepared(db, comp, pag, order, itens, dir, env).Success?
    ensures Consistent(Prepared(db, comp, pag, order, itens, dir, env).value)
  {
    var prep := Prepare(db, comp, pag, order, itens, dir);
    assert PlainStatements(prep) by {
      forall j | 0 <= j < |prep|
        ensures !prep[j].Call? && (prep[j].Insert? ==> ApprovalConsistent(prep[j].row))
      {
      }
    }
    RunAllKeepsConsistent(db, prep, env);
  }

  /**
   * `d` holds, on top of `db`, one pending header under the new id carrying
   * the total image rights of its items, and one item per sheet entry under
   * consecutive fresh ids after the existing ones; no other row and no other
   * table changed.
   */
  ghost predicate BatchLaidOut(db: Db, d: Db, comp: string, pag: string, order: seq<int>,
                               itens: map<int, AthleteItem>, dir: int)
    requires Covers(order, itens)
  {
    var h := BatchId(db);
    var n0 := Tbl(db, ItemFolhaE).next;
    && h in Rows(d, FolhaElenco)
    && Rows(d, FolhaElenco)[h] == FolhaElencoRow(comp, pag, StoredImageRights(ItemRows(h, order, itens)), Pendente, dir)
    && (forall j :: 0 <= j < |order| ==> NewItem(d, n0, j, h, order, itens))
    && (forall k :: k in Rows(d, ItemFolhaE) <==> k in Rows(db, ItemFolhaE) || n0 <= k < n0 + |order|)
    && (forall k :: k in Rows(db, ItemFolhaE) ==> Rows(d, ItemFolhaE)[k] == Rows(db, ItemFolhaE)[k])
    && (forall u :: u != FolhaElenco && u != ItemFolhaE ==> Tbl(d, u) == Tbl(db, u))
  }

  /**
   * Before the procedure runs, the transaction holds the batch laid out as
   * `BatchLaidOut` says, and the procedure is called on exactly that data.
   */
  lemma PreparedBatch(db: Db, comp: string, pag: string, order: seq<int>, itens: map<int, AthleteItem>,
                      dir: int, env: Env, d: Db)
    requires WellKeyed(db) && Covers(order, itens)
    requires Prepared(db, comp, pag, order, itens, dir, env) == Success(d)
    ensures BatchLaidOut(db, d, comp, pag, order, itens, dir)
    ensures RunAll(db, Script(db, comp, pag, order, itens, dir), env) == After(d, Call(Approval(db)), env)
  {
    PreparedLayout(db, comp, pag, order, itens, dir, env);
    var d1 := After(db, Insert(HeaderRow(comp, pag, order, itens, dir)), env).value;
    LaidOutByAppends(db, d1, d, comp, pag, order, itens, dir);
    RunAllSnoc(db, Prepare(db, comp, pag, order, itens, dir), Call(Approval(db)), env);
  }

  /** Appending the header, then the items, lays the batch out. */
  lemma LaidOutByAppends(db: Db, d1: Db, d: Db, comp: string, pag: string, order: seq<int>,
                         itens: map<int, AthleteItem>, dir: int)
    requires Covers(order, itens)
    requires Appended(db, d1, FolhaElenco, BatchId(db), [HeaderRow(comp, pag, order, itens, dir)])
    requires Appended(d1, d, ItemFolhaE, Tbl(db, ItemFolhaE).next, ItemRows(BatchId(db), order, itens))
    ensures BatchLaidOut(db, d, comp, pag, order, itens, dir)
  {
    var h := BatchId(db);
    HeaderAggregateMatchesItems(h, order, itens);
    assert Tbl(d, FolhaElenco) == Tbl(d1, FolhaElenco);
    assert h in Rows(d1, FolhaElenco);
    assert Rows(d1, FolhaElenco)[h + 0] == [HeaderRow(comp, pag, order, itens, dir)][0];
    forall j | 0 <= j < |order|
      ensures NewItem(d, Tbl(db, ItemFolhaE).next, j, h, order, itens)
    {
      assert ItemRows(h, order, itens)[j] == ItemRow(h, order[j], itens[order[j]]);
    }
  }

  /** Row `n0 + j` of `item_folha_e` is the item of the `j`-th sheet entry in batch `h`. */
  ghost predicate NewItem(d: Db, n0: int, j: int, h: int, order: seq<int>, itens: map<int, AthleteItem>)
    requires 0 <= j < |order| && Covers(order, itens)
  {
    n0 + j in Rows(d, ItemFolhaE) && Rows(d, ItemFolhaE)[n0 + j] == ItemRow(h, order[j], itens[order[j]])
  }

  /**
   * The rows of `item_folha_e` that reference the new header are exactly
   * the new ones: no earlier item can reference an id that did not exist.
   */
  lemma PreparedBatchMembers(db: Db, d: Db, comp: string, pag: string, order: seq<int>,
                             itens: map<int, AthleteItem>, dir: int, k: int)
    requires Consistent(db) && Covers(order, itens)
    requires BatchLaidOut(db, d, comp, pag, order, itens, dir)
    requires k in Rows(d, ItemFolhaE)
    ensures var n0 := Tbl(db, ItemFolhaE).next;
            InBatch(Rows(d, ItemFolhaE)[k], BatchId(db)) <==> n0 <= k < n0 + |order|
  {
    var n0 := Tbl(db, ItemFolhaE).next;
    if !(n0 <= k < n0 + |order|) {
      OldItemPredatesBatch(db, k);
    } else {
      assert NewItem(d, n0, k - n0, BatchId(db), order, itens);
    }
  }

  /** An `item_folha_e` row of batch `h`. */
  predicate InBatch(r: Row, h: int) {
    r.ItemFolhaERow? && r.idFolhaElenco == h
  }

  lemma OldItemPredatesBatch(db: Db, k: int)
    requires Consistent(db) && k in Rows(db, ItemFolhaE)
    ensures !InBatch(Rows(db, ItemFolhaE)[k], BatchId(db))
  {
    var r := Rows(db, ItemFolhaE)[k];
    assert (FolhaElenco, r.idFolhaElenco) in Parents(r);
  }

  /**
   * Each athlete has exactly one item in the new batch: among the rows laid
   * out as `BatchLaidOut` describes (which `PreparedBatchMembers` shows are
   * all the batch's rows), no two are for the same athlete.
   */
  lemma OneItemPerAthlete(d: Db, n0: int, h: int, order: seq<int>, itens: map<int, AthleteItem>, k1: int, k2: int)
    requires Distinct(order) && Covers(order, itens)
    requires forall j :: 0 <= j < |order| ==> NewItem(d, n0, j, h, order, itens)
    requires n0 <= k1 < n0 + |order| && n0 <= k2 < n0 + |order|
    requires SameAthlete(Rows(d, ItemFolhaE), k1, k2)
    ensures k1 == k2
  {
    assert NewItem(d, n0, k1 - n0, h, order, itens);
    assert NewItem(d, n0, k2 - n0, h, order, itens);
  }

  /** Rows `k1` and `k2` are both `item_folha_e` rows, for the same athlete. */
  predicate SameAthlete(rows: map<int, Row>, k1: int, k2: int) {
    && k1 in rows && k2 in rows
    && rows[k1].ItemFolhaERow? && rows[k2].ItemFolhaERow?
    && rows[k1].idElenco == rows[k2].idElenco
  }

  /**
   * An athlete on the sheet who is no longer in `elenco` (the contract was
   * ended after the screen opened) makes the whole generation fail: the
   * item's foreign key cannot resolve, so nothing is committed.
   */
  lemma DepartedAthleteAbortsBatch(db: Db, comp: string, pag: string, order: seq<int>,
                                   itens: map<int, AthleteItem>, dir: int, env: Env, j: int)
    requires Consistent(db) && Covers(order, itens)
    requires 0 <= j < |order| && order[j] !in Rows(db, Elenco)
    ensures RunAll(db, Script(db, comp, pag, order, itens, dir), env).Failure?
  {
    var prepared := Prepared(db, comp, pag, order, itens, dir, env);
    if prepared.Success? {
      PreparedBatch(db, comp, pag, order, itens, dir, env, prepared.value);
      PreparedConsistent(db, comp, pag, order, itens, dir, env);
      DepartedAthleteBreaksBatch(db, prepared.value, comp, pag, order, itens, dir, j);
      assert false;
    }
    FailurePropagates(db, Prepare(db, comp, pag, order, itens, dir), [Call(Approval(db))], env);
  }

  /** A laid-out batch with an item for an athlete missing from `elenco` breaks a foreign key. */
  lemma DepartedAthleteBreaksBatch(db: Db, d: Db, comp: string, pag: string, order: seq<int>,
                                   itens: map<int, AthleteItem>, dir: int, j: int)
    requires Covers(order, itens) && BatchLaidOut(db, d, comp, pag, order, itens, dir)
    requires 0 <= j < |order| && order[j] !in Rows(db, Elenco)
    ensures !Consistent(d)
  {
    var k := Tbl(db, ItemFolhaE).next + j;
    assert NewItem(d, Tbl(db, ItemFolhaE).next, j, BatchId(db), order, itens);
    assert Tbl(d, Elenco) == Tbl(db, Elenco);
    if Consistent(d) {
      ItemNeedsAthlete(d, k);
    }
  }

  lemma ItemNeedsAthlete(d: Db, k: int)
    requires Consistent(d) && k in Rows(d, ItemFolhaE)
    ensures Rows(d, ItemFolhaE)[k].idElenco in Rows(d, Elenco)
  {
    var r := Rows(d, ItemFolhaE)[k];
    assert (Elenco, r.idElenco) in Parents(r);
  }
}
