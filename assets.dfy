/**
 * The asset screens: registering an asset (`adicionar_bem`), which inserts
 * a pending `bens` row plus the one specialisation row of its category and
 * approves it through `sp_aprovar_bem`, all in one transaction; and writing
 * an approved asset off (`dar_baixa_bem`).
 */
module Assets {
  import opened Common
  import opened Store
  import opened Gateway
  import BrDate

  /** The approver id the screen passes to the procedure. */
  const Approver := 1

  /**
   * The category-specific fields of the form, as the form holds them for
   * the chosen category; numeric fields after `float(...)`, `None` where
   * the text is not a number; the vehicle year after `int(...)`.
   */
  datatype SpecFields =
    | ImovelFields(endereco: string, area: Option<real>, tipoPropriedade: string, depreciacao: Option<real>)
    | AutomovelFields(tipoVeiculo: string, placa: string, ano: Option<int>, modelo: string)
    | MovelFields(depreciacao: Option<real>)

  /** The asset form: acquisition date as typed, name, value, location and the category's fields. */
  datatype AssetForm = AssetForm(dataText: string, nome: string, valor: Option<real>, local: string, spec: SpecFields)

  /** The category as the combo box names it. */
  function Tipo(spec: SpecFields): string {
    match spec
    case ImovelFields(_, _, _, _) => "imovel"
    case AutomovelFields(_, _, _, _) => "automovel"
    case MovelFields(_) => "movel"
  }

  /** The chart-of-accounts id of a category: imovel 2, automovel 3, anything else 4. */
  function AccountOf(tipo: string): (conta: int)
    ensures tipo == "imovel" <==> conta == 2
    ensures tipo == "automovel" <==> conta == 3
    ensures tipo != "imovel" && tipo != "automovel" <==> conta == 4
  {
    if tipo == "imovel" then 2 else if tipo == "automovel" then 3 else 4
  }

  /** The specialisation table of each category. */
  function SpecTable(spec: SpecFields): TableName {
    match spec
    case ImovelFields(_, _, _, _) => Imoveis
    case AutomovelFields(_, _, _, _) => Automoveis
    case MovelFields(_) => Moveis
  }

  predicate IsSpecTable(t: TableName) {
    t == Imoveis || t == Automoveis || t == Moveis
  }

  /** The row references asset `id`. */
  predicate RefersTo(r: Row, id: int) {
    (Bens, id) in Parents(r)
  }

  /**
   * `dia, mes, ano = data_br.split('/')` and `f"{ano}-{mes}-{dia}"`: the
   * parts are reordered as typed, without any check; anything but three
   * parts raises.
   */
  function AcquisitionDate(dataText: string): (r: Option<string>)
    ensures r.Some? <==> |BrDate.Split(dataText, '/')| == 3
  {
    var parts := BrDate.Split(dataText, '/');
    if |parts| != 3 then None else Some(parts[2] + "-" + parts[1] + "-" + parts[0])
  }

  /** Three parts are swapped into year-month-day order, whatever they hold. */
  lemma AcquisitionDateReorders(dia: string, mes: string, ano: string)
    requires '/' !in dia && '/' !in mes && '/' !in ano
    ensures AcquisitionDate(dia + "/" + mes + "/" + ano) == Some(ano + "-" + mes + "-" + dia)
  {
    BrDate.SplitThree(dia, mes, ano, '/');
  }

  /** The parts are not checked: text that is no date goes to the database as it is. */
  lemma AcquisitionDateUnchecked()
    ensures AcquisitionDate("aa/bb/cc") == Some("cc-bb-aa")
  {
    AcquisitionDateReorders("aa", "bb", "cc");
    assert "aa" + "/" + "bb" + "/" + "cc" == "aa/bb/cc";
    assert "cc" + "-" + "bb" + "-" + "aa" == "cc-bb-aa";
  }

  /** The pending `bens` row. */
  function BemRowOf(date: string, form: AssetForm, valor: real, dir: int): Row {
    BemRow(date, form.nome, valor, form.local, dir, Pendente)
  }

  /** The specialisation row for asset `idBem`, or `None` when a numeric field does not convert. */
  function SpecRow(idBem: int, spec: SpecFields): Option<Row> {
    match spec
    case ImovelFields(endereco, area, tipoProp, depreciacao) =>
      if area.None? || depreciacao.None? then None
      else Some(ImovelRow(idBem, endereco, area.value, tipoProp, depreciacao.value))
    case AutomovelFields(tipoVeiculo, placa, ano, modelo) =>
      if ano.None? then None else Some(AutomovelRow(idBem, tipoVeiculo, placa, ano.value, modelo))
    case MovelFields(depreciacao) =>
      if depreciacao.None? then None else Some(MovelRow(idBem, depreciacao.value))
  }

  /** The specialisation row goes to its category's table and references the asset and nothing else. */
  lemma SpecRowShape(idBem: int, spec: SpecFields)
    ensures SpecRow(idBem, spec).Some? ==>
              TableOf(SpecRow(idBem, spec).value) == SpecTable(spec)
              && Parents(SpecRow(idBem, spec).value) == [(Bens, idBem)]
  {
    match spec
    case ImovelFields(_, _, _, _) =>
    case AutomovelFields(_, _, _, _) =>
    case MovelFields(_) =>
  }

  /** The id the new asset receives. */
  function BemId(db: Db): int {
    Tbl(db, Bens).next
  }

  function Approval(idBem: int, spec: SpecFields): ProcCall {
    AprovarBem(idBem, Approver, AccountOf(Tipo(spec)))
  }

  /** What `salvar` reports. */
  datatype AssetOutcome = InvalidData | Registered(idBem: int) | Failed(error: DbError)

  /**
   * `salvar`'s effect. A date without three parts stops it before a
   * connection is taken; a value that is not a number stops it before any
   * statement. Otherwise the registration runs.
   */
  function RegisterOutcome(db: Db, form: AssetForm, dir: int, env: Env): (r: (AssetOutcome, Db))
    ensures !r.0.Registered? ==> r.1 == db
    ensures r.0.Registered? ==> r.0.idBem == BemId(db)
    ensures AcquisitionDate(form.dataText).None? || form.valor.None? ==> r.0 == InvalidData
  {
    match AcquisitionDate(form.dataText)
    case None => (InvalidData, db)
    case Some(date) =>
      if form.valor.None? then (InvalidData, db)
      else Registration(db, BemRowOf(date, form, form.valor.value, dir), form.spec, env)
  }

  /**
   * The transaction: the header, the specialisation row under the header's
   * id and the approval, committed as a whole or not at all.
   */
  function Registration(db: Db, bem: Row, spec: SpecFields, env: Env): (r: (AssetOutcome, Db))
    requires bem.BemRow?
    ensures !r.0.Registered? ==> r.1 == db
    ensures r.0.Registered? ==> r.0.idBem == BemId(db)
  {
    match After(db, Insert(bem), env)
    case Failure(e) => (Failed(e), db)
    case Success(d1) =>
      var c := Completion(d1, BemId(db), spec, env);
      if c.0.Registered? then c else (c.0, db)
  }

  /**
   * What follows the header insert: the specialisation row under the new id,
   * then the approval. A specialisation field that is not a number stops it
   * before its insert.
   */
  function Completion(d1: Db, idBem: int, spec: SpecFields, env: Env): (r: (AssetOutcome, Db))
    ensures r.0.Registered? ==> r.0.idBem == idBem
    ensures !r.0.Registered? ==> r.1 == d1
  {
    match SpecRow(idBem, spec)
    case None => (InvalidData, d1)
    case Some(sr) =>
      match After(d1, Insert(sr), env)
      case Failure(e) => (Failed(e), d1)
      case Success(d2) =>
        match After(d2, Call(Approval(idBem, spec)), env)
        case Failure(e) => (Failed(e), d1)
        case Success(d3) => (Registered(idBem), d3)
  }

  /**
   * `adicionar_bem.salvar`: the connection is taken once the date splits,
   * and returned on every path; a conversion error leaves the `with` block
   * without commit, so the pool's session reset drops the header.
   */
  method RegisterAsset(mgr: DatabaseManager, form: AssetForm, dir: int, env: Env) returns (outcome: AssetOutcome)
    modifies mgr, mgr.server
    ensures (outcome, mgr.server.data) == RegisterOutcome(old(mgr.server.data), form, dir, env)
    ensures mgr.lent == old(mgr.lent)
    ensures mgr.acquired == old(mgr.acquired) + (if AcquisitionDate(form.dataText).None? then 0 else 1)
  {
    var date := AcquisitionDate(form.dataText);
    if date.None? {
      return InvalidData;
    }
    var conn := mgr.GetConnection();
    if form.valor.None? {
      mgr.Release(conn);
      return InvalidData;
    }
    outcome := Register(conn, BemRowOf(date.value, form, form.valor.value, dir), form.spec, env);
    if outcome.Registered? {
      conn.Commit();
    } else if outcome.Failed? {
      conn.Rollback();
    }
    mgr.Release(conn);
  }

  /** The statements of the `with` block, on the open connection, up to the first error. */
  method Register(conn: Connection, bem: Row, spec: SpecFields, env: Env) returns (outcome: AssetOutcome)
    requires conn.isOpen && bem.BemRow?
    modifies conn
    ensures conn.isOpen
    ensures outcome == Registration(old(conn.work), bem, spec, env).0
    ensures outcome.Registered? ==> conn.work == Registration(old(conn.work), bem, spec, env).1
  {
    var header := conn.Execute(Insert(bem), env);
    if header.Failure? {
      return Failed(header.error);
    }
    outcome := Complete(conn, header.value.lastRowId, spec, env);
  }

  /** The specialisation insert and the approval, on the header's id. */
  method Complete(conn: Connection, idBem: int, spec: SpecFields, env: Env) returns (outcome: AssetOutcome)
    requires conn.isOpen
    modifies conn
    ensures conn.isOpen
    ensures outcome == Completion(old(conn.work), idBem, spec, env).0
    ensures outcome.Registered? ==> conn.work == Completion(old(conn.work), idBem, spec, env).1
  {
    var sr := SpecRow(idBem, spec);
    if sr.None? {
      return InvalidData;
    }
    var row := conn.Execute(Insert(sr.value), env);
    if row.Failure? {
      return Failed(row.error);
    }
    var call := conn.Execute(Call(Approval(idBem, spec)), env);
    if call.Failure? {
      return Failed(call.error);
    }
    return Registered(idBem);
  }

  /**
   * Before the procedure runs, the transaction holds the new pending asset
   * under its new id and exactly one specialisation row referencing it: the
   * new row of the category's table. No earlier specialisation row can
   * reference an id that did not exist.
   */
  lemma OneSpecialisation(db: Db, d1: Db, d2: Db, bem: Row, sr: Row, env: Env)
    requires WellKeyed(db) && ParentsPresent(db)
    requires TableOf(bem) == Bens && IsSpecTable(TableOf(sr)) && RefersTo(sr, BemId(db))
    requires After(db, Insert(bem), env) == Success(d1) && After(d1, Insert(sr), env) == Success(d2)
    ensures BemId(db) in Rows(d2, Bens) && Rows(d2, Bens)[BemId(db)] == bem
    ensures Tbl(db, TableOf(sr)).next in Rows(d2, TableOf(sr)) && Rows(d2, TableOf(sr))[Tbl(db, TableOf(sr)).next] == sr
    ensures forall u, k :: IsSpecTable(u) && k in Rows(d2, u) && RefersTo(Rows(d2, u)[k], BemId(db)) ==>
              u == TableOf(sr) && k == Tbl(db, u).next
  {
    assert d1 == Added(db, bem);
    assert d2 == Added(d1, sr);
    OnlyNewRowRefers(db, bem, sr);
  }

  lemma OnlyNewRowRefers(db: Db, bem: Row, sr: Row)
    requires WellKeyed(db) && ParentsPresent(db)
    requires TableOf(bem) == Bens && IsSpecTable(TableOf(sr))
    ensures var d2 := Added(Added(db, bem), sr);
            forall u, k :: IsSpecTable(u) && k in Rows(d2, u) && RefersTo(Rows(d2, u)[k], BemId(db)) ==>
              u == TableOf(sr) && k == Tbl(db, u).next
  {
    var d2 := Added(Added(db, bem), sr);
    forall u, k | IsSpecTable(u) && k in Rows(d2, u) && RefersTo(Rows(d2, u)[k], BemId(db))
      ensures u == TableOf(sr) && k == Tbl(db, u).next
    {
      if !(u == TableOf(sr) && k == Tbl(db, u).next) {
        assert k in Rows(db, u) && Rows(d2, u)[k] == Rows(db, u)[k];
        OldRowPredatesAsset(db, u, k);
      }
    }
  }

  lemma OldRowPredatesAsset(db: Db, u: TableName, k: int)
    requires WellKeyed(db) && ParentsPresent(db) && k in Rows(db, u)
    ensures !RefersTo(Rows(db, u)[k], BemId(db))
  {
  }

  /**
   * A registered asset went through exactly these steps: the pending
   * header, then the specialisation row of its category under the header's
   * id, then `sp_aprovar_bem` with the category's account.
   */
  lemma RegisteredSteps(db: Db, bem: Row, spec: SpecFields, env: Env)
    requires bem.BemRow?
    requires Registration(db, bem, spec, env).0.Registered?
    ensures SpecRow(BemId(db), spec).Some?
    ensures var sr := SpecRow(BemId(db), spec).value;
            && After(db, Insert(bem), env).Success?
            && After(After(db, Insert(bem), env).value, Insert(sr), env).Success?
            && Registration(db, bem, spec, env).1
               == After(After(After(db, Insert(bem), env).value, Insert(sr), env).value,
                        Call(AprovarBem(BemId(db), Approver, AccountOf(Tipo(spec)))), env).value
  {
  }

  // ---------------------------------------------------------------------------
  // Writing an asset off
  // ---------------------------------------------------------------------------

  /** The write-off listing: this board's approved assets. */
  function ApprovedAssets(db: Db, dir: int): set<int> {
    set k | k in Rows(db, Bens) && Rows(db, Bens)[k].BemRow? && Rows(db, Bens)[k].status == Aprovado
                                 && Rows(db, Bens)[k].idDirecao == dir
  }

  /** `dar_baixa_bem.on_confirm`: one UPDATE through `execute_query`. */
  method WriteOff(mgr: DatabaseManager, idBem: int, env: Env)
    modifies mgr, mgr.server
    ensures mgr.server.data == QueryOutcome(old(mgr.server.data), RetireAsset(idBem), env).1
    ensures mgr.lent == old(mgr.lent) && mgr.acquired == old(mgr.acquired) + 1
  {
    var _ := mgr.ExecuteQuery(RetireAsset(idBem), env);
  }

  /**
   * A write-off changes one asset's status to `baixado` and nothing else;
   * an id that is not an asset changes nothing, and neither does a failing
   * statement.
   */
  lemma WriteOffEffect(db: Db, idBem: int, env: Env)
    ensures var d := QueryOutcome(db, RetireAsset(idBem), env).1;
            && (forall u :: u != Bens ==> Tbl(d, u) == Tbl(db, u))
            && Tbl(d, Bens).next == Tbl(db, Bens).next
            && (forall k :: k in Rows(d, Bens) <==> k in Rows(db, Bens))
            && (forall k :: k in Rows(db, Bens) && k != idBem ==> Rows(d, Bens)[k] == Rows(db, Bens)[k])
            && (idBem in Rows(db, Bens) ==>
                  Rows(d, Bens)[idBem] == if env.fault(db, RetireAsset(idBem)) then Rows(db, Bens)[idBem]
                                          else Retired(Rows(db, Bens)[idBem]))
  {
  }

  /**
   * Writing off a listed asset moves it from `aprovado` to `baixado`,
   * keeping every other field; it leaves the listing.
   */
  lemma WriteOffListed(db: Db, dir: int, idBem: int, env: Env)
    requires idBem in ApprovedAssets(db, dir)
    requires !env.fault(db, RetireAsset(idBem))
    ensures var d := QueryOutcome(db, RetireAsset(idBem), env).1;
            && idBem in Rows(d, Bens)
            && Rows(d, Bens)[idBem] == Rows(db, Bens)[idBem].(status := Baixado)
            && ApprovedAssets(d, dir) == ApprovedAssets(db, dir) - {idBem}
  {
    var d := QueryOutcome(db, RetireAsset(idBem), env).1;
    assert d == Replaced(db, Bens, idBem, Retired(Rows(db, Bens)[idBem]));
    assert ApprovedAssets(d, dir) == ApprovedAssets(db, dir) - {idBem} by {
      forall k
        ensures k in ApprovedAssets(d, dir) <==> k in ApprovedAssets(db, dir) - {idBem}
      {
      }
    }
  }

  /**
   * Only the listing restricts write-offs to approved assets: the UPDATE
   * itself has no status condition, so a pending asset id reaching it is
   * written off as well.
   */
  lemma WriteOffUnguarded(db: Db, idBem: int, env: Env)
    requires idBem in Rows(db, Bens) && Rows(db, Bens)[idBem].BemRow? && Rows(db, Bens)[idBem].status == Pendente
    requires !env.fault(db, RetireAsset(idBem))
    ensures Rows(QueryOutcome(db, RetireAsset(idBem), env).1, Bens)[idBem].status == Baixado
  {
    assert QueryOutcome(db, RetireAsset(idBem), env).1 == Replaced(db, Bens, idBem, Retired(Rows(db, Bens)[idBem]));
  }
}
