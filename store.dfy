/**
 * The club's MySQL database as an abstract store: a map from table name to
 * rows keyed by their AUTO_INCREMENT id, and the statements the
 * record-keeping screens send to it. SQL evaluation, the clock, driver
 * failures and the `sp_aprovar_*` stored procedures are parameters (`Env`).
 *
 * Foreign keys are part of the store's behaviour: a child row cannot be
 * inserted without its parent rows, and a parent row that some child row
 * still references cannot be deleted.
 */
module Store {
  import opened Common

  /** `status` / `status_aprovacao`: pendente, aprovado, baixado (assets only). */
  datatype Status = Pendente | Aprovado | Baixado

  datatype TableName =
    | Lancamento | FolhaElenco | ItemFolhaE | FolhaFuncionarios | ItemFolhaF
    | Bens | Imoveis | Automoveis | Moveis | Elenco | Funcionarios | Contratado | Terceirizado

  /** One row of each table the core writes; money is `real` (no rounding). */
  datatype Row =
    | LancamentoRow(valor: real, tipoMovimentacao: string, status: Status, idDirecao: int,
                    idConta: int, descricao: string, origem: string,
                    idAprovador: Option<int>, dataAprovacao: Option<int>)
    | FolhaElencoRow(dataCompetencia: string, dataPagamento: string,
                     valorDireitosImagem: real, status: Status, idDirecao: int)
    | ItemFolhaERow(salarioBase: real, bonus: real, direitoImagem: real, parcelaLuvas: real,
                    descontos: real, idFolhaElenco: int, idElenco: int)
    | FolhaFuncionariosRow(dataCompetencia: string, dataPagamento: string, status: Status,
                           idDirecao: int)
    | ItemFolhaFRow(salarioBase: real, bonus: real, descontos: real, adicionais: real,
                    idFolhaFuncionarios: int, idFuncionario: int)
    | BemRow(dataAquisicao: string, nomeItem: string, valorAquisicao: real,
             localizacao: string, idDirecao: int, status: Status)
    | ImovelRow(idBem: int, endereco: string, area: real, tipoPropriedade: string,
                depreciacaoAno: real)
    | AutomovelRow(idBem: int, tipoVeiculo: string, placa: string, ano: int, modelo: string)
    | MovelRow(idBem: int, depreciacaoAno: real)
    | ElencoRow(nomeJogador: string, funcao: string, idDirecao: int)
    | FuncionarioRow(cargo: string, setor: string, salario: real, idDirecao: int)
    | ContratadoRow(idFuncionario: int, dataAdmissao: string)
    | TerceirizadoRow(idFuncionario: int)

  /** The table a row belongs to. */
  function TableOf(r: Row): TableName {
    match r
    case LancamentoRow(_, _, _, _, _, _, _, _, _) => Lancamento
    case FolhaElencoRow(_, _, _, _, _) => FolhaElenco
    case ItemFolhaERow(_, _, _, _, _, _, _) => ItemFolhaE
    case FolhaFuncionariosRow(_, _, _, _) => FolhaFuncionarios
    case ItemFolhaFRow(_, _, _, _, _, _) => ItemFolhaF
    case BemRow(_, _, _, _, _, _) => Bens
    case ImovelRow(_, _, _, _, _) => Imoveis
    case AutomovelRow(_, _, _, _, _) => Automoveis
    case MovelRow(_, _) => Moveis
    case ElencoRow(_, _, _) => Elenco
    case FuncionarioRow(_, _, _, _) => Funcionarios
    case ContratadoRow(_, _) => Contratado
    case TerceirizadoRow(_) => Terceirizado
  }

  /** The foreign keys of a row: the (table, id) of every row it references. */
  function Parents(r: Row): seq<(TableName, int)> {
    match r
    case ItemFolhaERow(_, _, _, _, _, f, e) => [(FolhaElenco, f), (Elenco, e)]
    case ItemFolhaFRow(_, _, _, _, f, e) => [(FolhaFuncionarios, f), (Funcionarios, e)]
    case ImovelRow(b, _, _, _, _) => [(Bens, b)]
    case AutomovelRow(b, _, _, _, _) => [(Bens, b)]
    case MovelRow(b, _) => [(Bens, b)]
    case ContratadoRow(f, _) => [(Funcionarios, f)]
    case TerceirizadoRow(f) => [(Funcionarios, f)]
    case _ => []
  }

  /** The tables whose rows reference other rows. */
  const ChildTables: seq<TableName> :=
    [ItemFolhaE, ItemFolhaF, Imoveis, Automoveis, Moveis, Contratado, Terceirizado]

  /** The column a `DELETE ... WHERE id_elenco = %s` / `id_funcionario = %s` filters on. */
  function OwnerOf(k: int, r: Row): int {
    match r
    case ItemFolhaERow(_, _, _, _, _, _, e) => e
    case ItemFolhaFRow(_, _, _, _, _, f) => f
    case ContratadoRow(f, _) => f
    case TerceirizadoRow(f) => f
    case _ => k
  }

  /** A table: rows by primary key, and the next AUTO_INCREMENT value. */
  datatype Table = Table(rows: map<int, Row>, next: int)

  type Db = map<TableName, Table>

  /** A table of the store; a table never written is empty and numbers from 1. */
  function Tbl(db: Db, t: TableName): Table {
    if t in db then db[t] else Table(map[], 1)
  }

  function Rows(db: Db, t: TableName): map<int, Row> {
    Tbl(db, t).rows
  }

  /** Every parent a row references is present. */
  predicate ParentsExist(db: Db, r: Row) {
    forall p | p in Parents(r) :: p.1 in Rows(db, p.0)
  }

  /** Some row of a child table still references row `k` of table `t`. */
  predicate Referenced(db: Db, t: TableName, k: int) {
    exists i, j | 0 <= i < |ChildTables| && j in Rows(db, ChildTables[i]) ::
      (t, k) in Parents(Rows(db, ChildTables[i])[j])
  }

  /** The approval invariant of a ledger row: approver and timestamp are set together, exactly when approved. */
  predicate ApprovalConsistent(r: Row) {
    r.LancamentoRow? ==>
      && (r.idAprovador.Some? <==> r.dataAprovacao.Some?)
      && (r.status == Aprovado <==> r.idAprovador.Some?)
  }

  /** Keys are below the AUTO_INCREMENT counter and every row sits in its own table. */
  ghost predicate WellKeyed(db: Db) {
    && (forall t :: Tbl(db, t).next >= 1)
    && (forall t, k :: k in Rows(db, t) ==> 1 <= k < Tbl(db, t).next && TableOf(Rows(db, t)[k]) == t)
  }

  /** Referential integrity: every row's parents are present. */
  ghost predicate ParentsPresent(db: Db) {
    forall t, k :: k in Rows(db, t) ==> ParentsExist(db, Rows(db, t)[k])
  }

  ghost predicate LedgerConsistent(db: Db) {
    forall k :: k in Rows(db, Lancamento) ==> ApprovalConsistent(Rows(db, Lancamento)[k])
  }

  /** The invariant the store keeps between statements. */
  ghost predicate Consistent(db: Db) {
    WellKeyed(db) && ParentsPresent(db) && LedgerConsistent(db)
  }

  // ---------------------------------------------------------------------------
  // Statements and their effect
  // ---------------------------------------------------------------------------

  /** The stored procedures, called with (id, approver, account). */
  datatype ProcCall =
    | AprovarFolhaElenco(idFolha: int, idAprovador: int, idConta: int)
    | AprovarFolhaFuncionarios(idFolha: int, idAprovador: int, idConta: int)
    | AprovarBem(idBem: int, idAprovador: int, idConta: int)

  datatype Value = IntVal(i: int) | RealVal(r: real) | TextVal(s: string) | NullVal

  datatype Statement =
    | Insert(row: Row)                                 // INSERT INTO <TableOf(row)> VALUES ...
    | DeleteWhere(table: TableName, owner: int)        // DELETE FROM table WHERE <owner column> = owner
    | ApproveLedger(idLancamento: int, idAprovador: int)
        // UPDATE lancamento SET status_aprovacao = 'aprovado', id_aprovador, data_aprovacao = NOW()
    | RetireAsset(idBem: int)                          // UPDATE bens SET status_aprovacao = 'baixado'
    | Call(proc: ProcCall)                             // CALL sp_aprovar_*(...)
    | Select(sql: string, params: seq<Value>)          // a statement with result columns

  /** What the cursor holds after a statement: a result description and rows, or `lastrowid`. */
  datatype Output = ResultSet(columns: seq<string>, data: seq<seq<Value>>) | NoResult(lastRowId: int)

  /** `mysql.connector.Error` and its causes. */
  datatype DbError = ForeignKeyViolation | DriverError | ProcedureError | QueryError

  /**
   * What the store does not decide by itself: the clock read by NOW(), a
   * driver failure on any statement, the stored procedures (which may fail)
   * and the evaluation of SELECT text.
   */
  datatype Env = Env(
    now: int,
    fault: (Db, Statement) -> bool,
    proc: (Db, ProcCall) -> Option<Db>,
    query: (Db, string, seq<Value>) -> Option<(seq<string>, seq<seq<Value>>)>)

  ghost predicate NoFaults(env: Env) {
    forall db, s :: !env.fault(db, s)
  }

  /** Rows of `t` a `DELETE ... WHERE <owner column> = owner` removes. */
  predicate Doomed(db: Db, t: TableName, owner: int, k: int)
    requires k in Rows(db, t)
  {
    OwnerOf(k, Rows(db, t)[k]) == owner
  }

  function Put(db: Db, t: TableName, rows: map<int, Row>, next: int): Db {
    db[t := Table(rows, next)]
  }

  /** `row` stored in its table under the AUTO_INCREMENT key, which moves on by one. */
  function Added(db: Db, row: Row): Db {
    var t := TableOf(row);
    var tb := Tbl(db, t);
    Put(db, t, tb.rows[tb.next := row], tb.next + 1)
  }

  /** The delete would remove a row some child row still references (ON DELETE RESTRICT). */
  predicate DeleteBlocked(db: Db, t: TableName, owner: int) {
    exists k | k in Rows(db, t) :: Doomed(db, t, owner, k) && Referenced(db, t, k)
  }

  /** Table `t` without the rows whose owner column is `owner`; the counter is kept. */
  function Removed(db: Db, t: TableName, owner: int): Db {
    var tb := Tbl(db, t);
    Put(db, t, map k | k in tb.rows && !Doomed(db, t, owner, k) :: tb.rows[k], tb.next)
  }

  /** Row `k` of table `t` replaced by `r`. */
  function Replaced(db: Db, t: TableName, k: int, r: Row): Db {
    var tb := Tbl(db, t);
    Put(db, t, tb.rows[k := r], tb.next)
  }

  /** A ledger row after `aprovar_selecionado`'s UPDATE: approved, by whom, when. */
  function Approved(r: Row, approver: int, now: int): (a: Row)
    ensures r.LancamentoRow? ==> ApprovalConsistent(a) && Parents(a) == Parents(r)
  {
    match r
    case LancamentoRow(valor, tipo, _, dir, conta, desc, origem, _, _) =>
      LancamentoRow(valor, tipo, Aprovado, dir, conta, desc, origem, Some(approver), Some(now))
    case _ => r
  }

  /** An asset row after `dar_baixa`'s UPDATE: written off, nothing else changed. */
  function Retired(r: Row): (a: Row)
    ensures TableOf(a) == TableOf(r) && Parents(a) == Parents(r)
    ensures r.BemRow? ==> a.BemRow? && a.status == Baixado
  {
    match r
    case BemRow(data, nome, valor, local, dir, _) => BemRow(data, nome, valor, local, dir, Baixado)
    case _ => r
  }

  /** One statement on a session's data: the new data and the cursor's output, or the error raised. */
  function Step(db: Db, s: Statement, env: Env): Result<(Db, Output), DbError> {
    if env.fault(db, s) then Failure(DriverError)
    else match s
      case Insert(row) =>
        if ParentsExist(db, row) then Success((Added(db, row), NoResult(Tbl(db, TableOf(row)).next)))
        else Failure(ForeignKeyViolation)
      case DeleteWhere(t, owner) =>
        if DeleteBlocked(db, t, owner) then Failure(ForeignKeyViolation)
        else Success((Removed(db, t, owner), NoResult(0)))
      case ApproveLedger(id, approver) =>
        var rows := Rows(db, Lancamento);
        if id in rows && rows[id].LancamentoRow? then
          Success((Replaced(db, Lancamento, id, Approved(rows[id], approver, env.now)), NoResult(0)))
        else Success((db, NoResult(0)))
      case RetireAsset(id) =>
        var rows := Rows(db, Bens);
        if id in rows && rows[id].BemRow? then
          Success((Replaced(db, Bens, id, Retired(rows[id])), NoResult(0)))
        else Success((db, NoResult(0)))
      case Call(p) =>
        (match env.proc(db, p)
         case None => Failure(ProcedureError)
         case Some(d) => Success((d, NoResult(0))))
      case Select(sql, ps) =>
        (match env.query(db, sql, ps)
         case None => Failure(QueryError)
         case Some((cols, data)) => Success((db, ResultSet(cols, data))))
  }

  /** The data after one statement, or its error. */
  function After(db: Db, s: Statement, env: Env): Result<Db, DbError> {
    match Step(db, s, env)
    case Success((d, _)) => Success(d)
    case Failure(e) => Failure(e)
  }

  /**
   * A successful insert reports, as `cursor.lastrowid`, a key that was free
   * before and under which the new row is now stored.
   */
  lemma InsertReportsKey(db: Db, row: Row, env: Env)
    requires WellKeyed(db)
    ensures Step(db, Insert(row), env).Success? ==>
              var k := Step(db, Insert(row), env).value.1.lastRowId;
              && k !in Rows(db, TableOf(row))
              && k in Rows(Step(db, Insert(row), env).value.0, TableOf(row))
              && Rows(Step(db, Insert(row), env).value.0, TableOf(row))[k] == row
  {
  }

  /** A transaction's statements run one after the other; the first error ends it. */
  function RunAll(db: Db, ss: seq<Statement>, env: Env): Result<Db, DbError>
    decreases |ss|
  {
    if ss == [] then Success(db)
    else match After(db, ss[0], env)
      case Failure(e) => Failure(e)
      case Success(d) => RunAll(d, ss[1..], env)
  }

  function Then(r: Result<Db, DbError>, ss: seq<Statement>, env: Env): Result<Db, DbError> {
    match r
    case Failure(e) => Failure(e)
    case Success(d) => RunAll(d, ss, env)
  }

  function ThenAfter(r: Result<Db, DbError>, s: Statement, env: Env): Result<Db, DbError> {
    match r
    case Failure(e) => Failure(e)
    case Success(d) => After(d, s, env)
  }

  /** Running `a + b` is running `a`, then `b` on its result. */
  lemma {:induction false} RunAllAppend(db: Db, a: seq<Statement>, b: seq<Statement>, env: Env)
    ensures RunAll(db, a + b, env) == Then(RunAll(db, a, env), b, env)
    decreases |a|
  {
    if a == [] {
      assert a + b == b;
    } else {
      assert (a + b)[0] == a[0] && (a + b)[1..] == a[1..] + b;
      match After(db, a[0], env)
      case Failure(e) =>
      case Success(d) => RunAllAppend(d, a[1..], b, env);
    }
  }

  lemma RunAllSnoc(db: Db, a: seq<Statement>, s: Statement, env: Env)
    ensures RunAll(db, a + [s], env) == ThenAfter(RunAll(db, a, env), s, env)
  {
    RunAllAppend(db, a, [s], env);
    match RunAll(db, a, env)
    case Failure(e) =>
    case Success(d) =>
      assert RunAll(d, [s], env) == After(d, s, env) by {
        match After(d, s, env)
        case Failure(e) =>
        case Success(d2) => assert [s][1..] == [];
      }
  }

  function Inserts(rows: seq<Row>): (ss: seq<Statement>)
    ensures |ss| == |rows|
    ensures forall j :: 0 <= j < |rows| ==> ss[j] == Insert(rows[j])
  {
    if rows == [] then [] else [Insert(rows[0])] + Inserts(rows[1..])
  }

  lemma InsertsSnoc(rows: seq<Row>, i: int)
    requires 0 <= i < |rows|
    ensures Inserts(rows[..i + 1]) == Inserts(rows[..i]) + [Insert(rows[i])]
  {
  }

  lemma InsertsSplit(rows: seq<Row>, i: int)
    requires 0 <= i <= |rows|
    ensures Inserts(rows) == Inserts(rows[..i]) + Inserts(rows[i..])
  {
  }

  // ---------------------------------------------------------------------------
  // Inserting rows
  // ---------------------------------------------------------------------------

  /** `rows` are appended to table `t` under the keys `start`, `start + 1`, ... */
  ghost predicate Appended(before: Db, after: Db, t: TableName, start: int, rows: seq<Row>) {
    && Tbl(after, t).next == start + |rows|
    && (forall k :: k in Rows(after, t) <==> k in Rows(before, t) || start <= k < start + |rows|)
    && (forall k :: k in Rows(before, t) ==> Rows(after, t)[k] == Rows(before, t)[k])
    && (forall j :: 0 <= j < |rows| ==> Rows(after, t)[start + j] == rows[j])
    && (forall u :: u != t ==> Tbl(after, u) == Tbl(before, u))
  }

  ghost predicate KeysBelowNext(db: Db, t: TableName) {
    forall k :: k in Rows(db, t) ==> k < Tbl(db, t).next
  }

  /**
   * A successful run of inserts into one table appends the rows, in order,
   * under consecutive fresh keys, and leaves every other table alone.
   */
  lemma InsertOne(db: Db, row: Row, env: Env)
    requires KeysBelowNext(db, TableOf(row))
    requires After(db, Insert(row), env).Success?
    ensures Appended(db, After(db, Insert(row), env).value, TableOf(row), Tbl(db, TableOf(row)).next, [row])
    ensures KeysBelowNext(After(db, Insert(row), env).value, TableOf(row))
  {
    var t := TableOf(row);
    var d := After(db, Insert(row), env).value;
    forall k | k in Rows(d, t)
      ensures k < Tbl(d, t).next
    {
      if k != Tbl(db, t).next {
        assert k in Rows(db, t);
      }
    }
  }

  lemma AppendedCompose(a: Db, b: Db, c: Db, t: TableName, start: int, r: Row, rest: seq<Row>)
    requires KeysBelowNext(a, t)
    requires Appended(a, b, t, start, [r]) && Appended(b, c, t, start + 1, rest)
    requires start == Tbl(a, t).next
    ensures Appended(a, c, t, start, [r] + rest)
  {
    var rows := [r] + rest;
    forall j | 0 <= j < |rows|
      ensures Rows(c, t)[start + j] == rows[j]
    {
      if j > 0 {
        assert rows[j] == rest[j - 1];
        assert Rows(c, t)[start + 1 + (j - 1)] == rest[j - 1];
      }
    }
    forall k | k in Rows(a, t)
      ensures Rows(c, t)[k] == Rows(a, t)[k]
    {
      assert k in Rows(b, t);
    }
  }

  lemma {:induction false} InsertsAppend(db: Db, t: TableName, rows: seq<Row>, env: Env)
    requires KeysBelowNext(db, t)
    requires forall j :: 0 <= j < |rows| ==> TableOf(rows[j]) == t
    requires RunAll(db, Inserts(rows), env).Success?
    ensures Appended(db, RunAll(db, Inserts(rows), env).value, t, Tbl(db, t).next, rows)
    decreases |rows|
  {
    if rows != [] {
      assert Inserts(rows)[0] == Insert(rows[0]);
      assert TableOf(rows[0]) == t;
      var d1 := After(db, Insert(rows[0]), env).value;
      assert Inserts(rows)[1..] == Inserts(rows[1..]);
      InsertOne(db, rows[0], env);
      InsertsAppend(d1, t, rows[1..], env);
      assert [rows[0]] + rows[1..] == rows;
      AppendedCompose(db, d1, RunAll(db, Inserts(rows), env).value, t, Tbl(db, t).next, rows[0], rows[1..]);
    }
  }

  /** A header row followed by its item rows: the header is appended to its table, then the items to theirs. */
  lemma HeaderThenItems(db: Db, header: Row, it: TableName, items: seq<Row>, env: Env)
    requires WellKeyed(db)
    requires TableOf(header) != it
    requires forall j :: 0 <= j < |items| ==> TableOf(items[j]) == it
    requires RunAll(db, [Insert(header)] + Inserts(items), env).Success?
    ensures After(db, Insert(header), env).Success?
    ensures Appended(db, After(db, Insert(header), env).value, TableOf(header), Tbl(db, TableOf(header)).next, [header])
    ensures Appended(After(db, Insert(header), env).value, RunAll(db, [Insert(header)] + Inserts(items), env).value,
                     it, Tbl(db, it).next, items)
  {
    var ht := TableOf(header);
    assert KeysBelowNext(db, ht) by {
      forall k | k in Rows(db, ht)
        ensures k < Tbl(db, ht).next
      {
      }
    }
    RunAllAppend(db, [Insert(header)], Inserts(items), env);
    RunAllSingle(db, Insert(header), env);
    InsertOne(db, header, env);
    var d1 := After(db, Insert(header), env).value;
    assert Tbl(d1, it) == Tbl(db, it);
    assert KeysBelowNext(d1, it) by {
      forall k | k in Rows(d1, it)
        ensures k < Tbl(d1, it).next
      {
        assert k in Rows(db, it);
      }
    }
    InsertsAppend(d1, it, items, env);
  }

  lemma RunAllSingle(db: Db, s: Statement, env: Env)
    ensures RunAll(db, [s], env) == After(db, s, env)
  {
    assert [s][1..] == [];
  }

  /** Statements other than procedure calls, whose ledger inserts are approval-consistent. */
  predicate PlainStatements(ss: seq<Statement>) {
    forall j :: 0 <= j < |ss| ==> !ss[j].Call? && (ss[j].Insert? ==> ApprovalConsistent(ss[j].row))
  }

  lemma {:induction false} RunAllKeepsConsistent(db: Db, ss: seq<Statement>, env: Env)
    requires Consistent(db) && PlainStatements(ss)
    requires RunAll(db, ss, env).Success?
    ensures Consistent(RunAll(db, ss, env).value)
    decreases |ss|
  {
    if ss != [] {
      StepKeepsConsistent(db, ss[0], env);
      assert PlainStatements(ss[1..]) by {
        forall j | 0 <= j < |ss[1..]|
          ensures !ss[1..][j].Call? && (ss[1..][j].Insert? ==> ApprovalConsistent(ss[1..][j].row))
        {
          assert ss[1..][j] == ss[j + 1];
        }
      }
      RunAllKeepsConsistent(After(db, ss[0], env).value, ss[1..], env);
    }
  }

  /** A failing statement inside a run makes the whole run fail. */
  lemma FailurePropagates(db: Db, a: seq<Statement>, b: seq<Statement>, env: Env)
    requires RunAll(db, a, env).Failure?
    ensures RunAll(db, a + b, env).Failure?
  {
    RunAllAppend(db, a, b, env);
  }

  // ---------------------------------------------------------------------------
  // The store's invariant is kept by every statement but the opaque procedures
  // ---------------------------------------------------------------------------

  lemma ParentsAreInChildTables(r: Row)
    requires Parents(r) != []
    ensures TableOf(r) in ChildTables
  {
  }

  lemma InsertKeepsConsistent(db: Db, row: Row, env: Env)
    requires Consistent(db) && ApprovalConsistent(row)
    requires After(db, Insert(row), env).Success?
    ensures Consistent(After(db, Insert(row), env).value)
  {
    AddedKeepsWellKeyed(db, row);
    AddedKeepsParents(db, row);
    AddedKeepsLedger(db, row);
  }

  lemma AddedKeepsWellKeyed(db: Db, row: Row)
    requires WellKeyed(db)
    ensures WellKeyed(Added(db, row))
  {
    var d := Added(db, row);
    var t := TableOf(row);
    forall u
      ensures Tbl(d, u).next >= 1
      ensures forall k :: k in Rows(d, u) ==> 1 <= k < Tbl(d, u).next && TableOf(Rows(d, u)[k]) == u
    {
      assert Tbl(db, u).next >= 1;
      forall k | k in Rows(d, u)
        ensures 1 <= k < Tbl(d, u).next && TableOf(Rows(d, u)[k]) == u
      {
        if !(u == t && k == Tbl(db, t).next) {
          assert k in Rows(db, u);
        }
      }
    }
  }

  lemma AddedKeepsLedger(db: Db, row: Row)
    requires LedgerConsistent(db) && ApprovalConsistent(row)
    ensures LedgerConsistent(Added(db, row))
  {
    var d := Added(db, row);
    var t := TableOf(row);
    forall k | k in Rows(d, Lancamento)
      ensures ApprovalConsistent(Rows(d, Lancamento)[k])
    {
      if !(Lancamento == t && k == Tbl(db, t).next) {
        assert k in Rows(db, Lancamento);
      }
    }
  }

  lemma AddedKeepsParents(db: Db, row: Row)
    requires ParentsPresent(db) && ParentsExist(db, row)
    ensures ParentsPresent(Added(db, row))
  {
    var d := Added(db, row);
    forall u, k | k in Rows(d, u)
      ensures ParentsExist(d, Rows(d, u)[k])
    {
      AddedRowOrigin(db, row, u, k);
      var r := Rows(d, u)[k];
      assert ParentsExist(db, r);
      forall p | p in Parents(r)
        ensures p.1 in Rows(d, p.0)
      {
        AddedRowsGrow(db, row, p.0, p.1);
      }
    }
  }

  /** A row after an insert is the inserted row under the new key, or a row that was there before. */
  lemma AddedRowOrigin(db: Db, row: Row, u: TableName, k: int)
    requires k in Rows(Added(db, row), u)
    ensures var r := Rows(Added(db, row), u)[k];
            (u == TableOf(row) && k == Tbl(db, u).next && r == row) || (k in Rows(db, u) && r == Rows(db, u)[k])
  {
  }

  /** An insert removes no key. */
  lemma AddedRowsGrow(db: Db, row: Row, u: TableName, k: int)
    requires k in Rows(db, u)
    ensures k in Rows(Added(db, row), u)
  {
  }

  lemma DeleteKeepsConsistent(db: Db, t: TableName, owner: int, env: Env)
    requires Consistent(db)
    requires After(db, DeleteWhere(t, owner), env).Success?
    ensures Consistent(After(db, DeleteWhere(t, owner), env).value)
  {
    RemovedKeepsWellKeyed(db, t, owner);
    RemovedKeepsLedger(db, t, owner);
    RemovedKeepsParents(db, t, owner);
  }

  lemma RemovedKeepsWellKeyed(db: Db, t: TableName, owner: int)
    requires WellKeyed(db)
    ensures WellKeyed(Removed(db, t, owner))
  {
    var d := Removed(db, t, owner);
    forall u
      ensures Tbl(d, u).next >= 1
      ensures forall k :: k in Rows(d, u) ==> 1 <= k < Tbl(d, u).next && TableOf(Rows(d, u)[k]) == u
    {
      assert Tbl(db, u).next >= 1;
      forall k | k in Rows(d, u)
        ensures 1 <= k < Tbl(d, u).next && TableOf(Rows(d, u)[k]) == u
      {
        assert k in Rows(db, u);
      }
    }
  }

  lemma RemovedKeepsLedger(db: Db, t: TableName, owner: int)
    requires LedgerConsistent(db)
    ensures LedgerConsistent(Removed(db, t, owner))
  {
    var d := Removed(db, t, owner);
    forall k | k in Rows(d, Lancamento)
      ensures ApprovalConsistent(Rows(d, Lancamento)[k])
    {
      assert k in Rows(db, Lancamento);
    }
  }

  /** A stored row's parents count as referenced. */
  lemma RowReferences(db: Db, u: TableName, k: int, p: (TableName, int))
    requires WellKeyed(db) && k in Rows(db, u) && p in Parents(Rows(db, u)[k])
    ensures Referenced(db, p.0, p.1)
  {
    ParentsAreInChildTables(Rows(db, u)[k]);
    var i :| 0 <= i < |ChildTables| && ChildTables[i] == u;
  }

  lemma RemovedKeepsParents(db: Db, t: TableName, owner: int)
    requires WellKeyed(db) && ParentsPresent(db) && !DeleteBlocked(db, t, owner)
    ensures ParentsPresent(Removed(db, t, owner))
  {
    var d := Removed(db, t, owner);
    forall u, k | k in Rows(d, u)
      ensures ParentsExist(d, Rows(d, u)[k])
    {
      var r := Rows(d, u)[k];
      assert k in Rows(db, u) && Rows(db, u)[k] == r;
      forall p | p in Parents(r)
        ensures p.1 in Rows(d, p.0)
      {
        assert p.1 in Rows(db, p.0);
        if p.0 == t && Doomed(db, t, owner, p.1) {
          RowReferences(db, u, k, p);
          assert false;
        }
      }
    }
  }

  lemma UpdateKeepsConsistent(db: Db, s: Statement, env: Env)
    requires s.ApproveLedger? || s.RetireAsset?
    requires Consistent(db)
    requires After(db, s, env).Success?
    ensures Consistent(After(db, s, env).value)
  {
    match s
    case ApproveLedger(id, approver) =>
      var rows := Rows(db, Lancamento);
      if id in rows && rows[id].LancamentoRow? {
        ReplacedKeepsConsistent(db, Lancamento, id, Approved(rows[id], approver, env.now));
      }
    case RetireAsset(id) =>
      var rows := Rows(db, Bens);
      if id in rows && rows[id].BemRow? {
        ReplacedKeepsConsistent(db, Bens, id, Retired(rows[id]));
      }
  }

  /** Replacing a row by one of the same table with the same parents keeps the store consistent. */
  lemma ReplacedKeepsConsistent(db: Db, t: TableName, k: int, r: Row)
    requires Consistent(db) && k in Rows(db, t)
    requires TableOf(r) == t && Parents(r) == Parents(Rows(db, t)[k]) && ApprovalConsistent(r)
    ensures Consistent(Replaced(db, t, k, r))
  {
    ReplacedKeepsWellKeyed(db, t, k, r);
    ReplacedKeepsLedger(db, t, k, r);
    ReplacedKeepsParents(db, t, k, r);
  }

  lemma ReplacedKeepsWellKeyed(db: Db, t: TableName, k: int, r: Row)
    requires WellKeyed(db) && k in Rows(db, t) && TableOf(r) == t
    ensures WellKeyed(Replaced(db, t, k, r))
  {
    var d := Replaced(db, t, k, r);
    forall u
      ensures Tbl(d, u).next >= 1
      ensures forall k' :: k' in Rows(d, u) ==> 1 <= k' < Tbl(d, u).next && TableOf(Rows(d, u)[k']) == u
    {
      assert Tbl(db, u).next >= 1;
      forall k' | k' in Rows(d, u)
        ensures 1 <= k' < Tbl(d, u).next && TableOf(Rows(d, u)[k']) == u
      {
        assert k' in Rows(db, u);
      }
    }
  }

  lemma ReplacedKeepsLedger(db: Db, t: TableName, k: int, r: Row)
    requires LedgerConsistent(db) && ApprovalConsistent(r)
    ensures LedgerConsistent(Replaced(db, t, k, r))
  {
    var d := Replaced(db, t, k, r);
    forall k' | k' in Rows(d, Lancamento)
      ensures ApprovalConsistent(Rows(d, Lancamento)[k'])
    {
      if !(t == Lancamento && k' == k) {
        assert k' in Rows(db, Lancamento);
      }
    }
  }

  lemma ReplacedKeepsParents(db: Db, t: TableName, k: int, r: Row)
    requires ParentsPresent(db) && k in Rows(db, t) && Parents(r) == Parents(Rows(db, t)[k])
    ensures ParentsPresent(Replaced(db, t, k, r))
  {
    var d := Replaced(db, t, k, r);
    forall u, k' | k' in Rows(d, u)
      ensures ParentsExist(d, Rows(d, u)[k'])
    {
      assert k' in Rows(db, u);
      assert Parents(Rows(d, u)[k']) == Parents(Rows(db, u)[k']);
      assert ParentsExist(db, Rows(db, u)[k']);
    }
  }

  /**
   * Every statement the core sends, except the opaque stored procedures,
   * keeps the store consistent: keys stay fresh, foreign keys resolve, and
   * ledger approval fields stay together.
   */
  lemma StepKeepsConsistent(db: Db, s: Statement, env: Env)
    requires Consistent(db) && !s.Call?
    requires s.Insert? ==> ApprovalConsistent(s.row)
    requires After(db, s, env).Success?
    ensures Consistent(After(db, s, env).value)
  {
    match s
    case Insert(row) => InsertKeepsConsistent(db, row, env);
    case DeleteWhere(t, owner) => DeleteKeepsConsistent(db, t, owner, env);
    case ApproveLedger(_, _) => UpdateKeepsConsistent(db, s, env);
    case RetireAsset(_) => UpdateKeepsConsistent(db, s, env);
    case Select(_, _) =>
  }
}
