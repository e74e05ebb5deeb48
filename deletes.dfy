/**
 * The two screens that delete a person and everything that hangs off them,
 * children first, in one transaction: ending an athlete's contract
 * (`encerrar_contrato_jogador`) and dismissing an employee
 * (`demitir_funcionario`).
 */
module Deletes {
  import opened Common
  import opened Store
  import opened Gateway

  /** `encerrar_contrato_jogador`'s deletes: the athlete's payroll items, then the athlete. */
  function AthleteCascade(id: int): seq<Statement> {
    [DeleteWhere(ItemFolhaE, id), DeleteWhere(Elenco, id)]
  }

  /** `demitir_funcionario`'s deletes: payroll items, contract, outsourcing record, then the employee. */
  function StaffCascade(id: int): seq<Statement> {
    [DeleteWhere(ItemFolhaF, id), DeleteWhere(Contratado, id), DeleteWhere(Terceirizado, id), DeleteWhere(Funcionarios, id)]
  }

  /** How `on_confirm` ends: the question answered no, the deletes committed, or the error shown. */
  datatype RemovalOutcome = Declined | Done | Refused(error: DbError)

  /**
   * `on_confirm`'s effect: nothing unless confirmed; then the deletes run in
   * one transaction, committed when all succeed and rolled back at the
   * first error.
   */
  function RemovalEffect(db: Db, ss: seq<Statement>, confirmed: bool, env: Env): (r: (RemovalOutcome, Db))
    ensures !confirmed ==> r == (Declined, db)
    ensures r.0.Refused? ==> r.1 == db && RunAll(db, ss, env) == Failure(r.0.error)
    ensures r.0 == Done ==> RunAll(db, ss, env) == Success(r.1)
  {
    if !confirmed then (Declined, db)
    else match RunAll(db, ss, env)
      case Success(d) => (Done, d)
      case Failure(e) => (Refused(e), db)
  }

  /** Running one statement and then the rest. */
  lemma RunAllCons(db: Db, s: Statement, rest: seq<Statement>, env: Env)
    ensures RunAll(db, [s] + rest, env) == Then(After(db, s, env), rest, env)
  {
    assert ([s] + rest)[0] == s && ([s] + rest)[1..] == rest;
  }

  /** `encerrar_contrato_jogador.on_confirm` for the selected athlete `id`. */
  method EndContract(mgr: DatabaseManager, id: int, confirmed: bool, env: Env) returns (outcome: RemovalOutcome)
    modifies mgr, mgr.server
    ensures (outcome, mgr.server.data) == RemovalEffect(old(mgr.server.data), AthleteCascade(id), confirmed, env)
    ensures mgr.lent == old(mgr.lent) && mgr.acquired == old(mgr.acquired) + (if confirmed then 1 else 0)
  {
    if !confirmed {
      return Declined;
    }
    var conn := mgr.GetConnection();
    var r := DeleteAthleteRows(conn, id, env);
    if r.Success? {
      conn.Commit();
      outcome := Done;
    } else {
      conn.Rollback();
      outcome := Refused(r.error);
    }
    mgr.Release(conn);
  }

  /** The two `cursor.execute` calls, stopping at the first error. */
  method DeleteAthleteRows(conn: Connection, id: int, env: Env) returns (r: Result<(), DbError>)
    requires conn.isOpen
    modifies conn
    ensures conn.isOpen
    ensures match RunAll(old(conn.work), AthleteCascade(id), env)
            case Success(d) => r.Success? && conn.work == d
            case Failure(e) => r == Failure(e)
  {
    var s1, s2 := DeleteWhere(ItemFolhaE, id), DeleteWhere(Elenco, id);
    assert AthleteCascade(id) == [s1] + [s2];
    RunAllCons(conn.work, s1, [s2], env);
    var a := conn.Execute(s1, env);
    if a.Failure? {
      return Failure(a.error);
    }
    RunAllSingle(conn.work, s2, env);
    var b := conn.Execute(s2, env);
    if b.Failure? {
      return Failure(b.error);
    }
    return Success(());
  }

  /** `demitir_funcionario.on_confirm` for the selected employee `id`. */
  method Dismiss(mgr: DatabaseManager, id: int, confirmed: bool, env: Env) returns (outcome: RemovalOutcome)
    modifies mgr, mgr.server
    ensures (outcome, mgr.server.data) == RemovalEffect(old(mgr.server.data), StaffCascade(id), confirmed, env)
    ensures mgr.lent == old(mgr.lent) && mgr.acquired == old(mgr.acquired) + (if confirmed then 1 else 0)
  {
    if !confirmed {
      return Declined;
    }
    var conn := mgr.GetConnection();
    var r := DeleteStaffRows(conn, id, env);
    if r.Success? {
      conn.Commit();
      outcome := Done;
    } else {
      conn.Rollback();
      outcome := Refused(r.error);
    }
    mgr.Release(conn);
  }

  /** The four `cursor.execute` calls, stopping at the first error. */
  method DeleteStaffRows(conn: Connection, id: int, env: Env) returns (r: Result<(), DbError>)
    requires conn.isOpen
    modifies conn
    ensures conn.isOpen
    ensures match RunAll(old(conn.work), StaffCascade(id), env)
            case Success(d) => r.Success? && conn.work == d
            case Failure(e) => r == Failure(e)
  {
    var s1, s2 := DeleteWhere(ItemFolhaF, id), DeleteWhere(Contratado, id);
    var s3, s4 := DeleteWhere(Terceirizado, id), DeleteWhere(Funcionarios, id);
    assert StaffCascade(id) == [s1] + ([s2] + ([s3] + [s4]));
    RunAllCons(conn.work, s1, [s2] + ([s3] + [s4]), env);
    var a := conn.Execute(s1, env);
    if a.Failure? {
      return Failure(a.error);
    }
    RunAllCons(conn.work, s2, [s3] + [s4], env);
    var b := conn.Execute(s2, env);
    if b.Failure? {
      return Failure(b.error);
    }
    RunAllCons(conn.work, s3, [s4], env);
    var c := conn.Execute(s3, env);
    if c.Failure? {
      return Failure(c.error);
    }
    RunAllSingle(conn.work, s4, env);
    var d := conn.Execute(s4, env);
    if d.Failure? {
      return Failure(d.error);
    }
    return Success(());
  }

  // ---------------------------------------------------------------------------
  // Why the order works
  // ---------------------------------------------------------------------------

  /** The tables whose rows no other row references. */
  predicate IsLeafTable(t: TableName) {
    t == ItemFolhaE || t == ItemFolhaF || t == Contratado || t == Terceirizado
  }

  /** A leaf table can always be deleted from. */
  lemma LeafDeleteUnblocked(db: Db, c: TableName, owner: int)
    requires IsLeafTable(c)
    ensures !DeleteBlocked(db, c, owner)
  {
    if DeleteBlocked(db, c, owner) {
      var k :| k in Rows(db, c) && Doomed(db, c, owner, k) && Referenced(db, c, k);
      var i, j :| 0 <= i < |ChildTables| && j in Rows(db, ChildTables[i]) &&
                  (c, k) in Parents(Rows(db, ChildTables[i])[j]);
      NotAParent(Rows(db, ChildTables[i])[j], c, k);
      assert false;
    }
  }

  lemma NotAParent(r: Row, c: TableName, k: int)
    requires IsLeafTable(c)
    ensures (c, k) !in Parents(r)
  {
  }

  /** Every row referencing row `id` of `t` sits in one of `cs` and is owned by `id`. */
  ghost predicate ChildrenWithin(db: Db, t: TableName, id: int, cs: set<TableName>) {
    forall u, k :: k in Rows(db, u) && (t, id) in Parents(Rows(db, u)[k]) ==>
      u in cs && OwnerOf(k, Rows(db, u)[k]) == id
  }

  /** An athlete's only children are payroll items filed under the athlete. */
  lemma AthleteChildren(db: Db, id: int)
    requires WellKeyed(db)
    ensures ChildrenWithin(db, Elenco, id, {ItemFolhaE})
  {
    forall u, k | k in Rows(db, u) && (Elenco, id) in Parents(Rows(db, u)[k])
      ensures u in {ItemFolhaE} && OwnerOf(k, Rows(db, u)[k]) == id
    {
      assert TableOf(Rows(db, u)[k]) == u;
    }
  }

  /** An employee's only children are payroll items, the contract and the outsourcing record. */
  lemma EmployeeChildren(db: Db, id: int)
    requires WellKeyed(db)
    ensures ChildrenWithin(db, Funcionarios, id, {ItemFolhaF, Contratado, Terceirizado})
  {
    forall u, k | k in Rows(db, u) && (Funcionarios, id) in Parents(Rows(db, u)[k])
      ensures u in {ItemFolhaF, Contratado, Terceirizado} && OwnerOf(k, Rows(db, u)[k]) == id
    {
      assert TableOf(Rows(db, u)[k]) == u;
    }
  }

  /** Deleting `id`'s rows of one child table leaves its children in the other tables only. */
  lemma PurgeNarrows(db: Db, t: TableName, id: int, cs: set<TableName>, c: TableName)
    requires ChildrenWithin(db, t, id, cs)
    ensures ChildrenWithin(Removed(db, c, id), t, id, cs - {c})
  {
    var d := Removed(db, c, id);
    forall u, k | k in Rows(d, u) && (t, id) in Parents(Rows(d, u)[k])
      ensures u in cs - {c} && OwnerOf(k, Rows(d, u)[k]) == id
    {
      assert k in Rows(db, u) && Rows(d, u)[k] == Rows(db, u)[k];
    }
  }

  /** With no children left, the owner's row can go. */
  lemma OwnerDeleteUnblocked(db: Db, t: TableName, id: int)
    requires WellKeyed(db) && ChildrenWithin(db, t, id, {})
    requires t == Elenco || t == Funcionarios
    ensures !DeleteBlocked(db, t, id)
  {
    forall k | k in Rows(db, t) && Doomed(db, t, id, k)
      ensures !Referenced(db, t, k)
    {
      assert TableOf(Rows(db, t)[k]) == t;
    }
  }

  /** The owner's delete removes exactly the owner's row of its table. */
  lemma OwnerRemoved(db: Db, t: TableName, id: int)
    requires WellKeyed(db) && (t == Elenco || t == Funcionarios)
    ensures var d := Removed(db, t, id);
            && id !in Rows(d, t)
            && (forall k :: k in Rows(db, t) && k != id ==> k in Rows(d, t) && Rows(d, t)[k] == Rows(db, t)[k])
            && (forall u :: u != t ==> Tbl(d, u) == Tbl(db, u))
  {
    var d := Removed(db, t, id);
    forall k | k in Rows(db, t) && k != id
      ensures k in Rows(d, t) && Rows(d, t)[k] == Rows(db, t)[k]
    {
      assert TableOf(Rows(db, t)[k]) == t;
    }
  }

  /** A child table's delete keeps the rows of other owners and every other table. */
  lemma ChildPurged(db: Db, c: TableName, id: int)
    ensures var d := Removed(db, c, id);
            && (forall k :: k in Rows(d, c) ==> OwnerOf(k, Rows(d, c)[k]) != id)
            && (forall k :: k in Rows(db, c) && OwnerOf(k, Rows(db, c)[k]) != id ==>
                  k in Rows(d, c) && Rows(d, c)[k] == Rows(db, c)[k])
            && (forall u :: u != c ==> Tbl(d, u) == Tbl(db, u))
  {
  }

  /**
   * Ending a contract on consistent data, with no driver failure, succeeds:
   * it deletes the athlete's payroll items, then the athlete.
   */
  lemma AthleteCascadeRuns(db: Db, id: int, env: Env)
    requires Consistent(db) && NoFaults(env)
    ensures RunAll(db, AthleteCascade(id), env) == Success(Removed(Removed(db, ItemFolhaE, id), Elenco, id))
    ensures Consistent(Removed(Removed(db, ItemFolhaE, id), Elenco, id))
    ensures ChildrenWithin(Removed(Removed(db, ItemFolhaE, id), Elenco, id), Elenco, id, {})
  {
    var s1, s2 := DeleteWhere(ItemFolhaE, id), DeleteWhere(Elenco, id);
    var d1 := Removed(db, ItemFolhaE, id);
    LeafDeleteUnblocked(db, ItemFolhaE, id);
    assert After(db, s1, env) == Success(d1);
    DeleteKeepsConsistent(db, ItemFolhaE, id, env);
    AthleteChildren(db, id);
    PurgeNarrows(db, Elenco, id, {ItemFolhaE}, ItemFolhaE);
    assert {ItemFolhaE} - {ItemFolhaE} == {};
    OwnerDeleteUnblocked(d1, Elenco, id);
    assert After(d1, s2, env) == Success(Removed(d1, Elenco, id));
    DeleteKeepsConsistent(d1, Elenco, id, env);
    PurgeNarrows(d1, Elenco, id, {}, Elenco);
    assert AthleteCascade(id) == [s1] + [s2];
    RunAllCons(db, s1, [s2], env);
    RunAllSingle(d1, s2, env);
  }

  /**
   * After a successful end of contract the athlete is gone, no row refers
   * to them any more, the other athletes and their items are untouched,
   * and so is every other table.
   */
  lemma AthleteGone(db: Db, id: int, env: Env)
    requires Consistent(db) && NoFaults(env)
    ensures var d := RemovalEffect(db, AthleteCascade(id), true, env).1;
            && RemovalEffect(db, AthleteCascade(id), true, env).0 == Done
            && Consistent(d)
            && id !in Rows(d, Elenco)
            && (forall u, k :: k in Rows(d, u) ==> (Elenco, id) !in Parents(Rows(d, u)[k]))
            && (forall k :: k in Rows(db, Elenco) && k != id ==> k in Rows(d, Elenco) && Rows(d, Elenco)[k] == Rows(db, Elenco)[k])
            && (forall k :: k in Rows(db, ItemFolhaE) && OwnerOf(k, Rows(db, ItemFolhaE)[k]) != id ==>
                  k in Rows(d, ItemFolhaE) && Rows(d, ItemFolhaE)[k] == Rows(db, ItemFolhaE)[k])
            && (forall u :: u != Elenco && u != ItemFolhaE ==> Tbl(d, u) == Tbl(db, u))
  {
    AthleteCascadeRuns(db, id, env);
    var d1 := Removed(db, ItemFolhaE, id);
    ChildPurged(db, ItemFolhaE, id);
    RemovedKeepsWellKeyed(db, ItemFolhaE, id);
    OwnerRemoved(d1, Elenco, id);
  }

  /**
   * Dismissing an employee on consistent data, with no driver failure,
   * succeeds: payroll items, contract and outsourcing record go first,
   * then the employee.
   */
  lemma StaffCascadeRuns(db: Db, id: int, env: Env)
    requires Consistent(db) && NoFaults(env)
    ensures var d3 := Removed(Removed(Removed(db, ItemFolhaF, id), Contratado, id), Terceirizado, id);
            && RunAll(db, StaffCascade(id), env) == Success(Removed(d3, Funcionarios, id))
            && Consistent(Removed(d3, Funcionarios, id))
            && ChildrenWithin(Removed(d3, Funcionarios, id), Funcionarios, id, {})
  {
    var s1, s2 := DeleteWhere(ItemFolhaF, id), DeleteWhere(Contratado, id);
    var s3, s4 := DeleteWhere(Terceirizado, id), DeleteWhere(Funcionarios, id);
    var d1 := Removed(db, ItemFolhaF, id);
    var d2 := Removed(d1, Contratado, id);
    var d3 := Removed(d2, Terceirizado, id);
    LeafSteps(db, d1, d2, d3, id, env);
    EmployeeChildren(db, id);
    PurgeNarrows(db, Funcionarios, id, {ItemFolhaF, Contratado, Terceirizado}, ItemFolhaF);
    PurgeNarrows(d1, Funcionarios, id, {Contratado, Terceirizado}, Contratado);
    PurgeNarrows(d2, Funcionarios, id, {Terceirizado}, Terceirizado);
    assert {ItemFolhaF, Contratado, Terceirizado} - {ItemFolhaF} == {Contratado, Terceirizado};
    assert {Contratado, Terceirizado} - {Contratado} == {Terceirizado};
    assert {Terceirizado} - {Terceirizado} == {};
    OwnerDeleteUnblocked(d3, Funcionarios, id);
    assert After(d3, s4, env) == Success(Removed(d3, Funcionarios, id));
    DeleteKeepsConsistent(d3, Funcionarios, id, env);
    PurgeNarrows(d3, Funcionarios, id, {}, Funcionarios);
    assert StaffCascade(id) == [s1] + ([s2] + ([s3] + [s4]));
    RunAllCons(db, s1, [s2] + ([s3] + [s4]), env);
    RunAllCons(d1, s2, [s3] + [s4], env);
    RunAllCons(d2, s3, [s4], env);
    RunAllSingle(d3, s4, env);
  }

  /** The three leaf deletes of a dismissal succeed and keep the data consistent. */
  lemma LeafSteps(db: Db, d1: Db, d2: Db, d3: Db, id: int, env: Env)
    requires Consistent(db) && NoFaults(env)
    requires d1 == Removed(db, ItemFolhaF, id) && d2 == Removed(d1, Contratado, id)
    requires d3 == Removed(d2, Terceirizado, id)
    ensures After(db, DeleteWhere(ItemFolhaF, id), env) == Success(d1)
    ensures After(d1, DeleteWhere(Contratado, id), env) == Success(d2)
    ensures After(d2, DeleteWhere(Terceirizado, id), env) == Success(d3)
    ensures Consistent(d1) && Consistent(d2) && Consistent(d3)
  {
    LeafDeleteUnblocked(db, ItemFolhaF, id);
    DeleteKeepsConsistent(db, ItemFolhaF, id, env);
    LeafDeleteUnblocked(d1, Contratado, id);
    DeleteKeepsConsistent(d1, Contratado, id, env);
    LeafDeleteUnblocked(d2, Terceirizado, id);
    DeleteKeepsConsistent(d2, Terceirizado, id, env);
  }

  /**
   * After a successful dismissal the employee is gone, no row refers to
   * them any more, and the other employees are untouched, as is every
   * table the dismissal does not delete from.
   */
  lemma EmployeeGone(db: Db, id: int, env: Env)
    requires Consistent(db) && NoFaults(env)
    ensures var d := RemovalEffect(db, StaffCascade(id), true, env).1;
            && RemovalEffect(db, StaffCascade(id), true, env).0 == Done
            && Consistent(d)
            && id !in Rows(d, Funcionarios)
            && (forall u, k :: k in Rows(d, u) ==> (Funcionarios, id) !in Parents(Rows(d, u)[k]))
            && (forall k :: k in Rows(db, Funcionarios) && k != id ==>
                  k in Rows(d, Funcionarios) && Rows(d, Funcionarios)[k] == Rows(db, Funcionarios)[k])
            && (forall u :: !(u in {ItemFolhaF, Contratado, Terceirizado, Funcionarios}) ==> Tbl(d, u) == Tbl(db, u))
  {
    StaffCascadeRuns(db, id, env);
    var d3 := Removed(Removed(Removed(db, ItemFolhaF, id), Contratado, id), Terceirizado, id);
    LeafPurgesKeepOthers(db, id);
    OwnerRemoved(d3, Funcionarios, id);
  }

  lemma LeafPurgesKeepOthers(db: Db, id: int)
    requires WellKeyed(db)
    ensures var d3 := Removed(Removed(Removed(db, ItemFolhaF, id), Contratado, id), Terceirizado, id);
            && WellKeyed(d3)
            && (forall u :: !(u in {ItemFolhaF, Contratado, Terceirizado}) ==> Tbl(d3, u) == Tbl(db, u))
  {
    var d1 := Removed(db, ItemFolhaF, id);
    var d2 := Removed(d1, Contratado, id);
    ChildPurged(db, ItemFolhaF, id);
    ChildPurged(d1, Contratado, id);
    ChildPurged(d2, Terceirizado, id);
    RemovedKeepsWellKeyed(db, ItemFolhaF, id);
    RemovedKeepsWellKeyed(d1, Contratado, id);
    RemovedKeepsWellKeyed(d2, Terceirizado, id);
  }

  /**
   * The order matters: deleting the owner while a child row still refers
   * to it is refused by the foreign key, whatever the table.
   */
  lemma OwnerFirstRefused(db: Db, t: TableName, id: int, u: TableName, j: int, env: Env)
    requires WellKeyed(db) && (t == Elenco || t == Funcionarios) && id in Rows(db, t)
    requires j in Rows(db, u) && (t, id) in Parents(Rows(db, u)[j])
    requires !env.fault(db, DeleteWhere(t, id))
    ensures After(db, DeleteWhere(t, id), env) == Failure(ForeignKeyViolation)
  {
    assert TableOf(Rows(db, t)[id]) == t;
    assert Doomed(db, t, id, id);
    RowReferences(db, u, j, (t, id));
  }
}
