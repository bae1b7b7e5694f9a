/**
  Overlapping generate transactions, statement by statement, at PostgreSQL's default isolation.
  Each replaces the rows of its keys: a DELETE of the rows with the key that its snapshot holds,
  which waits for row locks, and an INSERT, which the unique index may refuse. What others have
  not committed is invisible. The module says exactly when a commit leaves two rows with one key.
 */
module PolicyOverlaps {
  import opened Common
  import PolicyStore

  /** The identifying columns of a customer_policy_targets row. */
  datatype Row = Row(policy: Id, system: string, subtype: Option<string>)

  type Key = (Id, (string, string))

  /** The key of the DELETE: COALESCE(target_subtype, ''). */
  function KeyOf(r: Row): Key { (r.policy, PolicyStore.KeyOf(r.system, r.subtype)) }

  /** UNIQUE (customer_policy_id, target_system, target_subtype): a null never equals a null. */
  predicate Clash(r: Row, q: Row) { r.subtype.Some? && r == q }

  /** Where a transaction is with the row at hand; `seen` is what the DELETE's snapshot matches. */
  datatype Stage = Idle | Looked(seen: set<Id>) | Cleared

  /** A running transaction: rows to put, rows deleted and added, and for each key when its DELETE looked. */
  datatype Tx = Tx(
    gens: seq<Row>, pos: nat, stage: Stage, deleted: set<Id>, added: map<Id, Row>, lookedAt: map<Key, nat>)

  /** The committed rows, the running transactions, and the keys that each commit inserted, in commit order. */
  datatype World = World(rows: map<Id, Row>, txs: map<Id, Tx>, log: seq<set<Key>>, nextId: Id)

  datatype Step = Begin(t: Id, gens: seq<Row>) | Look(t: Id) | Delete(t: Id) | Insert(t: Id) | Commit(t: Id) | Abort(t: Id)

  /** Rows put by whatever transactions came before, the unique index holding among them; nothing is running. */
  ghost predicate Initial(w: World) {
    RowsInv(w.rows, w.nextId) && w.txs == map[] && w.log == []
  }

  const START := World(map[], map[], [], 0)

  function Matching(rows: map<Id, Row>, k: Key): set<Id> { set i | i in rows && KeyOf(rows[i]) == k }

  function KeysOf(rows: map<Id, Row>): set<Key> { set i | i in rows :: KeyOf(rows[i]) }

  predicate Unlocked(w: World, t: Id, ids: set<Id>) {
    forall u :: u in w.txs && u != t ==> w.txs[u].deleted !! ids
  }

  /** Neither a committed row that t leaves nor an uncommitted one of another transaction clashes with r. */
  predicate Insertable(w: World, t: Id, r: Row)
    requires t in w.txs
  {
    && (forall i :: i in w.rows && i !in w.txs[t].deleted ==> !Clash(w.rows[i], r))
    && (forall u, a :: u in w.txs && u != t && a in w.txs[u].added ==> !Clash(w.txs[u].added[a], r))
  }

  function LookTx(rows: map<Id, Row>, log: seq<set<Key>>, tx: Tx): Tx
    requires tx.pos < |tx.gens|
  {
    var k := KeyOf(tx.gens[tx.pos]);
    tx.(stage := Looked(Matching(rows, k)), lookedAt := tx.lookedAt[k := |log|])
  }

  function DeleteTx(rows: map<Id, Row>, tx: Tx): Tx
    requires tx.pos < |tx.gens| && tx.stage.Looked?
  {
    tx.(stage := Cleared, deleted := tx.deleted + (tx.stage.seen * rows.Keys),
        added := tx.added - Matching(tx.added, KeyOf(tx.gens[tx.pos])))
  }

  function InsertTx(id: Id, tx: Tx): Tx
    requires tx.pos < |tx.gens|
  {
    tx.(stage := Idle, pos := tx.pos + 1, added := tx.added[id := tx.gens[tx.pos]])
  }

  /** The world after a step, or None when it cannot be taken now. */
  function Next(w: World, step: Step): Option<World> {
    if step.Begin? then
      if step.t in w.txs then None
      else Some(w.(txs := w.txs[step.t := Tx(step.gens, 0, Idle, {}, map[], map[])]))
    else if step.t !in w.txs then None
    else
      var t, tx := step.t, w.txs[step.t];
      match step
      case Look(_) =>
        if tx.pos >= |tx.gens| || !tx.stage.Idle? then None
        else Some(w.(txs := w.txs[t := LookTx(w.rows, w.log, tx)]))
      case Delete(_) =>
        if tx.pos >= |tx.gens| || !tx.stage.Looked? || !Unlocked(w, t, tx.stage.seen) then None
        else Some(w.(txs := w.txs[t := DeleteTx(w.rows, tx)]))
      case Insert(_) =>
        if tx.pos >= |tx.gens| || !tx.stage.Cleared? || !Insertable(w, t, tx.gens[tx.pos]) then None
        else Some(w.(txs := w.txs[t := InsertTx(w.nextId, tx)], nextId := w.nextId + 1))
      case Commit(_) =>
        if tx.pos < |tx.gens| then None
        else Some(World((w.rows - tx.deleted) + tx.added, w.txs - {t}, w.log + [KeysOf(tx.added)], w.nextId))
      case Abort(_) => Some(w.(txs := w.txs - {t}))
  }

  function Run(from: World, steps: seq<Step>): Option<World> {
    if steps == [] then Some(from)
    else
      match Run(from, steps[..|steps| - 1])
      case None => None
      case Some(mid) => Next(mid, steps[|steps| - 1])
  }

  // ── The invariant ────────────────────────────────────────────────────

  /** A commit from the n-th on inserted k. */
  ghost predicate Since(log: seq<set<Key>>, k: Key, n: nat) {
    exists i :: n <= i < |log| && k in log[i]
  }

  ghost predicate Has(rows: map<Id, Row>, k: Key) { exists i :: i in rows && KeyOf(rows[i]) == k }

  predicate PendingOn(tx: Tx, k: Key) {
    !tx.stage.Idle? && tx.pos < |tx.gens| && KeyOf(tx.gens[tx.pos]) == k
  }

  /** The rows that t has deleted or is about to. */
  function Doomed(tx: Tx, k: Key): set<Id> {
    tx.deleted + if tx.stage.Looked? && PendingOn(tx, k) then tx.stage.seen else {}
  }

  function Seen(tx: Tx): set<Id> { if tx.stage.Looked? then tx.stage.seen else {} }

  /** A committed row with key k that t does not see. */
  ghost predicate Survives(rows: map<Id, Row>, tx: Tx, k: Key) {
    exists i :: i in rows && KeyOf(rows[i]) == k && i !in Doomed(tx, k)
  }

  ghost predicate KeysOnce(rows: map<Id, Row>) {
    forall i, j :: i in rows && j in rows && KeyOf(rows[i]) == KeyOf(rows[j]) ==> i == j
  }

  ghost predicate NoClash(rows: map<Id, Row>) {
    forall i, j :: i in rows && j in rows && i != j ==> !Clash(rows[i], rows[j])
  }

  /** What t holds: locked rows, fresh rows, one for each key whose turn is over. */
  ghost predicate Holds(rows: map<Id, Row>, nextId: Id, tx: Tx) {
    && tx.deleted <= rows.Keys
    && (forall i :: i in tx.deleted && i in rows ==> KeyOf(rows[i]) in tx.lookedAt)
    && (forall a :: a in tx.added ==> a < nextId && a !in rows && KeyOf(tx.added[a]) in tx.lookedAt)
    && (forall i :: i in Seen(tx) ==> i < nextId && (i in rows ==> PendingOn(tx, KeyOf(rows[i]))))
    && KeysOnce(tx.added)
  }

  ghost predicate Progress(tx: Tx) {
    && (!tx.stage.Idle? ==> tx.pos < |tx.gens| && KeyOf(tx.gens[tx.pos]) in tx.lookedAt)
    && (tx.stage.Cleared? ==> !Has(tx.added, KeyOf(tx.gens[tx.pos])))
    && (forall k :: k in tx.lookedAt && !PendingOn(tx, k) ==> Has(tx.added, k))
  }

  /** t overlooks a committed row of a key exactly if one was committed since its DELETE looked. */
  ghost predicate Overlooks(rows: map<Id, Row>, log: seq<set<Key>>, tx: Tx) {
    forall k :: k in tx.lookedAt ==> tx.lookedAt[k] <= |log| && (Survives(rows, tx, k) <==> Since(log, k, tx.lookedAt[k]))
  }

  ghost predicate Clear(rows: map<Id, Row>, tx: Tx) {
    forall i, a :: i in rows && i !in tx.deleted && a in tx.added ==> !Clash(rows[i], tx.added[a])
  }

  ghost predicate TxInv(rows: map<Id, Row>, log: seq<set<Key>>, nextId: Id, tx: Tx) {
    Holds(rows, nextId, tx) && Progress(tx) && Overlooks(rows, log, tx) && Clear(rows, tx)
  }

  /** Two transactions lock different rows, add different rows, and do not clash. */
  ghost predicate Apart(tx: Tx, ty: Tx) {
    && tx.deleted !! ty.deleted && tx.added.Keys !! ty.added.Keys && Seen(tx) !! ty.added.Keys
    && forall a, b :: a in tx.added && b in ty.added ==> !Clash(tx.added[a], ty.added[b])
  }

  ghost predicate RowsInv(rows: map<Id, Row>, nextId: Id) {
    (forall i :: i in rows ==> i < nextId) && NoClash(rows)
  }

  ghost predicate Inv(w: World) {
    && RowsInv(w.rows, w.nextId)
    && (forall t :: t in w.txs ==> TxInv(w.rows, w.log, w.nextId, w.txs[t]))
    && (forall t, u :: t in w.txs && u in w.txs && t != u ==> Apart(w.txs[t], w.txs[u]))
  }

  // ── Steps that commit nothing ────────────────────────────────────────

  lemma IdsGrow(rows: map<Id, Row>, log: seq<set<Key>>, nextId: Id, nextId': Id, tx: Tx)
    requires TxInv(rows, log, nextId, tx) && nextId <= nextId'
    ensures TxInv(rows, log, nextId', tx)
  {
    hide Progress, Overlooks, Clear, KeysOnce;
  }

  /** One transaction takes a step that leaves the committed rows and the log alone. */
  lemma Replaced(w: World, w': World, t: Id, tx: Tx)
    requires Inv(w) && w'.rows == w.rows && w'.log == w.log && w'.nextId >= w.nextId && w'.txs == w.txs[t := tx]
    requires TxInv(w.rows, w.log, w'.nextId, tx)
    requires forall u :: u in w.txs && u != t ==> Apart(tx, w.txs[u]) && Apart(w.txs[u], tx)
    ensures Inv(w')
  {
    hide TxInv, Apart, NoClash;
    forall u | u in w'.txs ensures TxInv(w'.rows, w'.log, w'.nextId, w'.txs[u]) {
      if u != t { IdsGrow(w.rows, w.log, w.nextId, w'.nextId, w.txs[u]); }
    }
  }

  lemma BeginKeeps(w: World, t: Id, gens: seq<Row>)
    requires Inv(w) && Next(w, Begin(t, gens)).Some?
    ensures Inv(Next(w, Begin(t, gens)).value)
  {
    hide Inv;
    var tx := Tx(gens, 0, Idle, {}, map[], map[]);
    assert TxInv(w.rows, w.log, w.nextId, tx);
    hide TxInv;
    Replaced(w, Next(w, Begin(t, gens)).value, t, tx);
  }

  lemma LookIsExact(rows: map<Id, Row>, log: seq<set<Key>>, tx: Tx)
    requires Overlooks(rows, log, tx) && tx.pos < |tx.gens| && tx.stage.Idle?
    ensures Overlooks(rows, log, LookTx(rows, log, tx))
  {
    var k, tx' := KeyOf(tx.gens[tx.pos]), LookTx(rows, log, tx);
    assert !Since(log, k, |log|) && !Survives(rows, tx', k);
    forall k' | k' in tx.lookedAt && k' != k ensures Survives(rows, tx', k') <==> Survives(rows, tx, k') {
      assert Doomed(tx', k') == Doomed(tx, k');
    }
    hide Since, Survives;
  }

  lemma LookTxInv(rows: map<Id, Row>, log: seq<set<Key>>, nextId: Id, tx: Tx)
    requires TxInv(rows, log, nextId, tx) && tx.pos < |tx.gens| && tx.stage.Idle? && forall i :: i in rows ==> i < nextId
    ensures TxInv(rows, log, nextId, LookTx(rows, log, tx))
  {
    LookIsExact(rows, log, tx);
    hide Overlooks;
  }

  lemma LookApart(rows: map<Id, Row>, log: seq<set<Key>>, nextId: Id, tx: Tx, ty: Tx)
    requires tx.pos < |tx.gens| && Apart(tx, ty) && Apart(ty, tx) && Holds(rows, nextId, ty)
    ensures Apart(LookTx(rows, log, tx), ty) && Apart(ty, LookTx(rows, log, tx))
  {
    hide KeysOnce;
  }

  lemma LookKeeps(w: World, t: Id)
    requires Inv(w) && Next(w, Look(t)).Some?
    ensures Inv(Next(w, Look(t)).value)
  {
    hide TxInv, Apart, NoClash, LookTx;
    var tx' := LookTx(w.rows, w.log, w.txs[t]);
    LookTxInv(w.rows, w.log, w.nextId, w.txs[t]);
    forall u | u in w.txs && u != t ensures Apart(tx', w.txs[u]) && Apart(w.txs[u], tx') {
      TxHolds(w.rows, w.log, w.nextId, w.txs[u]);
      LookApart(w.rows, w.log, w.nextId, w.txs[t], w.txs[u]);
    }
    Replaced(w, Next(w, Look(t)).value, t, tx');
  }

  lemma TxHolds(rows: map<Id, Row>, log: seq<set<Key>>, nextId: Id, tx: Tx)
    requires TxInv(rows, log, nextId, tx)
    ensures Holds(rows, nextId, tx)
  {
  }

  lemma DeleteIsExact(rows: map<Id, Row>, log: seq<set<Key>>, nextId: Id, tx: Tx)
    requires Holds(rows, nextId, tx) && Overlooks(rows, log, tx) && tx.pos < |tx.gens| && tx.stage.Looked?
    ensures Overlooks(rows, log, DeleteTx(rows, tx))
  {
    var tx' := DeleteTx(rows, tx);
    forall k | k in tx.lookedAt ensures Survives(rows, tx', k) <==> Survives(rows, tx, k) {
      assert forall i :: i in rows && KeyOf(rows[i]) == k ==> (i in Doomed(tx', k) <==> i in Doomed(tx, k));
    }
    hide Since, Survives;
  }

  lemma DeleteTxInv(rows: map<Id, Row>, log: seq<set<Key>>, nextId: Id, tx: Tx)
    requires TxInv(rows, log, nextId, tx) && tx.pos < |tx.gens| && tx.stage.Looked?
    ensures TxInv(rows, log, nextId, DeleteTx(rows, tx))
  {
    DeleteIsExact(rows, log, nextId, tx);
    DeleteHolds(rows, nextId, tx);
    DeleteProgress(tx, rows);
    hide Overlooks, Holds, Progress;
  }

  lemma DeleteHolds(rows: map<Id, Row>, nextId: Id, tx: Tx)
    requires Holds(rows, nextId, tx) && Progress(tx) && tx.pos < |tx.gens| && tx.stage.Looked?
    ensures Holds(rows, nextId, DeleteTx(rows, tx))
  {
  }

  lemma DeleteProgress(tx: Tx, rows: map<Id, Row>)
    requires Progress(tx) && tx.pos < |tx.gens| && tx.stage.Looked?
    ensures Progress(DeleteTx(rows, tx))
  {
    var tx' := DeleteTx(rows, tx);
    forall k | k in tx.lookedAt && !PendingOn(tx, k) ensures Has(tx'.added, k) {
      var a :| a in tx.added && KeyOf(tx.added[a]) == k;
      assert a in tx'.added;
    }
  }

  lemma DeleteApart(rows: map<Id, Row>, tx: Tx, ty: Tx)
    requires tx.pos < |tx.gens| && tx.stage.Looked? && Apart(tx, ty) && Apart(ty, tx) && ty.deleted !! tx.stage.seen
    ensures Apart(DeleteTx(rows, tx), ty) && Apart(ty, DeleteTx(rows, tx))
  {
  }

  lemma DeleteKeeps(w: World, t: Id)
    requires Inv(w) && Next(w, Delete(t)).Some?
    ensures Inv(Next(w, Delete(t)).value)
  {
    hide TxInv, Apart, NoClash, DeleteTx;
    var tx' := DeleteTx(w.rows, w.txs[t]);
    DeleteTxInv(w.rows, w.log, w.nextId, w.txs[t]);
    forall u | u in w.txs && u != t ensures Apart(tx', w.txs[u]) && Apart(w.txs[u], tx') {
      DeleteApart(w.rows, w.txs[t], w.txs[u]);
    }
    Replaced(w, Next(w, Delete(t)).value, t, tx');
  }

  lemma InsertIsExact(rows: map<Id, Row>, log: seq<set<Key>>, id: Id, tx: Tx)
    requires Overlooks(rows, log, tx) && tx.pos < |tx.gens| && tx.stage.Cleared?
    ensures Overlooks(rows, log, InsertTx(id, tx))
  {
    forall k | k in tx.lookedAt ensures Survives(rows, InsertTx(id, tx), k) <==> Survives(rows, tx, k) {
      assert Doomed(InsertTx(id, tx), k) == Doomed(tx, k);
    }
    hide Since, Survives;
  }

  lemma InsertProgress(id: Id, tx: Tx)
    requires Progress(tx) && tx.pos < |tx.gens| && tx.stage.Cleared? && id !in tx.added
    ensures Progress(InsertTx(id, tx))
  {
    var tx' := InsertTx(id, tx);
    forall k | k in tx.lookedAt ensures Has(tx'.added, k) {
      if PendingOn(tx, k) {
        assert KeyOf(tx'.added[id]) == k;
      } else {
        var a :| a in tx.added && KeyOf(tx.added[a]) == k;
        assert tx'.added[a] == tx.added[a];
      }
    }
  }

  lemma InsertHolds(rows: map<Id, Row>, id: Id, tx: Tx)
    requires Holds(rows, id, tx) && Progress(tx) && tx.pos < |tx.gens| && tx.stage.Cleared? && id !in rows
    ensures Holds(rows, id + 1, InsertTx(id, tx))
  {
    assert forall a :: a in tx.added ==> KeyOf(tx.added[a]) != KeyOf(tx.gens[tx.pos]);
  }

  lemma InsertClear(rows: map<Id, Row>, id: Id, tx: Tx)
    requires Clear(rows, tx) && tx.pos < |tx.gens|
    requires forall i :: i in rows && i !in tx.deleted ==> !Clash(rows[i], tx.gens[tx.pos])
    ensures Clear(rows, InsertTx(id, tx))
  {
  }

  lemma InsertTxInv(rows: map<Id, Row>, log: seq<set<Key>>, id: Id, tx: Tx)
    requires TxInv(rows, log, id, tx) && tx.pos < |tx.gens| && tx.stage.Cleared? && id !in rows
    requires forall i :: i in rows && i !in tx.deleted ==> !Clash(rows[i], tx.gens[tx.pos])
    ensures TxInv(rows, log, id + 1, InsertTx(id, tx))
  {
    InsertIsExact(rows, log, id, tx);
    InsertHolds(rows, id, tx);
    assert id !in tx.added;
    InsertProgress(id, tx);
    InsertClear(rows, id, tx);
    hide Overlooks, Holds, Progress, Clear;
  }

  lemma InsertApart(rows: map<Id, Row>, id: Id, tx: Tx, ty: Tx)
    requires Apart(tx, ty) && Apart(ty, tx) && Holds(rows, id, ty) && tx.pos < |tx.gens|
    requires forall a :: a in ty.added ==> !Clash(ty.added[a], tx.gens[tx.pos])
    ensures Apart(InsertTx(id, tx), ty) && Apart(ty, InsertTx(id, tx))
  {
    hide KeysOnce;
  }

  lemma InsertKeeps(w: World, t: Id)
    requires Inv(w) && Next(w, Insert(t)).Some?
    ensures Inv(Next(w, Insert(t)).value)
  {
    hide Apart, TxInv, InsertTx, KeysOnce, Clash, NoClash;
    var tx, tx' := w.txs[t], InsertTx(w.nextId, w.txs[t]);
    InsertTxInv(w.rows, w.log, w.nextId, tx);
    forall u | u in w.txs && u != t ensures Apart(tx', w.txs[u]) && Apart(w.txs[u], tx') {
      TxHolds(w.rows, w.log, w.nextId, w.txs[u]);
      InsertApart(w.rows, w.nextId, tx, w.txs[u]);
    }
    hide Insertable;
    Replaced(w, Next(w, Insert(t)).value, t, tx');
  }

  lemma AbortKeeps(w: World, t: Id)
    requires Inv(w) && Next(w, Abort(t)).Some?
    ensures Inv(Next(w, Abort(t)).value)
  {
    hide TxInv, Apart, RowsInv;
  }

  // ── Committing ───────────────────────────────────────────────────────

  function Committed(rows: map<Id, Row>, tx: Tx): map<Id, Row> { (rows - tx.deleted) + tx.added }

  /** All of t's keys are in the log's new entry. */
  lemma CommitsItsKeys(tx: Tx, k: Key)
    requires Progress(tx) && tx.pos >= |tx.gens|
    ensures k in tx.lookedAt ==> Has(tx.added, k) && k in KeysOf(tx.added)
  {
    if k in tx.lookedAt {
      var a :| a in tx.added && KeyOf(tx.added[a]) == k;
    }
  }

  lemma SinceStep(log: seq<set<Key>>, keys: set<Key>, k: Key, n: nat)
    requires n <= |log|
    ensures Since(log + [keys], k, n) <==> Since(log, k, n) || k in keys
  {
    if k in keys { assert (log + [keys])[|log|] == keys; }
    if i :| n <= i < |log| && k in log[i] { assert (log + [keys])[i] == log[i]; }
  }

  /** What another transaction still overlooks after t commits. */
  lemma CommitSurvives(rows: map<Id, Row>, log: seq<set<Key>>, nextId: Id, tx: Tx, ty: Tx, k: Key)
    requires Holds(rows, nextId, tx) && Progress(tx) && tx.pos >= |tx.gens|
    requires Holds(rows, nextId, ty) && Apart(tx, ty) && Apart(ty, tx)
    ensures Survives(Committed(rows, tx), ty, k) <==> Survives(rows, ty, k) || k in KeysOf(tx.added)
  {
    var rows' := Committed(rows, tx);
    CommitsItsKeys(tx, k);
    if k in KeysOf(tx.added) {
      var a :| a in tx.added && KeyOf(tx.added[a]) == k;
      assert rows'[a] == tx.added[a] && a !in Doomed(ty, k);
    } else if i :| i in rows && KeyOf(rows[i]) == k && i !in Doomed(ty, k) {
      assert i !in tx.deleted && rows'[i] == rows[i];
    }
    if i :| i in rows' && KeyOf(rows'[i]) == k && i !in Doomed(ty, k) {
      if i in tx.added { assert KeyOf(tx.added[i]) in KeysOf(tx.added); } else { assert rows[i] == rows'[i]; }
    }
  }

  lemma CommitOverlooks(rows: map<Id, Row>, log: seq<set<Key>>, nextId: Id, tx: Tx, ty: Tx)
    requires Holds(rows, nextId, tx) && Progress(tx) && tx.pos >= |tx.gens|
    requires Holds(rows, nextId, ty) && Overlooks(rows, log, ty) && Apart(tx, ty) && Apart(ty, tx)
    ensures Overlooks(Committed(rows, tx), log + [KeysOf(tx.added)], ty)
  {
    forall k | k in ty.lookedAt
      ensures ty.lookedAt[k] <= |log| + 1
      ensures Survives(Committed(rows, tx), ty, k) <==> Since(log + [KeysOf(tx.added)], k, ty.lookedAt[k])
    {
      CommitSurvives(rows, log, nextId, tx, ty, k);
      SinceStep(log, KeysOf(tx.added), k, ty.lookedAt[k]);
      hide Survives, Since;
    }
  }

  lemma CommitHolds(rows: map<Id, Row>, nextId: Id, tx: Tx, ty: Tx)
    requires Holds(rows, nextId, tx) && Holds(rows, nextId, ty) && Apart(tx, ty) && Apart(ty, tx)
    ensures Holds(Committed(rows, tx), nextId, ty)
  {
    hide KeysOnce;
  }

  lemma CommitTxInv(rows: map<Id, Row>, log: seq<set<Key>>, nextId: Id, tx: Tx, ty: Tx)
    requires TxInv(rows, log, nextId, tx) && tx.pos >= |tx.gens|
    requires TxInv(rows, log, nextId, ty) && Apart(tx, ty) && Apart(ty, tx)
    ensures TxInv(Committed(rows, tx), log + [KeysOf(tx.added)], nextId, ty)
  {
    CommitOverlooks(rows, log, nextId, tx, ty);
    CommitHolds(rows, nextId, tx, ty);
    hide Holds, Overlooks, Progress;
  }

  lemma CommitRows(rows: map<Id, Row>, nextId: Id, tx: Tx)
    requires RowsInv(rows, nextId) && Holds(rows, nextId, tx) && Clear(rows, tx)
    ensures RowsInv(Committed(rows, tx), nextId)
  {
    var rows' := Committed(rows, tx);
    forall i, j | i in rows' && j in rows' && i != j ensures !Clash(rows'[i], rows'[j]) {
      if i in tx.added && j in tx.added { assert KeyOf(tx.added[i]) != KeyOf(tx.added[j]); }
    }
  }

  lemma CommitKeeps(w: World, t: Id)
    requires Inv(w) && Next(w, Commit(t)).Some?
    ensures Inv(Next(w, Commit(t)).value)
  {
    var tx, w' := w.txs[t], Next(w, Commit(t)).value;
    assert TxInv(w.rows, w.log, w.nextId, tx);
    CommitRows(w.rows, w.nextId, tx);
    assert w'.rows == Committed(w.rows, tx);
    hide Apart, TxInv, RowsInv, Committed, KeysOf;
    forall u | u in w'.txs ensures TxInv(w'.rows, w'.log, w'.nextId, w'.txs[u]) {
      CommitTxInv(w.rows, w.log, w.nextId, tx, w.txs[u]);
    }
  }

  lemma StepKeeps(w: World, step: Step)
    requires Inv(w) && Next(w, step).Some?
    ensures Inv(Next(w, step).value)
  {
    hide Inv;
    match step
    case Begin(t, gens) => BeginKeeps(w, t, gens);
    case Look(t) => LookKeeps(w, t);
    case Delete(t) => DeleteKeeps(w, t);
    case Insert(t) => InsertKeeps(w, t);
    case Commit(t) => CommitKeeps(w, t);
    case Abort(t) => AbortKeeps(w, t);
  }

  lemma {:induction false} RunKeepsInv(from: World, steps: seq<Step>)
    requires Initial(from) && Run(from, steps).Some?
    ensures Inv(Run(from, steps).value)
  {
    if steps != [] {
      hide Inv, Next, Initial;
      RunKeepsInv(from, steps[..|steps| - 1]);
      StepKeeps(Run(from, steps[..|steps| - 1]).value, steps[|steps| - 1]);
    }
  }

  // ── When duplicates arise ────────────────────────────────────────────

  /** Since t's DELETE for one of its keys looked, another transaction committed a row with that key. */
  ghost predicate Overtaken(log: seq<set<Key>>, tx: Tx) {
    exists k :: k in tx.lookedAt && Since(log, k, tx.lookedAt[k])
  }

  lemma CommitMakesDuplicatesIff(rows: map<Id, Row>, log: seq<set<Key>>, nextId: Id, tx: Tx)
    requires TxInv(rows, log, nextId, tx) && tx.pos >= |tx.gens| && KeysOnce(rows)
    ensures KeysOnce(Committed(rows, tx)) <==> !Overtaken(log, tx)
  {
    var rows' := Committed(rows, tx);
    forall i | i in rows && i !in tx.deleted ensures Survives(rows, tx, KeyOf(rows[i])) {
      LeftSurvives(rows, tx, i);
    }
    if k :| k in tx.lookedAt && Since(log, k, tx.lookedAt[k]) {
      assert Survives(rows, tx, k);
      var i :| i in rows && KeyOf(rows[i]) == k && i !in Doomed(tx, k);
      CommitsItsKeys(tx, k);
      var a :| a in tx.added && KeyOf(tx.added[a]) == k;
      assert rows'[i] == rows[i] && rows'[a] == tx.added[a] && i != a;
    } else {
      hide Survives, Since;
      assert forall k :: k in tx.lookedAt ==> !Survives(rows, tx, k);
    }
  }

  lemma LeftSurvives(rows: map<Id, Row>, tx: Tx, i: Id)
    requires Progress(tx) && tx.pos >= |tx.gens| && i in rows && i !in tx.deleted
    ensures Survives(rows, tx, KeyOf(rows[i]))
  {
    assert i !in Doomed(tx, KeyOf(rows[i]));
  }

  /**
    At any point of any run with no duplicates, a commit makes one if and only if another
    transaction has committed a row with one of its keys since its DELETE for that key looked.
   */
  lemma DuplicatesIffOvertaken(from: World, steps: seq<Step>, t: Id)
    requires Initial(from) && Run(from, steps).Some?
    requires KeysOnce(Run(from, steps).value.rows) && Next(Run(from, steps).value, Commit(t)).Some?
    ensures var w := Run(from, steps).value;
            KeysOnce(Next(w, Commit(t)).value.rows) <==> !Overtaken(w.log, w.txs[t])
  {
    RunKeepsInv(from, steps);
    var w := Run(from, steps).value;
    assert TxInv(w.rows, w.log, w.nextId, w.txs[t]);
    CommitMakesDuplicatesIff(w.rows, w.log, w.nextId, w.txs[t]);
  }

  ghost predicate AllNamed(rows: map<Id, Row>) { forall i :: i in rows ==> rows[i].subtype.Some? }

  /** Every row there is or to be put has a subtype. */
  ghost predicate PutsNamed(w: World) {
    AllNamed(w.rows) && forall t :: t in w.txs ==> AllNamed(w.txs[t].added) && forall r :: r in w.txs[t].gens ==> r.subtype.Some?
  }

  lemma StepStaysNamed(w: World, step: Step)
    requires PutsNamed(w) && Next(w, step).Some? && (step.Begin? ==> forall r :: r in step.gens ==> r.subtype.Some?)
    ensures PutsNamed(Next(w, step).value)
  {
    hide KeyOf;
  }

  lemma {:induction false} NamedStaysNamed(from: World, steps: seq<Step>)
    requires Initial(from) && AllNamed(from.rows) && Run(from, steps).Some?
    requires forall s :: s in steps && s.Begin? ==> forall r :: r in s.gens ==> r.subtype.Some?
    ensures PutsNamed(Run(from, steps).value)
  {
    if steps != [] {
      hide Next, PutsNamed, Initial;
      NamedStaysNamed(from, steps[..|steps| - 1]);
      StepStaysNamed(Run(from, steps[..|steps| - 1]).value, steps[|steps| - 1]);
    } else {
      assert PutsNamed(from);
    }
  }

  /** The unique index does prevent duplicates, however transactions overlap, when no subtype is null. */
  lemma NamedSubtypesNeverDuplicate(from: World, steps: seq<Step>)
    requires Initial(from) && AllNamed(from.rows) && Run(from, steps).Some?
    requires forall s :: s in steps && s.Begin? ==> forall r :: r in s.gens ==> r.subtype.Some?
    ensures KeysOnce(Run(from, steps).value.rows)
  {
    RunKeepsInv(from, steps);
    NamedStaysNamed(from, steps);
    var rows := Run(from, steps).value.rows;
    assert NoClash(rows) && AllNamed(rows);
    hide Run, Inv, PutsNamed;
    forall i, j | i in rows && j in rows && KeyOf(rows[i]) == KeyOf(rows[j]) ensures i == j {
      assert rows[i] == rows[j];
    }
  }

  // ── Two generate calls that overlap ──────────────────────────────────

  ghost predicate Reachable(w: World) { exists steps :: Run(START, steps) == Some(w) }

  lemma ReachNext(w: World, step: Step)
    requires Reachable(w) && Next(w, step).Some?
    ensures Reachable(Next(w, step).value)
  {
    hide Next;
    var steps :| Run(START, steps) == Some(w);
    assert (steps + [step])[..|steps|] == steps;
    assert Run(START, steps + [step]) == Some(Next(w, step).value);
  }

  const LINUX := Row(1, "linux", None)
  const BEGUN := Tx([LINUX], 0, Idle, {}, map[], map[])
  const LOOKING := Tx([LINUX], 0, Looked({}), {}, map[], map[KeyOf(LINUX) := 0])
  const DELETED := Tx([LINUX], 0, Cleared, {}, map[], map[KeyOf(LINUX) := 0])

  function Inserted(id: Id): Tx { Tx([LINUX], 1, Idle, {}, map[id := LINUX], map[KeyOf(LINUX) := 0]) }

  /** Two transactions over an empty table. */
  function Two(a: Tx, b: Tx, nextId: Id): World { World(map[], map[1 := a, 2 := b], [], nextId) }

  lemma TxSteps(id: Id)
    ensures LookTx(map[], [], BEGUN) == LOOKING
    ensures DeleteTx(map[], LOOKING) == DELETED
    ensures InsertTx(id, DELETED) == Inserted(id)
  {
    var none: map<Id, Row> := map[];
    assert Matching(none, KeyOf(LINUX)) == {};
    assert none - Matching(none, KeyOf(LINUX)) == none;
  }

  lemma OneOfTwo(a: Tx, b: Tx, c: Tx)
    ensures map[1 := a, 2 := b][1 := c] == map[1 := c, 2 := b]
    ensures map[1 := a, 2 := b][2 := c] == map[1 := a, 2 := c]
  {
  }

  lemma BothLook()
    ensures Next(START, Begin(1, [LINUX])).Some?
    ensures Next(Next(START, Begin(1, [LINUX])).value, Begin(2, [LINUX])) == Some(Two(BEGUN, BEGUN, 0))
    ensures Next(Two(BEGUN, BEGUN, 0), Look(1)) == Some(Two(LOOKING, BEGUN, 0))
    ensures Next(Two(LOOKING, BEGUN, 0), Look(2)) == Some(Two(LOOKING, LOOKING, 0))
  {
    TxSteps(0);
    OneOfTwo(BEGUN, BEGUN, LOOKING);
    OneOfTwo(LOOKING, BEGUN, LOOKING);
    hide LookTx;
  }

  lemma BothDelete()
    ensures Next(Two(LOOKING, LOOKING, 0), Delete(1)) == Some(Two(DELETED, LOOKING, 0))
    ensures Next(Two(DELETED, LOOKING, 0), Delete(2)) == Some(Two(DELETED, DELETED, 0))
  {
    TxSteps(0);
    OneOfTwo(LOOKING, LOOKING, DELETED);
    OneOfTwo(DELETED, LOOKING, DELETED);
    hide DeleteTx;
  }

  lemma BothInsert()
    ensures Next(Two(DELETED, DELETED, 0), Insert(1)) == Some(Two(Inserted(0), DELETED, 1))
    ensures Next(Two(Inserted(0), DELETED, 1), Insert(2)) == Some(Two(Inserted(0), Inserted(1), 2))
  {
    TxSteps(0);
    TxSteps(1);
    OneOfTwo(DELETED, DELETED, Inserted(0));
    OneOfTwo(Inserted(0), DELETED, Inserted(1));
    hide InsertTx;
  }

  lemma BothCommit()
    ensures var w := Next(Two(Inserted(0), Inserted(1), 2), Commit(1));
            w.Some? && var w' := Next(w.value, Commit(2)); w'.Some? && w'.value.rows == map[0 := LINUX, 1 := LINUX]
  {
  }

  /** Both delete, finding nothing; both insert, the null subtype escaping the unique index; both commit. */
  lemma OverlapDuplicates()
    ensures exists w :: Reachable(w) && !KeysOnce(w.rows)
  {
    BothLook();
    BothDelete();
    BothInsert();
    BothCommit();
    assert Run(START, []) == Some(START);
    hide Run, Next, Two;
    assert Reachable(START);
    ReachNext(START, Begin(1, [LINUX]));
    ReachNext(Next(START, Begin(1, [LINUX])).value, Begin(2, [LINUX]));
    ReachNext(Two(BEGUN, BEGUN, 0), Look(1));
    ReachNext(Two(LOOKING, BEGUN, 0), Look(2));
    ReachNext(Two(LOOKING, LOOKING, 0), Delete(1));
    ReachNext(Two(DELETED, LOOKING, 0), Delete(2));
    ReachNext(Two(DELETED, DELETED, 0), Insert(1));
    ReachNext(Two(Inserted(0), DELETED, 1), Insert(2));
    var w := Next(Two(Inserted(0), Inserted(1), 2), Commit(1)).value;
    ReachNext(Two(Inserted(0), Inserted(1), 2), Commit(1));
    ReachNext(w, Commit(2));
    var rows := Next(w, Commit(2)).value.rows;
    assert KeyOf(rows[0]) == KeyOf(rows[1]);
  }

}
