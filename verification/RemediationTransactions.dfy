/**
  The same workflow as clients run it: each call is a transaction that locks the item's row
  (SELECT ... FOR UPDATE), checks it, writes the row, records the history entry and commits.
  Any number of transactions interleave, and any of them may abort at any point. What a
  transaction writes is invisible to the others until it commits.
 */
module RemediationTransactions {
  import opened Common
  import opened Remediation

  type TxId = nat

  /** How far a transaction has come; `row` and `entry` are its uncommitted writes. */
  datatype Tx =
    | Begun(call: Call)
    | Locked(call: Call, seen: Item)
    | Checked(call: Call, row: Item)
    | Written(call: Call, row: Item)
    | Recorded(call: Call, row: Item, entry: Entry)
    | Committed
    | Aborted
  {
    predicate Holds() {
      Locked? || Checked? || Written? || Recorded?
    }
  }

  /** What became visible, in commit order. */
  datatype Effective =
    | Applied(tx: TxId, call: Call)
    | Inserted(id: Id, user: Id, tenant: Id, origin: Origin, now: Time)
    | UserAdded(user: Id, tenant: Id)

  datatype World = World(db: Db, locks: map<Id, TxId>, txs: map<TxId, Tx>, log: seq<Effective>)

  datatype Step =
    | Begin(tx: TxId, call: Call)
    | Lock(tx: TxId)
    | Check(tx: TxId)
    | Write(tx: TxId)
    | Record(tx: TxId)
    | Commit(tx: TxId)
    | Abort(tx: TxId)
    | InsertItem(id: Id, user: Id, tenant: Id, origin: Origin, now: Time)
    | AddUser(user: Id, tenant: Id)

  function Initial(db: Db): World {
    World(db, map[], map[], [])
  }

  function Set(w: World, t: TxId, tx: Tx): World {
    w.(txs := w.txs[t := tx])
  }

  function Release(w: World, t: TxId): map<Id, TxId> {
    map item | item in w.locks && w.locks[item] != t :: w.locks[item]
  }

  /** The world after a step, or None when the step cannot be taken now (a lock that is held blocks). */
  function Next(w: World, step: Step): Option<World> {
    match step
    case Begin(t, call) =>
      if t in w.txs || !WellFormed(call.action) then None else Some(Set(w, t, Begun(call)))
    case Lock(t) =>
      if t !in w.txs || !w.txs[t].Begun? then None
      else
        var call := w.txs[t].call;
        if !Visible(w.db, call.item, call.tenant) || call.item in w.locks then None
        else Some(Set(w, t, Locked(call, w.db.items[call.item])).(locks := w.locks[call.item := t]))
    case Check(t) =>
      if t !in w.txs || !w.txs[t].Locked? then None
      else
        var decision := Decide(w.db.users, w.txs[t].seen, w.txs[t].call);
        if decision.Err? then None else Some(Set(w, t, Checked(w.txs[t].call, decision.value)))
    case Write(t) =>
      if t !in w.txs || !w.txs[t].Checked? then None
      else Some(Set(w, t, Written(w.txs[t].call, w.txs[t].row)))
    case Record(t) =>
      if t !in w.txs || !w.txs[t].Written? then None
      else Some(Set(w, t, Recorded(w.txs[t].call, w.txs[t].row, EntryOf(w.txs[t].call))))
    case Commit(t) =>
      if t !in w.txs || !w.txs[t].Recorded? then None
      else
        var Recorded(call, row, entry) := w.txs[t];
        Some(World(
          w.db.(items := w.db.items[call.item := row], history := w.db.history + [entry]),
          Release(w, t), w.txs[t := Committed], w.log + [Applied(t, call)]))
    case Abort(t) =>
      if t !in w.txs || w.txs[t].Committed? || w.txs[t].Aborted? then None
      else Some(Set(w, t, Aborted).(locks := Release(w, t)))
    case InsertItem(id, user, tenant, origin, now) =>
      if id in w.db.items then None
      else Some(w.(db := Insert(w.db, id, user, tenant, origin, now),
                   log := w.log + [Inserted(id, user, tenant, origin, now)]))
    case AddUser(user, tenant) =>
      if user in w.db.users then None
      else Some(w.(db := w.db.(users := w.db.users[user := tenant]), log := w.log + [UserAdded(user, tenant)]))
  }

  function Run(w: World, steps: seq<Step>): Option<World> {
    if steps == [] then Some(w)
    else
      match Run(w, steps[..|steps| - 1])
      case None => None
      case Some(mid) => Next(mid, steps[|steps| - 1])
  }

  /** The serial reading of one log record: the whole call at once. */
  function ApplyOne(db: Db, v: Effective): Option<Db> {
    match v
    case Applied(_, call) =>
      (match Execute(db, call)
       case Ok(db') => Some(db')
       case Err(_) => None)
    case Inserted(id, user, tenant, origin, now) =>
      if id in db.items then None else Some(Insert(db, id, user, tenant, origin, now))
    case UserAdded(user, tenant) =>
      if user in db.users then None else Some(db.(users := db.users[user := tenant]))
  }

  /** Running the committed calls one at a time, in commit order. */
  function Serial(db: Db, log: seq<Effective>): Option<Db> {
    if log == [] then Some(db)
    else
      match Serial(db, log[..|log| - 1])
      case None => None
      case Some(mid) => ApplyOne(mid, log[|log| - 1])
  }

  // ── The invariant ────────────────────────────────────────────────────

  /** What a lock holder has read and computed is still what the committed row says. */
  ghost predicate UpToDate(db: Db, tx: Tx)
    requires tx.Holds()
  {
    && WellFormed(tx.call.action) && Visible(db, tx.call.item, tx.call.tenant)
    && (tx.Locked? ==> tx.seen == db.items[tx.call.item])
    && (!tx.Locked? ==> Decide(db.users, db.items[tx.call.item], tx.call) == Ok(tx.row))
    && (tx.Recorded? ==> tx.entry == EntryOf(tx.call))
  }

  ghost predicate LocksHeld(w: World) {
    && (forall t :: t in w.txs && w.txs[t].Holds() ==>
          w.txs[t].call.item in w.locks && w.locks[w.txs[t].call.item] == t && UpToDate(w.db, w.txs[t]))
    && (forall t :: t in w.txs && w.txs[t].Begun? ==> WellFormed(w.txs[t].call.action))
    && (forall item :: item in w.locks ==>
          && w.locks[item] in w.txs
          && w.txs[w.locks[item]].Holds()
          && w.txs[w.locks[item]].call.item == item)
  }

  predicate LoggedAt(log: seq<Effective>, k: nat, t: TxId) {
    k < |log| && log[k].Applied? && log[k].tx == t
  }

  /** The log holds exactly the committed transactions, each once. */
  ghost predicate LogIsCommitted(w: World) {
    && (forall t :: t in w.txs && w.txs[t].Committed? ==> exists k :: LoggedAt(w.log, k, t))
    && (forall t, k :: LoggedAt(w.log, k, t) ==> t in w.txs && w.txs[t].Committed?)
    && (forall t, k, l :: LoggedAt(w.log, k, t) && LoggedAt(w.log, l, t) ==> k == l)
  }

  ghost predicate Inv(db0: Db, w: World) {
    && LocksHeld(w)
    && LogIsCommitted(w)
    && Serial(db0, w.log) == Some(w.db)
  }

  lemma SerialAppend(db0: Db, log: seq<Effective>, v: Effective)
    ensures Serial(db0, log).Some? ==> Serial(db0, log + [v]) == ApplyOne(Serial(db0, log).value, v)
  {
    assert (log + [v])[..|log|] == log;
  }

  /** A new user never turns an accepted decision into another one. */
  lemma DecideMonotone(users: map<Id, Id>, user: Id, tenant: Id, item: Item, call: Call)
    requires user !in users && Decide(users, item, call).Ok?
    ensures Decide(users[user := tenant], item, call) == Decide(users, item, call)
  {
  }

  lemma LogStays(w: World, w': World)
    requires LogIsCommitted(w) && w'.log == w.log
    requires forall t :: t in w.txs && w.txs[t].Committed? <==> t in w'.txs && w'.txs[t].Committed?
    ensures LogIsCommitted(w')
  {
  }

  lemma LogGrows(w: World, w': World, v: Effective)
    requires LogIsCommitted(w) && w'.log == w.log + [v]
    requires forall t :: t in w'.txs && w'.txs[t].Committed? <==>
                    (t in w.txs && w.txs[t].Committed?) || (v.Applied? && t == v.tx)
    requires v.Applied? ==> v.tx in w.txs && !w.txs[v.tx].Committed?
    ensures LogIsCommitted(w')
  {
    forall t: TxId, k: nat | LoggedAt(w'.log, k, t)
      ensures t in w'.txs && w'.txs[t].Committed?
      ensures k < |w.log| ==> LoggedAt(w.log, k, t)
    {
      if k < |w.log| { assert LoggedAt(w.log, k, t); }
    }
    forall t | t in w'.txs && w'.txs[t].Committed?
      ensures exists k :: LoggedAt(w'.log, k, t)
    {
      if v.Applied? && t == v.tx {
        assert LoggedAt(w'.log, |w.log|, t);
      } else {
        var k :| LoggedAt(w.log, k, t);
        assert LoggedAt(w'.log, k, t);
      }
    }
  }

  // Steps that publish nothing.

  lemma StartStep(db0: Db, w: World, step: Step)
    requires Inv(db0, w) && Next(w, step).Some? && (step.Begin? || step.Lock?)
    ensures Inv(db0, Next(w, step).value)
  {
    hide Serial, Decide, LogIsCommitted, EntryOf;
    LogStays(w, Next(w, step).value);
  }

  lemma WorkStep(db0: Db, w: World, step: Step)
    requires Inv(db0, w) && Next(w, step).Some? && (step.Check? || step.Write? || step.Record?)
    ensures Inv(db0, Next(w, step).value)
  {
    hide Serial, Decide, LogIsCommitted, EntryOf;
    LogStays(w, Next(w, step).value);
  }

  lemma AbortStep(db0: Db, w: World, step: Step)
    requires Inv(db0, w) && Next(w, step).Some? && (step.Abort?)
    ensures Inv(db0, Next(w, step).value)
  {
    hide Serial, Decide, LogIsCommitted, EntryOf;
    LogStays(w, Next(w, step).value);
  }

  lemma CommitStep(db0: Db, w: World, t: TxId)
    requires Inv(db0, w) && Next(w, Commit(t)).Some?
    ensures Inv(db0, Next(w, Commit(t)).value)
  {
    hide Serial, Decide, LogIsCommitted, EntryOf;
    var w' := Next(w, Commit(t)).value;
    var call := w.txs[t].call;
    assert Execute(w.db, call) == Ok(w'.db);
    SerialAppend(db0, w.log, Applied(t, call));
    LogGrows(w, w', Applied(t, call));
  }

  lemma InsertStep(db0: Db, w: World, step: Step)
    requires step.InsertItem? && Inv(db0, w) && Next(w, step).Some?
    ensures Inv(db0, Next(w, step).value)
  {
    hide Serial, Decide, LogIsCommitted, EntryOf;
    var w' := Next(w, step).value;
    var v := Inserted(step.id, step.user, step.tenant, step.origin, step.now);
    SerialAppend(db0, w.log, v);
    LogGrows(w, w', v);
  }

  lemma AddUserStep(db0: Db, w: World, user: Id, tenant: Id)
    requires Inv(db0, w) && Next(w, AddUser(user, tenant)).Some?
    ensures Inv(db0, Next(w, AddUser(user, tenant)).value)
  {
    hide Serial, Decide, LogIsCommitted, EntryOf;
    var w' := Next(w, AddUser(user, tenant)).value;
    SerialAppend(db0, w.log, UserAdded(user, tenant));
    LogGrows(w, w', UserAdded(user, tenant));
    forall t | t in w.txs && w.txs[t].Holds()
      ensures UpToDate(w'.db, w.txs[t])
    {
      var tx := w.txs[t];
      if Decide(w.db.users, w.db.items[tx.call.item], tx.call).Ok? {
        DecideMonotone(w.db.users, user, tenant, w.db.items[tx.call.item], tx.call);
      }
    }
  }

  lemma {:induction false} RunKeepsInv(db0: Db, steps: seq<Step>)
    requires Run(Initial(db0), steps).Some?
    ensures Inv(db0, Run(Initial(db0), steps).value)
  {
    if steps != [] {
      var before, step := steps[..|steps| - 1], steps[|steps| - 1];
      RunKeepsInv(db0, before);
      var w := Run(Initial(db0), before).value;
      hide Inv, Next;
      match step
      case Commit(t) => CommitStep(db0, w, t);
      case InsertItem(_, _, _, _, _) => InsertStep(db0, w, step);
      case AddUser(user, tenant) => AddUserStep(db0, w, user, tenant);
      case Abort(_) => AbortStep(db0, w, step);
      case _ =>
        if step.Begin? || step.Lock? { StartStep(db0, w, step); } else { WorkStep(db0, w, step); }
    }
  }

  /**
    Serializability: whatever the interleaving, the items and the history are those of running
    exactly the committed calls, each once, one at a time in commit order, and every one of
    those serial calls is accepted.
   */
  lemma Serializable(db0: Db, steps: seq<Step>)
    requires Run(Initial(db0), steps).Some?
    ensures var w := Run(Initial(db0), steps).value;
            Serial(db0, w.log) == Some(w.db) && LogIsCommitted(w)
  {
    RunKeepsInv(db0, steps);
  }

  lemma {:induction false} SerialKeepsConsistent(db0: Db, log: seq<Effective>)
    requires Consistent(db0) && Serial(db0, log).Some?
    ensures Consistent(Serial(db0, log).value)
  {
    hide Consistent;
    if log != [] {
      SerialKeepsConsistent(db0, log[..|log| - 1]);
      var mid := Serial(db0, log[..|log| - 1]).value;
      match log[|log| - 1]
      case Applied(_, call) => ExecuteKeepsConsistent(mid, call);
      case Inserted(id, user, tenant, origin, now) => InsertKeepsConsistent(mid, id, user, tenant, origin, now);
      case UserAdded(user, tenant) => AddUserKeepsConsistent(mid, user, tenant);
    }
  }

  lemma AddUserKeepsConsistent(db: Db, user: Id, tenant: Id)
    requires Consistent(db)
    ensures Consistent(db.(users := db.users[user := tenant]))
  {
    hide Explains;
  }

  /** In every interleaved run each history is a legal path to its item, with four eyes on each verdict. */
  lemma InterleavedHistoriesExplain(db0: Db, steps: seq<Step>)
    requires Consistent(db0) && Run(Initial(db0), steps).Some?
    ensures Consistent(Run(Initial(db0), steps).value.db)
  {
    Serializable(db0, steps);
    SerialKeepsConsistent(db0, Run(Initial(db0), steps).value.log);
  }

  // ── Whom an item is assigned to ──────────────────────────────────────

  /** A committed call of the log assigns the item to the user. */
  ghost predicate AssignedIn(log: seq<Effective>, id: Id, user: Id) {
    exists k :: 0 <= k < |log| && log[k].Applied? && log[k].call.item == id && log[k].call.action == AssignTo(user)
  }

  lemma AssignedMore(log: seq<Effective>, v: Effective, id: Id, user: Id)
    ensures AssignedIn(log + [v], id, user) <==>
            AssignedIn(log, id, user) || (v.Applied? && v.call.item == id && v.call.action == AssignTo(user))
  {
    var longer := log + [v];
    if v.Applied? && v.call.item == id && v.call.action == AssignTo(user) { assert longer[|log|] == v; }
    if k :| 0 <= k < |log| && log[k].Applied? && log[k].call.item == id && log[k].call.action == AssignTo(user) {
      assert longer[k] == log[k];
    }
  }

  predicate AssignedTo(db: Db, id: Id, user: Id) {
    id in db.items && db.items[id].assignedTo == Some(user)
  }

  lemma OpenIsUnassigned(db: Db, id: Id)
    requires Consistent(db) && id in db.items
    ensures db.items[id].status == Open <==> db.items[id].assignedTo.None?
  {
    hide HistoryOf;
    assert Explains(HistoryOf(db.history, id), db.items[id]);
  }

  lemma AssignmentStep(db: Db, v: Effective, id: Id, user: Id)
    requires Consistent(db) && ApplyOne(db, v).Some?
    ensures AssignedTo(ApplyOne(db, v).value, id, user) <==>
            AssignedTo(db, id, user) || (v.Applied? && v.call.item == id && v.call.action == AssignTo(user))
  {
    if v.Applied? && id in db.items {
      CallDoesWhatItSays(db, v.call, id);
      OpenIsUnassigned(db, id);
    } else if v.Applied? {
      CallDoesWhatItSays(db, v.call, v.call.item);
    }
    hide Execute, Consistent;
  }

  lemma {:induction false} SerialAssigns(db0: Db, log: seq<Effective>, id: Id, user: Id)
    requires Consistent(db0) && Serial(db0, log).Some?
    ensures AssignedTo(Serial(db0, log).value, id, user) <==> AssignedTo(db0, id, user) || AssignedIn(log, id, user)
  {
    hide Consistent, AssignedTo, ApplyOne;
    if log == [] {
      assert !AssignedIn(log, id, user);
    } else {
      hide AssignedIn;
      var front, last := log[..|log| - 1], log[|log| - 1];
      SerialAssigns(db0, front, id, user);
      SerialKeepsConsistent(db0, front);
      AssignmentStep(Serial(db0, front).value, last, id, user);
      AssignedMore(front, last, id, user);
      assert front + [last] == log;
    }
  }

  /** Every assignee is a user of the item's tenant. */
  ghost predicate AssigneeBelongs(db: Db, id: Id) {
    id in db.items && db.items[id].assignedTo.Some? ==>
      db.items[id].assignedTo.value in db.users && db.users[db.items[id].assignedTo.value] == db.items[id].tenant
  }

  lemma {:induction false} SerialAssigneesBelong(db0: Db, log: seq<Effective>, id: Id)
    requires AssigneeBelongs(db0, id) && Serial(db0, log).Some?
    ensures AssigneeBelongs(Serial(db0, log).value, id)
  {
    hide Execute;
    if log != [] {
      var front, last := log[..|log| - 1], log[|log| - 1];
      SerialAssigneesBelong(db0, front, id);
      var mid := Serial(db0, front).value;
      if last.Applied? {
        if id in mid.items { CallDoesWhatItSays(mid, last.call, id); } else { CallKeepsItems(mid, last.call); }
      }
    }
  }

  lemma CallKeepsItems(db: Db, call: Call)
    requires Execute(db, call).Ok?
    ensures Execute(db, call).value.items.Keys == db.items.Keys
  {
    hide Decide;
  }

  /**
    In every interleaved run an item is assigned to a user exactly if it was before or a committed
    call assigned it to that user, who is of its tenant; and it is unassigned exactly while open.
   */
  lemma InterleavedAssignments(db0: Db, steps: seq<Step>, id: Id, user: Id)
    requires Consistent(db0) && Run(Initial(db0), steps).Some?
    ensures var w := Run(Initial(db0), steps).value;
            && (AssignedTo(w.db, id, user) <==> AssignedTo(db0, id, user) || AssignedIn(w.log, id, user))
            && (id in w.db.items ==> (w.db.items[id].status == Open <==> w.db.items[id].assignedTo.None?))
            && (AssigneeBelongs(db0, id) ==> AssigneeBelongs(w.db, id))
  {
    Serializable(db0, steps);
    hide Run, Consistent;
    var w := Run(Initial(db0), steps).value;
    SerialAssigns(db0, w.log, id, user);
    SerialKeepsConsistent(db0, w.log);
    if AssigneeBelongs(db0, id) { SerialAssigneesBelong(db0, w.log, id); }
    if id in w.db.items { OpenIsUnassigned(w.db, id); }
  }

  // ── Why the lock is needed ───────────────────────────────────────────

  /** The same step with `_load_item` in place of `_load_item_for_update`: no lock is asked for or taken. */
  function NextUnlocked(w: World, step: Step): Option<World> {
    if step.Lock? then
      if step.tx in w.txs && w.txs[step.tx].Begun?
         && Visible(w.db, w.txs[step.tx].call.item, w.txs[step.tx].call.tenant) then
        var call := w.txs[step.tx].call;
        Some(Set(w, step.tx, Locked(call, w.db.items[call.item])))
      else None
    else Next(w, step)
  }

  function RunUnlocked(w: World, steps: seq<Step>): Option<World>
    decreases |steps|
  {
    if steps == [] then Some(w)
    else
      match NextUnlocked(w, steps[0])
      case None => None
      case Some(mid) => RunUnlocked(mid, steps[1..])
  }

  /** Two users submit the same item: without the lock both commit, which no serial order allows. */
  lemma UnlockedReadsAreNotSerializable(db: Db, item: Item, tenant: Id)
    requires db == Db(map[0 := item], [], map[]) && item.tenant == tenant && item.status == InProgress
    ensures exists steps ::
              && RunUnlocked(Initial(db), steps).Some?
              && var w := RunUnlocked(Initial(db), steps).value;
                 |w.db.history| == 2 && Serial(db, w.log) == None
  {
    var a := Call(1, tenant, 0, SubmitWith(None), 0);
    var b := Call(2, tenant, 0, SubmitWith(None), 0);
    var rowA, rowB := Decide(db.users, item, a).value, Decide(db.users, item, b).value;
    var w := Reading(db, item, a, b);
    var s, end := BothWrite(w, a, b, item, rowA, rowB);
    s := Twice(Set(Set(Initial(db), 1, Begun(a)), 2, Begun(b)), Lock(1), Lock(2), w, s, end);
    s := Twice(Initial(db), Begin(1, a), Begin(2, b), Set(Set(Initial(db), 1, Begun(a)), 2, Begun(b)), s, end);
    SecondSubmitRefused(db, item, a, b);
  }

  /** Both transactions have read the row and neither has written. */
  function Reading(db: Db, item: Item, a: Call, b: Call): World {
    Set(Set(Set(Set(Initial(db), 1, Begun(a)), 2, Begun(b)), 1, Locked(a, item)), 2, Locked(b, item))
  }

  lemma BothWrite(w: World, a: Call, b: Call, item: Item, rowA: Item, rowB: Item)
    returns (steps: seq<Step>, end: World)
    requires w == Reading(w.db, item, a, b) && w.db.history == []
    requires Decide(w.db.users, item, a) == Ok(rowA) && Decide(w.db.users, item, b) == Ok(rowB)
    ensures RunUnlocked(w, steps) == Some(end)
    ensures |end.db.history| == 2 && end.log == [Applied(1, a), Applied(2, b)]
  {
    hide Decide;
    var w3 := Set(Set(w, 1, Checked(a, rowA)), 2, Checked(b, rowB));
    var w4 := Set(Set(w3, 1, Written(a, rowA)), 2, Written(b, rowB));
    var w5 := Set(Set(w4, 1, Recorded(a, rowA, EntryOf(a))), 2, Recorded(b, rowB, EntryOf(b)));
    end := Next(Next(w5, Commit(1)).value, Commit(2)).value;
    steps := Twice(w5, Commit(1), Commit(2), end, [], end);
    steps := Twice(w4, Record(1), Record(2), w5, steps, end);
    steps := Twice(w3, Write(1), Write(2), w4, steps, end);
    steps := Twice(w, Check(1), Check(2), w3, steps, end);
  }

  lemma SecondSubmitRefused(db: Db, item: Item, a: Call, b: Call)
    requires 0 in db.items && db.items[0] == item && item.status == InProgress
    requires a.item == b.item == 0 && a.tenant == b.tenant == item.tenant
    requires a.action.SubmitWith? && b.action.SubmitWith? && WellFormed(a.action)
    ensures Serial(db, [Applied(1, a), Applied(2, b)]) == None
  {
    var first := [Applied(1, a)];
    assert first[..0] == [] && ApplyOne(db, first[0]) == Some(Execute(db, a).value);
    SerialAppend(db, [], Applied(1, a));
    assert [] + first == first;
    SerialAppend(db, first, Applied(2, b));
    assert first + [Applied(2, b)] == [Applied(1, a), Applied(2, b)];
  }

  /** Two steps in front of a run. */
  lemma Twice(w: World, first: Step, second: Step, mid: World, rest: seq<Step>, end: World) returns (steps: seq<Step>)
    requires NextUnlocked(w, first).Some? && NextUnlocked(NextUnlocked(w, first).value, second) == Some(mid)
    requires RunUnlocked(mid, rest) == Some(end)
    ensures RunUnlocked(w, steps) == Some(end)
  {
    var one := [second] + rest;
    assert one[1..] == rest;
    steps := [first] + one;
    assert steps[1..] == one;
  }

}
