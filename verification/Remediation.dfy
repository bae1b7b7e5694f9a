/**
  The remediation workflow (remediation.py): a four-state machine with a reject loop, a
  four-eyes rule and a history table. This module has one call at a time; the module
  RemediationTransactions has the interleaved transactions.
 */
module Remediation {
  import opened Common

  datatype Status = Open | InProgress | PendingApproval | Approved

  datatype Transition = Create | Assign | Submit | Approve | Reject

  datatype Origin = Origin(
    hostname: string, framework: string, control: string, description: string, severity: string)

  /** A row of remediation_items. */
  datatype Item = Item(
    tenant: Id, origin: Origin, status: Status, assignedTo: Option<Id>,
    requestedAt: Option<Time>, requestedBy: Option<Id>,
    approvedAt: Option<Time>, approvedBy: Option<Id>, approvalNotes: Option<string>,
    createdBy: Id, updatedBy: Id, updatedAt: Time)

  /** A row of remediation_history; the sequence of rows is the commit order. */
  datatype Entry = Entry(
    item: Id, actor: Id, transition: Transition, from: Option<Status>, to: Status, notes: Option<string>)

  datatype Action =
    | AssignTo(assignee: Id)
    | SubmitWith(notes: Option<string>)
    | ApproveWith(notes: Option<string>)
    | RejectWith(reason: string)

  /** A request to move an item. `now` is the start time of its transaction, which is SQL's now(). */
  datatype Call = Call(user: Id, tenant: Id, item: Id, action: Action, now: Time)

  /** The three tables; `users` maps a tenant_users id to its tenant. */
  datatype Db = Db(items: map<Id, Item>, history: seq<Entry>, users: map<Id, Id>)

  function NewItem(user: Id, tenant: Id, origin: Origin, now: Time): Item {
    Item(tenant, origin, Open, None, None, None, None, None, None, user, user, now)
  }

  /** What a transition makes of the locked row: the new row, or the error of the refused call. */
  function Decide(users: map<Id, Id>, item: Item, call: Call): Result<Item> {
    var touched := item.(updatedAt := call.now, updatedBy := call.user);
    match call.action
    case AssignTo(assignee) =>
      if item.status != Open then Err(Conflict)
      else if assignee !in users || users[assignee] != call.tenant then Err(BadRequest)
      else Ok(touched.(status := InProgress, assignedTo := Some(assignee)))
    case SubmitWith(_) =>
      if item.status != InProgress then Err(Conflict)
      else Ok(touched.(status := PendingApproval,
                       requestedAt := Some(call.now), requestedBy := Some(call.user)))
    case ApproveWith(notes) =>
      if item.status != PendingApproval then Err(Conflict)
      else if item.requestedBy == Some(call.user) then Err(Forbidden)
      else Ok(touched.(status := Approved,
                       approvedAt := Some(call.now), approvedBy := Some(call.user), approvalNotes := notes))
    case RejectWith(_) =>
      if item.status != PendingApproval then Err(Conflict)
      else if item.requestedBy == Some(call.user) then Err(Forbidden)
      else Ok(touched.(status := InProgress, requestedAt := None, requestedBy := None))
  }

  /** The history row of an accepted call. */
  function EntryOf(call: Call): Entry {
    match call.action
    case AssignTo(_) => Entry(call.item, call.user, Assign, Some(Open), InProgress, None)
    case SubmitWith(notes) => Entry(call.item, call.user, Submit, Some(InProgress), PendingApproval, notes)
    case ApproveWith(notes) => Entry(call.item, call.user, Approve, Some(PendingApproval), Approved, notes)
    case RejectWith(reason) => Entry(call.item, call.user, Reject, Some(PendingApproval), InProgress, Some(reason))
  }

  const MAX_NOTES: nat := 2000

  /** What the request models accept; anything else is a 422 before the handler runs. */
  predicate WellFormed(a: Action) {
    match a
    case AssignTo(_) => true
    case SubmitWith(notes) => notes.None? || |notes.value| <= MAX_NOTES
    case ApproveWith(notes) => notes.None? || |notes.value| <= MAX_NOTES
    case RejectWith(reason) => 1 <= |reason| <= MAX_NOTES
  }

  predicate Visible(db: Db, item: Id, tenant: Id) {
    item in db.items && db.items[item].tenant == tenant
  }

  /** One whole call on its own: the row and its history entry change together or not at all. */
  function Execute(db: Db, call: Call): Result<Db> {
    if !WellFormed(call.action) then Err(Unprocessable)
    else if !Visible(db, call.item, call.tenant) then Err(NotFound)
    else
      match Decide(db.users, db.items[call.item], call)
      case Err(e) => Err(e)
      case Ok(row) => Ok(db.(items := db.items[call.item := row], history := db.history + [EntryOf(call)]))
  }

  function Insert(db: Db, id: Id, user: Id, tenant: Id, origin: Origin, now: Time): Db {
    db.(items := db.items[id := NewItem(user, tenant, origin, now)],
        history := db.history + [Entry(id, user, Create, None, Open, None)])
  }

  // ── What a history says ──────────────────────────────────────────────

  function HistoryOf(history: seq<Entry>, item: Id): (h: seq<Entry>)
    ensures (forall e :: e in history ==> e.item != item) ==> h == []
  {
    if history == [] then []
    else
      var h := HistoryOf(history[..|history| - 1], item);
      var last := history[|history| - 1];
      if last.item == item then h + [last] else h
  }

  function Count(h: seq<Entry>, t: Transition): nat {
    if h == [] then 0
    else Count(h[..|h| - 1], t) + if h[|h| - 1].transition == t then 1 else 0
  }

  function LastSubmitter(h: seq<Entry>): Option<Id> {
    if h == [] then None
    else if h[|h| - 1].transition == Submit then Some(h[|h| - 1].actor)
    else LastSubmitter(h[..|h| - 1])
  }

  predicate Edge(t: Transition, from: Status, to: Status) {
    match t
    case Create => false
    case Assign => from == Open && to == InProgress
    case Submit => from == InProgress && to == PendingApproval
    case Approve => from == PendingApproval && to == Approved
    case Reject => from == PendingApproval && to == InProgress
  }

  /** A path of the transition graph that starts with the creation. */
  ghost predicate IsPath(h: seq<Entry>) {
    && h != []
    && h[0].transition == Create && h[0].from == None && h[0].to == Open
    && forall k :: 0 < k < |h| ==> h[k].from == Some(h[k - 1].to) && Edge(h[k].transition, h[k - 1].to, h[k].to)
  }

  /** Every verdict directly follows the submit that it answers, and is another user's. */
  ghost predicate FourEyes(h: seq<Entry>) {
    forall k :: 0 <= k < |h| && (h[k].transition == Approve || h[k].transition == Reject) ==>
      k > 0 && h[k - 1].transition == Submit && h[k - 1].actor != h[k].actor
  }

  predicate AwaitsOrHasVerdict(item: Item) {
    item.status == PendingApproval || item.status == Approved
  }

  /** The history accounts for the item: it is how the item got where it is. */
  ghost predicate Explains(h: seq<Entry>, item: Item) {
    && IsPath(h)
    && h[|h| - 1].to == item.status
    && FourEyes(h)
    && Count(h, Submit) == Count(h, Reject) + (if AwaitsOrHasVerdict(item) then 1 else 0)
    && item.requestedBy == (if AwaitsOrHasVerdict(item) then LastSubmitter(h) else None)
    && (AwaitsOrHasVerdict(item) <==> item.requestedBy.Some?)
    && item.approvedBy == (if item.status == Approved then Some(h[|h| - 1].actor) else None)
    && (item.approvedBy.Some? ==> item.approvedBy != item.requestedBy)
    && (item.requestedAt.Some? <==> AwaitsOrHasVerdict(item))
    && (item.approvedAt.Some? <==> item.status == Approved)
    && item.approvalNotes == (if item.status == Approved then h[|h| - 1].notes else None)
    && (item.assignedTo.None? <==> item.status == Open)
    && item.createdBy == h[0].actor && item.updatedBy == h[|h| - 1].actor
  }

  ghost predicate Consistent(db: Db) {
    && (forall id :: id in db.items ==> Explains(HistoryOf(db.history, id), db.items[id]))
    && (forall k :: 0 <= k < |db.history| ==> db.history[k].item in db.items)
  }

  lemma HistoryOfAppend(history: seq<Entry>, e: Entry, item: Id)
    ensures HistoryOf(history + [e], item) == HistoryOf(history, item) + (if e.item == item then [e] else [])
  {
    assert (history + [e])[..|history|] == history;
  }

  /** An accepted call extends an explanation of the old row to one of the new row. */
  lemma DecideKeepsExplained(users: map<Id, Id>, item: Item, call: Call, h: seq<Entry>)
    requires Explains(h, item)
    requires Decide(users, item, call).Ok?
    ensures Explains(h + [EntryOf(call)], Decide(users, item, call).value)
  {
    var h' := h + [EntryOf(call)];
    assert h'[..|h|] == h;
    assert h'[|h| - 1] == h[|h| - 1];
    if item.status == PendingApproval {
      assert |h| > 1;
      assert Edge(h[|h| - 1].transition, h[|h| - 2].to, h[|h| - 1].to);
    }
  }

  lemma ExecuteKeepsExplained(db: Db, call: Call, id: Id)
    requires Consistent(db) && Execute(db, call).Ok? && id in db.items
    ensures Explains(HistoryOf(Execute(db, call).value.history, id), Execute(db, call).value.items[id])
  {
    hide Explains, HistoryOf, Decide;
    var h := HistoryOf(db.history, id);
    assert Explains(h, db.items[id]);
    HistoryOfAppend(db.history, EntryOf(call), id);
    if id == call.item {
      DecideKeepsExplained(db.users, db.items[id], call, h);
    } else {
      assert h + [] == h;
    }
  }

  /** Every accepted call keeps every history an explanation of its item. */
  lemma ExecuteKeepsConsistent(db: Db, call: Call)
    requires Consistent(db) && Execute(db, call).Ok?
    ensures Consistent(Execute(db, call).value)
  {
    hide Explains, HistoryOf, Decide;
    var db' := Execute(db, call).value;
    forall id | id in db'.items
      ensures Explains(HistoryOf(db'.history, id), db'.items[id])
    {
      ExecuteKeepsExplained(db, call, id);
    }
    assert EntryOf(call).item == call.item;
  }

  /**
    What one accepted call does, field by field: it is of the item's own tenant, moves that item
    alone, assigns it only if it is an assignment and then to the user it names, who is of that
    tenant, and appends one entry in the caller's name.
   */
  lemma CallDoesWhatItSays(db: Db, call: Call, id: Id)
    requires Execute(db, call).Ok? && id in db.items
    ensures var db' := Execute(db, call).value;
            && id in db'.items && db'.items.Keys == db.items.Keys && db'.users == db.users
            && (id != call.item ==> db'.items[id] == db.items[id])
            && call.item in db.items && db.items[call.item].tenant == call.tenant
            && db'.items[id].tenant == db.items[id].tenant && db'.items[id].origin == db.items[id].origin
            && (id == call.item && call.action.AssignTo? ==>
                  && db.items[id].status == Open
                  && db'.items[id].assignedTo == Some(call.action.assignee)
                  && call.action.assignee in db.users && db.users[call.action.assignee] == call.tenant)
            && (id == call.item && !call.action.AssignTo? ==> db'.items[id].assignedTo == db.items[id].assignedTo)
            && (id == call.item ==> db'.items[id].updatedAt == call.now)
            && (id == call.item && call.action.SubmitWith? ==> db'.items[id].requestedAt == Some(call.now))
            && (id == call.item && call.action.ApproveWith? ==> db'.items[id].approvedAt == Some(call.now))
            && |db'.history| == |db.history| + 1 && db'.history[..|db.history|] == db.history
            && var e := db'.history[|db.history|];
               && e.item == call.item && e.actor == call.user && e.from == Some(db.items[call.item].status)
               && e.to == db'.items[call.item].status
               && e.notes == match call.action
                             case AssignTo(_) => None
                             case SubmitWith(notes) => notes
                             case ApproveWith(notes) => notes
                             case RejectWith(reason) => Some(reason)
  {
  }

  /** The last entry of an explained item's history: its transition tells the status, and a submit's actor the requester. */
  lemma LastEntryTells(h: seq<Entry>, item: Item)
    requires Explains(h, item)
    ensures h != []
    ensures match h[|h| - 1].transition
            case Create => item.status == Open
            case Assign => item.status == InProgress
            case Submit => item.status == PendingApproval && item.requestedBy == Some(h[|h| - 1].actor)
            case Approve => item.status == Status.Approved
            case Reject => item.status == InProgress
  {
    if |h| > 1 { assert Edge(h[|h| - 1].transition, h[|h| - 2].to, h[|h| - 1].to); }
  }

  predicate NotesFit(notes: Option<string>) { notes.Some? ==> |notes.value| <= 2000 }

  /**
    The history alone decides: a fresh item can be assigned to a user of its tenant, an assigned or
    rejected one submitted, and a submitted one approved or rejected by anyone but its submitter.
   */
  lemma AcceptedByHistory(db: Db, call: Call)
    requires Consistent(db)
    ensures call.item in db.items ==> HistoryOf(db.history, call.item) != []
    ensures Execute(db, call).Ok? <==>
            && call.item in db.items && db.items[call.item].tenant == call.tenant
            && var h := HistoryOf(db.history, call.item);
               var last := h[|h| - 1];
               match call.action
               case AssignTo(a) => last.transition == Create && a in db.users && db.users[a] == call.tenant
               case SubmitWith(notes) => (last.transition == Assign || last.transition == Reject) && NotesFit(notes)
               case ApproveWith(notes) => last.transition == Submit && last.actor != call.user && NotesFit(notes)
               case RejectWith(reason) => last.transition == Submit && last.actor != call.user && 1 <= |reason| <= 2000
  {
    if call.item in db.items {
      assert Explains(HistoryOf(db.history, call.item), db.items[call.item]);
      LastEntryTells(HistoryOf(db.history, call.item), db.items[call.item]);
    }
    hide Explains, HistoryOf;
  }

  /** The error of each refusal: the request's own form first, then whose item it is, then its state, then who asks. */
  lemma Refusals(db: Db, call: Call)
    requires Execute(db, call).Err?
    ensures Execute(db, call).error ==
            if call.action.RejectWith? && !(1 <= |call.action.reason| <= 2000) then Unprocessable
            else if (call.action.SubmitWith? || call.action.ApproveWith?) && !NotesFit(call.action.notes) then Unprocessable
            else if !(call.item in db.items && db.items[call.item].tenant == call.tenant) then NotFound
            else if call.action.AssignTo? then if db.items[call.item].status == Open then BadRequest else Conflict
            else if !call.action.SubmitWith? && db.items[call.item].status == PendingApproval then Forbidden
            else Conflict
  {
  }

  lemma NewItemExplained(user: Id, tenant: Id, origin: Origin, now: Time, id: Id)
    ensures Explains([Entry(id, user, Create, None, Open, None)], NewItem(user, tenant, origin, now))
  {
    var h := [Entry(id, user, Create, None, Open, None)];
    assert h[..0] == [];
  }

  lemma InsertKeepsExplained(db: Db, id: Id, user: Id, tenant: Id, origin: Origin, now: Time, i: Id)
    requires Consistent(db) && id !in db.items && (i == id || i in db.items)
    ensures var db' := Insert(db, id, user, tenant, origin, now);
            Explains(HistoryOf(db'.history, i), db'.items[i])
  {
    var e := Entry(id, user, Create, None, Open, None);
    hide Explains;
    HistoryOfAppend(db.history, e, i);
    if i == id {
      NewItemExplained(user, tenant, origin, now, id);
      assert [] + [e] == [e];
    } else {
      assert Explains(HistoryOf(db.history, i), db.items[i]);
      assert HistoryOf(db.history, i) + [] == HistoryOf(db.history, i);
    }
  }

  lemma InsertKeepsConsistent(db: Db, id: Id, user: Id, tenant: Id, origin: Origin, now: Time)
    requires Consistent(db) && id !in db.items
    ensures Consistent(Insert(db, id, user, tenant, origin, now))
  {
    hide Explains, HistoryOf;
    var db' := Insert(db, id, user, tenant, origin, now);
    forall i | i in db'.items
      ensures Explains(HistoryOf(db'.history, i), db'.items[i])
    {
      hide Consistent;
      InsertKeepsExplained(db, id, user, tenant, origin, now, i);
    }
  }

  /** A created item is an open one of the caller's tenant, with the origin given, and every other row stays. */
  lemma CreateDoesWhatItSays(db: Db, id: Id, user: Id, tenant: Id, origin: Origin, now: Time, i: Id)
    requires id !in db.items
    ensures var db' := Insert(db, id, user, tenant, origin, now);
            && id in db'.items && db'.items[id].tenant == tenant && db'.items[id].origin == origin
            && db'.items[id].status == Open && db'.items[id].assignedTo.None?
            && db'.items[id].createdBy == user && db'.items[id].updatedBy == user && db'.items[id].updatedAt == now
            && (i in db.items ==> i in db'.items && db'.items[i] == db.items[i])
            && db'.history == db.history + [Entry(id, user, Create, None, Open, None)]
  {
  }

  // ── The handlers ─────────────────────────────────────────────────────

  class RemediationService {
    var items: map<Id, Item>
    var history: seq<Entry>
    var users: map<Id, Id>

    ghost function Tables(): Db
      reads this
    {
      Db(items, history, users)
    }

    constructor (users: map<Id, Id>)
      ensures Tables() == Db(map[], [], users)
      ensures Consistent(Tables())
    {
      this.items, this.history, this.users := map[], [], users;
    }

    /** SELECT ... FOR UPDATE on the caller's tenant. */
    method LoadForUpdate(item: Id, tenant: Id) returns (r: Result<Item>)
      ensures Visible(Tables(), item, tenant) ==> r == Ok(items[item])
      ensures !Visible(Tables(), item, tenant) ==> r == Err(NotFound)
    {
      if item in items && items[item].tenant == tenant {
        return Ok(items[item]);
      }
      return Err(NotFound);
    }

    method RecordHistory(e: Entry)
      modifies this`history
      ensures history == old(history) + [e]
    {
      history := history + [e];
    }

    method CreateItem(id: Id, user: Id, tenant: Id, origin: Origin, now: Time)
      requires id !in items && Consistent(Tables())
      modifies this`items, this`history
      ensures Tables() == Insert(old(Tables()), id, user, tenant, origin, now)
      ensures Consistent(Tables())
    {
      hide Consistent;
      InsertKeepsConsistent(Tables(), id, user, tenant, origin, now);
      items := items[id := NewItem(user, tenant, origin, now)];
      RecordHistory(Entry(id, user, Create, None, Open, None));
    }

    method AssignItem(item: Id, assignee: Id, user: Id, tenant: Id, now: Time) returns (r: Result<Item>)
      requires Consistent(Tables())
      modifies this`items, this`history
      ensures Effect(old(Tables()), Call(user, tenant, item, AssignTo(assignee), now), Tables(), r)
      ensures Consistent(Tables())
    {
      hide Consistent;
      ghost var call := Call(user, tenant, item, AssignTo(assignee), now);
      var current := LoadForUpdate(item, tenant);
      if current.Err? { return current; }
      if current.value.status != Open { return Err(Conflict); }
      if assignee !in users || users[assignee] != tenant { return Err(BadRequest); }
      ExecuteKeepsConsistent(Tables(), call);
      var row := current.value.(
        status := InProgress, assignedTo := Some(assignee), updatedAt := now, updatedBy := user);
      items := items[item := row];
      RecordHistory(Entry(item, user, Assign, Some(Open), InProgress, None));
      return Ok(row);
    }

    method SubmitItem(item: Id, notes: Option<string>, user: Id, tenant: Id, now: Time) returns (r: Result<Item>)
      requires Consistent(Tables())
      modifies this`items, this`history
      ensures Effect(old(Tables()), Call(user, tenant, item, SubmitWith(notes), now), Tables(), r)
      ensures Consistent(Tables())
    {
      hide Consistent;
      ghost var call := Call(user, tenant, item, SubmitWith(notes), now);
      if notes.Some? && |notes.value| > MAX_NOTES { return Err(Unprocessable); }
      var current := LoadForUpdate(item, tenant);
      if current.Err? { return current; }
      if current.value.status != InProgress { return Err(Conflict); }
      ExecuteKeepsConsistent(Tables(), call);
      var row := current.value.(
        status := PendingApproval, requestedAt := Some(now), requestedBy := Some(user),
        updatedAt := now, updatedBy := user);
      items := items[item := row];
      RecordHistory(Entry(item, user, Submit, Some(InProgress), PendingApproval, notes));
      return Ok(row);
    }

    method ApproveItem(item: Id, notes: Option<string>, user: Id, tenant: Id, now: Time) returns (r: Result<Item>)
      requires Consistent(Tables())
      modifies this`items, this`history
      ensures Effect(old(Tables()), Call(user, tenant, item, ApproveWith(notes), now), Tables(), r)
      ensures Consistent(Tables())
    {
      hide Consistent;
      ghost var call := Call(user, tenant, item, ApproveWith(notes), now);
      if notes.Some? && |notes.value| > MAX_NOTES { return Err(Unprocessable); }
      var current := LoadForUpdate(item, tenant);
      if current.Err? { return current; }
      if current.value.status != PendingApproval { return Err(Conflict); }
      if current.value.requestedBy == Some(user) { return Err(Forbidden); }
      ExecuteKeepsConsistent(Tables(), call);
      var row := current.value.(
        status := Approved, approvedAt := Some(now), approvedBy := Some(user), approvalNotes := notes,
        updatedAt := now, updatedBy := user);
      items := items[item := row];
      RecordHistory(Entry(item, user, Approve, Some(PendingApproval), Approved, notes));
      return Ok(row);
    }

    method RejectItem(item: Id, reason: string, user: Id, tenant: Id, now: Time) returns (r: Result<Item>)
      requires Consistent(Tables())
      modifies this`items, this`history
      ensures Effect(old(Tables()), Call(user, tenant, item, RejectWith(reason), now), Tables(), r)
      ensures Consistent(Tables())
    {
      hide Consistent;
      ghost var call := Call(user, tenant, item, RejectWith(reason), now);
      if reason == "" || |reason| > MAX_NOTES { return Err(Unprocessable); }
      var current := LoadForUpdate(item, tenant);
      if current.Err? { return current; }
      if current.value.status != PendingApproval { return Err(Conflict); }
      if current.value.requestedBy == Some(user) { return Err(Forbidden); }
      ExecuteKeepsConsistent(Tables(), call);
      var row := current.value.(
        status := InProgress, requestedAt := None, requestedBy := None, updatedAt := now, updatedBy := user);
      items := items[item := row];
      RecordHistory(Entry(item, user, Reject, Some(PendingApproval), InProgress, Some(reason)));
      return Ok(row);
    }
  }

  /** A handler does what Execute says: its row on success, its error and no write otherwise. */
  ghost predicate Effect(before: Db, call: Call, after: Db, r: Result<Item>) {
    match Execute(before, call)
    case Err(e) => r == Err(e) && after == before
    case Ok(db) => after == db && r == Ok(db.items[call.item])
  }

}
