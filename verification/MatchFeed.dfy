/** tenant_cve_matches: the upsert of a match run and the stamps of the tenant's feed. */
module MatchFeed {
  import opened Common
  import opened Matcher

  /** A row of tenant_cve_matches. */
  datatype MatchRow = MatchRow(
    what: Match, matchedAt: Time,
    delivered: Option<Time>, acknowledged: Option<Time>, suppressed: Option<Time>, reason: Option<string>)

  /** By its unique (tenant, CVE). */
  type Matches = map<(Id, string), MatchRow>

  // ── The steps ────────────────────────────────────────────────────────

  /** ON CONFLICT DO UPDATE sets what was matched and when, and leaves the stamps. */
  function Upserted(was: Option<MatchRow>, m: Match, now: Time): MatchRow {
    if was.Some? then was.value.(what := m, matchedAt := now) else MatchRow(m, now, None, None, None, None)
  }

  function Lookup(t: Matches, tenant: Id, cve: string): Option<MatchRow> {
    if (tenant, cve) in t then Some(t[(tenant, cve)]) else None
  }

  /** The match run of a tenant, by the direct decision for each CVE. */
  function Rematch(t: Matches, tenant: Id, v: View, now: Time): Matches {
    var found := set c | c in v.events && Decide(v, c).Some? :: (tenant, c);
    map k | k in t.Keys + found ::
      if k in found then Upserted(Lookup(t, tenant, k.1), Decide(v, k.1).value, now) else t[k]
  }

  /** UPDATE ... SET delivered_at = now() WHERE cve_id = ANY(...) AND delivered_at IS NULL. */
  function Stamped(t: Matches, tenant: Id, cves: set<string>, now: Time): Matches {
    map k | k in t ::
      if k.0 == tenant && k.1 in cves && t[k].delivered.None? then t[k].(delivered := Some(now)) else t[k]
  }

  function Acknowledged(t: Matches, tenant: Id, cve: string, now: Time): Matches {
    if (tenant, cve) !in t then t
    else t[(tenant, cve) := t[(tenant, cve)].(acknowledged := t[(tenant, cve)].acknowledged.Or(Some(now)))]
  }

  function Suppressed(t: Matches, tenant: Id, cve: string, reason: string, now: Time): Matches {
    if (tenant, cve) !in t then t
    else
      var row := t[(tenant, cve)];
      t[(tenant, cve) := row.(suppressed := row.suppressed.Or(Some(now)),
                              reason := if reason == "" then row.reason else Some(reason))]
  }

  datatype Step =
    | MatchRun(tenant: Id, v: View, now: Time)
    | Listing(tenant: Id, cves: set<string>, now: Time)
    | Acknowledge(tenant: Id, cve: string, now: Time)
    | Suppress(tenant: Id, cve: string, reason: string, now: Time)

  function Next(t: Matches, s: Step): Matches {
    match s
    case MatchRun(tenant, v, now) => Rematch(t, tenant, v, now)
    case Listing(tenant, cves, now) => Stamped(t, tenant, cves, now)
    case Acknowledge(tenant, cve, now) => Acknowledged(t, tenant, cve, now)
    case Suppress(tenant, cve, reason, now) => Suppressed(t, tenant, cve, reason, now)
  }

  function Run(t: Matches, steps: seq<Step>): Matches {
    if steps == [] then t else Next(Run(t, steps[..|steps| - 1]), steps[|steps| - 1])
  }

  // ── Stamps are written once ──────────────────────────────────────────

  ghost predicate KeepsStamps(a: MatchRow, b: MatchRow) {
    && (a.delivered.Some? ==> b.delivered == a.delivered)
    && (a.acknowledged.Some? ==> b.acknowledged == a.acknowledged)
    && (a.suppressed.Some? ==> b.suppressed == a.suppressed)
    && (a.reason.Some? ==> b.reason.Some?)
  }

  lemma NextKeepsStamps(t: Matches, s: Step, k: (Id, string))
    requires k in t
    ensures k in Next(t, s) && KeepsStamps(t[k], Next(t, s)[k])
  {
    hide Decide;
  }

  /** Over any run no match row goes away and no stamp, once set, changes. */
  lemma {:induction false} RunKeepsStamps(t: Matches, steps: seq<Step>, k: (Id, string))
    requires k in t
    ensures k in Run(t, steps) && KeepsStamps(t[k], Run(t, steps)[k])
  {
    if steps != [] {
      hide Next;
      RunKeepsStamps(t, steps[..|steps| - 1], k);
      NextKeepsStamps(Run(t, steps[..|steps| - 1]), steps[|steps| - 1], k);
    }
  }

  /** Whatever is stamped in the end, was first stamped by a step of its own kind. */
  ghost predicate StampedBy(steps: seq<Step>, k: (Id, string), row: MatchRow) {
    && (row.delivered.Some? ==> exists i :: 0 <= i < |steps| && steps[i].Listing? && steps[i].tenant == k.0
                                            && k.1 in steps[i].cves && steps[i].now == row.delivered.value)
    && (row.acknowledged.Some? ==> exists i :: 0 <= i < |steps| && steps[i] == Acknowledge(k.0, k.1, row.acknowledged.value))
    && (row.suppressed.Some? ==> exists i :: 0 <= i < |steps| && steps[i].Suppress? && steps[i].tenant == k.0
                                             && steps[i].cve == k.1 && steps[i].now == row.suppressed.value)
  }

  lemma StampedByLonger(steps: seq<Step>, last: Step, k: (Id, string), row: MatchRow)
    requires StampedBy(steps, k, row)
    ensures StampedBy(steps + [last], k, row)
  {
    assert forall i :: 0 <= i < |steps| ==> steps[i] == (steps + [last])[i];
  }

  lemma NextStampedBy(t: Matches, steps: seq<Step>, last: Step, k: (Id, string))
    requires k in t ==> StampedBy(steps, k, t[k])
    requires k in Next(t, last)
    ensures StampedBy(steps + [last], k, Next(t, last)[k])
  {
    hide Decide;
    var all := steps + [last];
    assert all[|steps|] == last;
    if k in t { StampedByLonger(steps, last, k, t[k]); }
  }

  /** A match run never stamps: from the empty table, stamps come from the tenant's own requests. */
  lemma {:induction false} StampsHaveCauses(steps: seq<Step>, k: (Id, string))
    requires k in Run(map[], steps)
    ensures StampedBy(steps, k, Run(map[], steps)[k])
  {
    if steps != [] {
      var front, last := steps[..|steps| - 1], steps[|steps| - 1];
      assert Run(map[], steps) == Next(Run(map[], front), last);
      hide *;
      if k in Run(map[], front) { StampsHaveCauses(front, k); }
      NextStampedBy(Run(map[], front), front, last, k);
      assert steps == front + [last];
    }
  }

  /** Matching again with nothing changed adds no row and changes matched_at alone, on the rows it emits. */
  lemma RematchIsIdempotent(t: Matches, tenant: Id, v: View, earlier: Time, now: Time)
    ensures var once := Rematch(t, tenant, v, earlier);
            var twice := Rematch(once, tenant, v, now);
            && twice.Keys == once.Keys
            && forall k :: k in once ==> twice[k] == once[k].(matchedAt := twice[k].matchedAt)
  {
    hide Decide;
  }

  // ── The handlers as they run ─────────────────────────────────────────

  datatype ListFilter = ListFilter(
    since: Option<Time>, severity: Option<string>, kevOnly: bool, withAcknowledged: bool, withSuppressed: bool)

  predicate Wanted(row: MatchRow, f: ListFilter) {
    && (f.since.Some? ==> row.matchedAt >= f.since.value)
    && (f.severity.Some? && f.severity.value != "" ==> row.what.severity == f.severity)
    && (f.kevOnly ==> row.what.kev)
    && (!f.withAcknowledged ==> row.acknowledged.None?)
    && (!f.withSuppressed ==> row.suppressed.None?)
  }

  predicate ListedBefore(a: MatchRow, b: MatchRow) {
    (a.what.kev && !b.what.kev) || (a.what.kev == b.what.kev && a.matchedAt >= b.matchedAt)
  }

  /** The whole answer to the list query; rows that compare equal are in the database's order. */
  ghost predicate IsListing(t: Matches, tenant: Id, f: ListFilter, cves: seq<string>) {
    && (forall c :: c in cves <==> (tenant, c) in t && Wanted(t[(tenant, c)], f))
    && (forall i, j :: 0 <= i < j < |cves| ==> cves[i] != cves[j])
    && (forall i, j :: 0 <= i < j < |cves| && (tenant, cves[i]) in t && (tenant, cves[j]) in t ==>
          ListedBefore(t[(tenant, cves[i])], t[(tenant, cves[j])]))
  }

  /** What a listing holds, by its parameters. */
  lemma ListedIff(t: Matches, tenant: Id, f: ListFilter, cves: seq<string>, c: string)
    requires IsListing(t, tenant, f, cves)
    ensures c in cves <==>
            && (tenant, c) in t
            && var row := t[(tenant, c)];
               && (f.since.None? || f.since.value <= row.matchedAt)
               && (f.severity.None? || f.severity.value == "" || row.what.severity == f.severity)
               && (f.kevOnly ==> row.what.kev)
               && (row.acknowledged.Some? ==> f.withAcknowledged)
               && (row.suppressed.Some? ==> f.withSuppressed)
  {
  }

  /** Once a match is acknowledged or suppressed, no later listing has it unless it asks for such. */
  lemma AcknowledgedLeavesTheFeed(t: Matches, steps: seq<Step>, tenant: Id, c: string, f: ListFilter, cves: seq<string>)
    requires (tenant, c) in t && IsListing(Run(t, steps), tenant, f, cves)
    ensures t[(tenant, c)].acknowledged.Some? && !f.withAcknowledged ==> c !in cves
    ensures t[(tenant, c)].suppressed.Some? && !f.withSuppressed ==> c !in cves
  {
    RunKeepsStamps(t, steps, (tenant, c));
    ListedIff(Run(t, steps), tenant, f, cves, c);
    hide Run, IsListing;
  }

  /** KEV members come first, and within each kind the newest match. */
  lemma ListedInOrder(t: Matches, tenant: Id, f: ListFilter, cves: seq<string>, i: nat, j: nat)
    requires IsListing(t, tenant, f, cves) && i < j < |cves|
    ensures (tenant, cves[i]) in t && (tenant, cves[j]) in t && cves[i] != cves[j]
    ensures t[(tenant, cves[j])].what.kev ==> t[(tenant, cves[i])].what.kev
    ensures t[(tenant, cves[j])].what.kev == t[(tenant, cves[i])].what.kev ==>
              t[(tenant, cves[j])].matchedAt <= t[(tenant, cves[i])].matchedAt
  {
    assert cves[i] in cves && cves[j] in cves;
  }

  /** What each request does to the one row that it names, and that it touches no other. */
  lemma RequestsTouchOneRow(t: Matches, tenant: Id, c: string, reason: string, now: Time, k: (Id, string))
    requires (tenant, c) in t && k in t
    ensures var row := t[(tenant, c)];
            && (k != (tenant, c) ==> Acknowledged(t, tenant, c, now)[k] == t[k] && Suppressed(t, tenant, c, reason, now)[k] == t[k])
            && Acknowledged(t, tenant, c, now)[(tenant, c)]
               == row.(acknowledged := if row.acknowledged.Some? then row.acknowledged else Some(now))
            && Suppressed(t, tenant, c, reason, now)[(tenant, c)]
               == row.(suppressed := if row.suppressed.Some? then row.suppressed else Some(now),
                       reason := if reason != "" then Some(reason) else row.reason)
  {
  }

  /** A match run writes the rows of its tenant that the query emits, and no other. */
  lemma RematchWritesEmitted(t: Matches, tenant: Id, v: View, now: Time, k: (Id, string), m: Match)
    ensures m in Emitted(v) ==>
              var t' := Rematch(t, tenant, v, now);
              && (tenant, m.cve) in t' && t'[(tenant, m.cve)].what == m && t'[(tenant, m.cve)].matchedAt == now
              && ((tenant, m.cve) !in t ==> t'[(tenant, m.cve)].delivered.None? && t'[(tenant, m.cve)].acknowledged.None?
                                            && t'[(tenant, m.cve)].suppressed.None? && t'[(tenant, m.cve)].reason.None?)
    ensures (k.0 != tenant || !Matched(v, k.1)) ==>
              (k in t <==> k in Rematch(t, tenant, v, now)) && (k in t ==> Rematch(t, tenant, v, now)[k] == t[k])
  {
    QueryDecides(v, m);
    MatchedIfDecided(v, k.1);
    if m in Emitted(v) { DecidedIsKnown(v, m.cve); }
    assert k == (k.0, k.1);
    hide Decide, Emitted, Matched;
  }

  datatype Item = Item(cve: string, row: MatchRow)

  /** The table after upserting some of a tenant's matches, which are for different CVEs. */
  ghost predicate AfterUpserts(t: Matches, tenant: Id, ms: set<Match>, now: Time, t': Matches) {
    && (forall m :: m in ms ==> Lookup(t', tenant, m.cve) == Some(Upserted(Lookup(t, tenant, m.cve), m, now)))
    && (forall k :: k in t || k in t' ==> Touched(tenant, ms, k) || (k in t && k in t' && t'[k] == t[k]))
  }

  ghost predicate Touched(tenant: Id, ms: set<Match>, k: (Id, string)) {
    k.0 == tenant && exists m :: m in ms && m.cve == k.1
  }

  lemma NoUpserts(t: Matches, tenant: Id, now: Time)
    ensures AfterUpserts(t, tenant, {}, now, t)
  {
  }

  lemma OneMoreUpsert(t: Matches, tenant: Id, v: View, done: set<Match>, m: Match, now: Time, t': Matches)
    requires AfterUpserts(t, tenant, done, now, t')
    requires done <= Emitted(v) && m in Emitted(v) && m !in done
    ensures Lookup(t', tenant, m.cve) == Lookup(t, tenant, m.cve)
    ensures AfterUpserts(t, tenant, done + {m}, now,
                         t'[(tenant, m.cve) := Upserted(Lookup(t', tenant, m.cve), m, now)])
  {
    hide *;
    NotYetTouched(tenant, v, done, m);
    UpsertUntouched(t, tenant, done, m, now, t');
  }

  lemma UpsertUntouched(t: Matches, tenant: Id, done: set<Match>, m: Match, now: Time, t': Matches)
    requires AfterUpserts(t, tenant, done, now, t')
    requires !Touched(tenant, done, (tenant, m.cve)) && forall n :: n in done ==> n.cve != m.cve
    ensures Lookup(t', tenant, m.cve) == Lookup(t, tenant, m.cve)
    ensures AfterUpserts(t, tenant, done + {m}, now, t'[(tenant, m.cve) := Upserted(Lookup(t', tenant, m.cve), m, now)])
  {
    hide Upserted, Touched;
    AfterLookups(t, tenant, done, m, now, t', Upserted(Lookup(t', tenant, m.cve), m, now));
    AfterRows(t, tenant, done, m, now, t', Upserted(Lookup(t', tenant, m.cve), m, now));
  }

  lemma AfterLookups(t: Matches, tenant: Id, done: set<Match>, m: Match, now: Time, t': Matches, x: MatchRow)
    requires forall n :: n in done ==> n.cve != m.cve
    requires forall n :: n in done ==> Lookup(t', tenant, n.cve) == Some(Upserted(Lookup(t, tenant, n.cve), n, now))
    requires x == Upserted(Lookup(t, tenant, m.cve), m, now)
    ensures forall n :: n in done + {m} ==>
              Lookup(t'[(tenant, m.cve) := x], tenant, n.cve) == Some(Upserted(Lookup(t, tenant, n.cve), n, now))
  {
    hide Upserted;
  }

  lemma AfterRows(t: Matches, tenant: Id, done: set<Match>, m: Match, now: Time, t': Matches, x: MatchRow)
    requires AfterUpserts(t, tenant, done, now, t')
    ensures var t'' := t'[(tenant, m.cve) := x];
            forall k :: k in t || k in t'' ==> Touched(tenant, done + {m}, k) || (k in t && k in t'' && t''[k] == t[k])
  {
    TouchedMore(tenant, done, m);
    hide Upserted, Touched;
  }

  lemma NotYetTouched(tenant: Id, v: View, done: set<Match>, m: Match)
    requires done <= Emitted(v) && m in Emitted(v) && m !in done
    ensures !Touched(tenant, done, (tenant, m.cve)) && forall n :: n in done ==> n.cve != m.cve
  {
    forall n | n in done && n.cve == m.cve ensures false {
      OneRowPerCve(v, m, n);
    }
  }

  lemma TouchedMore(tenant: Id, done: set<Match>, m: Match)
    ensures forall k :: Touched(tenant, done + {m}, k) <==> Touched(tenant, done, k) || k == (tenant, m.cve)
    ensures forall n :: n in done ==> Touched(tenant, done, (tenant, n.cve))
  {
    forall k | Touched(tenant, done, k) || k == (tenant, m.cve) ensures Touched(tenant, done + {m}, k) {
      if k == (tenant, m.cve) {
        assert m in done + {m};
      } else {
        var n :| n in done && n.cve == k.1;
        assert n in done + {m};
      }
    }
  }

  lemma EmittedTouches(tenant: Id, v: View, k: (Id, string))
    ensures Touched(tenant, Emitted(v), k) <==> k.0 == tenant && k.1 in v.events && Decide(v, k.1).Some?
    ensures k.1 in v.events && Decide(v, k.1).Some? ==> Decide(v, k.1).value in Emitted(v) && Decide(v, k.1).value.cve == k.1
  {
    hide Emitted;
    if k.1 in v.events && Decide(v, k.1).Some? {
      QueryDecides(v, Decide(v, k.1).value);
    }
    hide Decide;
    if Touched(tenant, Emitted(v), k) {
      var m :| m in Emitted(v) && m.cve == k.1;
      QueryDecides(v, m);
      assert k.1 in v.events by { DecidedIsKnown(v, k.1); }
    }
  }

  lemma DecidedIsKnown(v: View, cve: string)
    ensures Decide(v, cve).Some? ==> cve in v.events
  {
  }

  lemma AllUpsertsAreRematch(t: Matches, tenant: Id, v: View, now: Time, t': Matches)
    requires AfterUpserts(t, tenant, Emitted(v), now, t')
    ensures t' == Rematch(t, tenant, v, now)
  {
    hide Decide, Emitted, Touched, Upserted;
    var after := Rematch(t, tenant, v, now);
    forall k | k in t' || k in after ensures k in t' && k in after && t'[k] == after[k] {
      assert k == (k.0, k.1);
      EmittedTouches(tenant, v, k);
      if Touched(tenant, Emitted(v), k) {
        var m := Decide(v, k.1).value;
        assert Lookup(t', tenant, m.cve) == Some(Upserted(Lookup(t, tenant, m.cve), m, now));
      }
    }
  }

  lemma SetSize<K, V>(t: map<K, V>, k: K, x: V)
    ensures |t[k := x]| == |t| + if k in t then 0 else 1
  {
    assert t[k := x].Keys == t.Keys + {k};
  }

  lemma SetMove<K>(done: set<K>, todo: set<K>, k: K)
    requires k in todo && done !! todo
    ensures (done + {k}) + (todo - {k}) == done + todo && done + {k} !! todo - {k} && |done + {k}| == |done| + 1
  {
  }

  function PageOf(listing: seq<string>, cursor: nat, limit: nat): seq<string> {
    if cursor >= |listing| then []
    else listing[cursor..if cursor + limit < |listing| then cursor + limit else |listing|]
  }

  /** The pages of a listing that stays as it is, each from the cursor that the one before it gave. */
  function Walk(listing: seq<string>, cursor: nat, limit: nat): seq<string>
    requires limit > 0
    decreases |listing| - cursor
  {
    if cursor >= |listing| then [] else PageOf(listing, cursor, limit) + Walk(listing, cursor + limit, limit)
  }

  /** The pages together are the listing, from the first cursor on, and none is longer than the limit. */
  lemma {:induction false} PagesJoin(listing: seq<string>, cursor: nat, limit: nat)
    requires limit > 0
    ensures Walk(listing, cursor, limit) == if cursor <= |listing| then listing[cursor..] else []
    ensures |PageOf(listing, cursor, limit)| <= limit
    decreases |listing| - cursor
  {
    if cursor < |listing| { PagesJoin(listing, cursor + limit, limit); }
  }

  function Members(page: seq<string>): set<string> { set c | c in page }

  /** A shipped row is delivered now; the item shows its true stamp unless the stamp was made just now, at another time. */
  ghost predicate Shows(t: Matches, t': Matches, tenant: Id, item: Item, now: Time, shownAt: Time) {
    var k := (tenant, item.cve);
    && k in t && k in t' && t'[k].delivered == t[k].delivered.Or(Some(now))
    && item.row == t[k].(delivered := t[k].delivered.Or(Some(shownAt)))
    && (item.row == t'[k] <==> t[k].delivered.Some? || shownAt == now)
  }

  /** An undelivered row, stamped at 0 and shown by a query at 1: the item and the table disagree. */
  lemma ShownIsNotStored(tenant: Id, m: Match)
    ensures exists t: Matches, item ::
              && Shows(t, Stamped(t, tenant, {m.cve}, 0), tenant, item, 0, 1)
              && Lookup(Stamped(t, tenant, {m.cve}, 0), tenant, m.cve) != Some(item.row) && item.cve == m.cve
  {
    var row := MatchRow(m, 0, None, None, None, None);
    var t: Matches := map[(tenant, m.cve) := row];
    var item := Item(m.cve, row.(delivered := Some(1)));
    assert Stamped(t, tenant, {m.cve}, 0)[(tenant, m.cve)] == row.(delivered := Some(0));
    assert Shows(t, Stamped(t, tenant, {m.cve}, 0), tenant, item, 0, 1);
  }

  lemma OnlyUndelivered(t: Matches, tenant: Id, page: seq<string>, toStamp: set<string>, now: Time)
    requires forall c :: c in page ==> (tenant, c) in t
    requires toStamp == set c | c in page && t[(tenant, c)].delivered.None?
    ensures Stamped(t, tenant, toStamp, now) == Stamped(t, tenant, Members(page), now)
  {
  }

  lemma StampedAt(t: Matches, tenant: Id, cves: set<string>, cve: string, now: Time)
    requires (tenant, cve) in t && cve in cves
    ensures var t' := Stamped(t, tenant, cves, now);
            (tenant, cve) in t' && t'[(tenant, cve)] == t[(tenant, cve)].(delivered := t[(tenant, cve)].delivered.Or(Some(now)))
  {
  }

  class Feed {
    var matches: Matches

    constructor ()
      ensures matches == map[]
    {
      matches := map[];
    }

    method MatchTenant(tenant: Id, v: View, now: Time) returns (added: nat, updated: nat)
      modifies this
      ensures matches == Rematch(old(matches), tenant, v, now)
      ensures added == |matches| - |old(matches)| && added + updated == |Emitted(v)|
    {
      hide Emitted, Rematch, AfterUpserts;
      var todo := Emitted(v);
      ghost var done: set<Match> := {};
      added, updated := 0, 0;
      NoUpserts(matches, tenant, now);
      while todo != {}
        invariant done + todo == Emitted(v) && done !! todo
        invariant AfterUpserts(old(matches), tenant, done, now, matches)
        invariant added == |matches| - |old(matches)| && added + updated == |done|
        decreases |todo|
      {
        var m :| m in todo;
        var was := if (tenant, m.cve) in matches then Some(matches[(tenant, m.cve)]) else None;
        OneMoreUpsert(old(matches), tenant, v, done, m, now, matches);
        SetSize(matches, (tenant, m.cve), Upserted(was, m, now));
        matches := matches[(tenant, m.cve) := Upserted(was, m, now)];
        if was.None? { added := added + 1; } else { updated := updated + 1; }
        SetMove(done, todo, m);
        done, todo := done + {m}, todo - {m};
      }
      assert done == Emitted(v);
      AllUpsertsAreRematch(old(matches), tenant, v, now, matches);
    }

    /** OFFSET cursor LIMIT limit + 1, of which the last row only tells whether there is a next page. */
    method FetchPage(listing: seq<string>, cursor: nat, limit: nat) returns (page: seq<string>, next: Option<nat>)
      ensures page == PageOf(listing, cursor, limit)
      ensures next == if cursor + limit < |listing| then Some(cursor + limit) else None
    {
      var rows := if cursor >= |listing| then [] else
                  listing[cursor..if cursor + limit + 1 <= |listing| then cursor + limit + 1 else |listing|];
      page := if |rows| > limit then rows[..limit] else rows;
      next := if |rows| > limit then Some(cursor + limit) else None;
    }

    method StampDelivered(tenant: Id, cves: set<string>, now: Time)
      modifies this
      ensures matches == Stamped(old(matches), tenant, cves, now)
    {
      matches := map k | k in matches ::
        if k.0 == tenant && k.1 in cves && matches[k].delivered.None? then matches[k].(delivered := Some(now)) else matches[k];
    }

    /**
      One page of the feed. Every shipped row ends up delivered. The response shows a stamp it
      just made as `shownAt`, read by a second query, while the row holds `now`.
     */
    method ListCves(tenant: Id, f: ListFilter, listing: seq<string>, cursor: nat, limit: nat, now: Time, shownAt: Time)
      returns (items: seq<Item>, next: Option<nat>)
      requires IsListing(matches, tenant, f, listing)
      modifies this
      ensures next == if cursor + limit < |listing| then Some(cursor + limit) else None
      ensures var page := PageOf(listing, cursor, limit);
              && |items| == |page|
              && matches == Stamped(old(matches), tenant, Members(page), now)
              && forall i :: 0 <= i < |items| ==>
                   items[i].cve == page[i] && Shows(old(matches), matches, tenant, items[i], now, shownAt)
    {
      var page: seq<string>;
      page, next := FetchPage(listing, cursor, limit);
      assert forall c :: c in page ==> c in listing && (tenant, c) in matches;
      hide IsListing, Stamped, PageOf;
      var toStamp := set c | c in page && matches[(tenant, c)].delivered.None?;
      items := Show(tenant, page, toStamp, shownAt);
      StampDelivered(tenant, toStamp, now);
      OnlyUndelivered(old(matches), tenant, page, toStamp, now);
      forall i | 0 <= i < |items| ensures Shows(old(matches), matches, tenant, items[i], now, shownAt) {
        StampedAt(old(matches), tenant, Members(page), page[i], now);
      }
    }

    /** The items of the response, with the stamps to be made filled in. */
    method Show(tenant: Id, cves: seq<string>, toStamp: set<string>, shownAt: Time) returns (items: seq<Item>)
      requires forall c :: c in cves ==> (tenant, c) in matches
      ensures |items| == |cves|
      ensures forall i :: 0 <= i < |cves| ==>
                items[i] == Item(cves[i], if cves[i] in toStamp then matches[(tenant, cves[i])].(delivered := Some(shownAt))
                                          else matches[(tenant, cves[i])])
    {
      items := [];
      for i := 0 to |cves|
        invariant |items| == i
        invariant forall j :: 0 <= j < i ==>
          items[j] == Item(cves[j], if cves[j] in toStamp then matches[(tenant, cves[j])].(delivered := Some(shownAt))
                                    else matches[(tenant, cves[j])])
      {
        var row := matches[(tenant, cves[i])];
        items := items + [Item(cves[i], if cves[i] in toStamp then row.(delivered := Some(shownAt)) else row)];
      }
    }

    method AcknowledgeCve(tenant: Id, cve: string, now: Time) returns (r: Result<()>)
      modifies this
      ensures r == if (tenant, cve) in old(matches) then Ok(()) else Err(NotFound)
      ensures matches == Acknowledged(old(matches), tenant, cve, now)
    {
      if (tenant, cve) !in matches { return Err(NotFound); }
      var row := matches[(tenant, cve)];
      if row.acknowledged.None? {
        row := row.(acknowledged := Some(now));
      }
      matches := matches[(tenant, cve) := row];
      return Ok(());
    }

    method SuppressCve(tenant: Id, cve: string, reason: string, now: Time) returns (r: Result<()>)
      modifies this
      ensures r == if (tenant, cve) in old(matches) then Ok(()) else Err(NotFound)
      ensures matches == Suppressed(old(matches), tenant, cve, reason, now)
    {
      if (tenant, cve) !in matches { return Err(NotFound); }
      var row := matches[(tenant, cve)];
      if row.suppressed.None? { row := row.(suppressed := Some(now)); }
      if reason != "" { row := row.(reason := Some(reason)); }
      matches := matches[(tenant, cve) := row];
      return Ok(());
    }
  }

}
