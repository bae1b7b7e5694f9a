/** The NVD ingest: windows from the watermark to now, pages within a window, and the run log. */
module NvdIngest {
  import opened Common
  import opened NvdParsing
  import opened CveMerge

  const SECOND: Time := 1_000_000
  const DAY: Time := 86_400 * SECOND
  const MAX_WINDOW: Time := 119 * DAY

  // ── Windows ──────────────────────────────────────────────────────────

  datatype Window = Window(from: Time, to: Time)

  function Min(a: Time, b: Time): Time { if a <= b then a else b }

  /** _iso_nvd drops the fraction of the second. */
  function Truncated(t: Time): Time { t - t % SECOND }

  /** The dates sent to NVD. */
  function Requested(w: Window): Window { Window(Truncated(w.from), Truncated(w.to)) }

  function Windows(start: Time, now: Time): seq<Window>
    decreases now - start
  {
    if start >= now then []
    else
      var end := Min(start + MAX_WINDOW, now);
      [Window(start, end)] + Windows(end, now)
  }

  lemma TruncatedKeepsOrder(a: Time, b: Time)
    requires a <= b
    ensures Truncated(a) <= Truncated(b)
  {
  }

  /** The window that a day count apart stays apart by that count after truncation. */
  lemma TruncatedLength(w: Window)
    requires w.from <= w.to <= w.from + MAX_WINDOW
    ensures 0 <= Requested(w).to - Requested(w).from <= MAX_WINDOW
  {
    assert Truncated(w.from + MAX_WINDOW) == Truncated(w.from) + MAX_WINDOW;
    TruncatedKeepsOrder(w.to, w.from + MAX_WINDOW);
    TruncatedKeepsOrder(w.from, w.to);
  }

  /** As sent, the windows are at most 119 days long, contiguous, and span from the start to now. */
  lemma {:induction false} WindowsSpan(start: Time, now: Time)
    requires start < now
    ensures var ws := Windows(start, now);
            && |ws| > 0
            && Requested(ws[0]).from == Truncated(start) && Requested(ws[|ws| - 1]).to == Truncated(now)
            && (forall i :: 0 <= i < |ws| - 1 ==> Requested(ws[i]).to == Requested(ws[i + 1]).from)
            && (forall i :: 0 <= i < |ws| ==> 0 <= Requested(ws[i]).to - Requested(ws[i]).from <= MAX_WINDOW)
    decreases now - start
  {
    hide Truncated;
    var end := Min(start + MAX_WINDOW, now);
    var ws := Windows(start, now);
    TruncatedLength(ws[0]);
    if end < now {
      WindowsSpan(end, now);
      assert forall i :: 0 < i < |ws| ==> ws[i] == Windows(end, now)[i - 1];
    }
  }

  predicate Covers(w: Window, t: Time) {
    Requested(w).from <= t < Requested(w).to
  }

  /** Every instant between them is in one of the windows, and in one only. */
  lemma {:induction false} WindowOf(start: Time, now: Time, t: Time) returns (i: nat)
    requires Truncated(start) <= t < Truncated(now)
    ensures i < |Windows(start, now)| && Covers(Windows(start, now)[i], t)
    ensures forall j :: 0 <= j < |Windows(start, now)| && Covers(Windows(start, now)[j], t) ==> j == i
    decreases now - start
  {
    var end := Min(start + MAX_WINDOW, now);
    if start >= now {
      TruncatedKeepsOrder(now, start);
    } else if t < Truncated(end) {
      i := 0;
      WindowsFrom(end, now);
      hide Truncated;
      assert forall j :: 0 < j < |Windows(start, now)| ==> Windows(start, now)[j] == Windows(end, now)[j - 1];
    } else {
      hide Truncated;
      var k := WindowOf(end, now, t);
      i := k + 1;
      assert forall j :: 0 < j < |Windows(start, now)| ==> Windows(start, now)[j] == Windows(end, now)[j - 1];
    }
  }

  lemma {:induction false} WindowsFrom(start: Time, now: Time)
    ensures forall j :: 0 <= j < |Windows(start, now)| ==> Requested(Windows(start, now)[j]).from >= Truncated(start)
    decreases now - start
  {
    if start < now {
      var end := Min(start + MAX_WINDOW, now);
      WindowsFrom(end, now);
      TruncatedKeepsOrder(start, end);
    }
  }

  // ── Pages ────────────────────────────────────────────────────────────

  /**
    What NVD does with a window: fail somewhere, or serve a list. It reports `total`; asked from
    index s it returns some of what remains, `size(s)` items at most. The upsert of item `breaks` raises, if there is one.
   */
  datatype Reply = Fails | Serves(items: seq<Vuln>, total: nat, size: nat -> nat, breaks: Option<nat>)

  function Page(r: Reply, s: nat): (page: seq<Vuln>)
    requires r.Serves? && s <= |r.items|
    ensures s + |page| <= |r.items| && page <= r.items[s..]
  {
    r.items[s..if r.size(s) <= |r.items| - s then s + r.size(s) else |r.items|]
  }

  function Collected(r: Reply, s: nat): seq<Vuln>
    requires r.Serves? && s <= |r.items|
    decreases |r.items| - s
  {
    var page := Page(r, s);
    if s + |page| >= r.total || page == [] then page else page + Collected(r, s + |page|)
  }

  /** The fetch stops early at an empty page that comes before the total is reached. */
  predicate Starves(r: Reply, s: nat)
    requires r.Serves? && s <= |r.items|
    decreases |r.items| - s
  {
    var page := Page(r, s);
    if page == [] then s < |r.items| else s + |page| < r.total && Starves(r, s + |page|)
  }

  /** What is collected is always the list from s on, in order, without a hole. */
  lemma {:induction false} CollectsPrefix(r: Reply, s: nat)
    requires r.Serves? && s <= |r.items|
    ensures Collected(r, s) <= r.items[s..]
    decreases |r.items| - s
  {
    var page := Page(r, s);
    if !(s + |page| >= r.total || page == []) {
      CollectsPrefix(r, s + |page|);
      assert r.items[s..] == page + r.items[s + |page|..];
    }
  }

  /** With an honest total, the whole list is collected exactly when the server never answers short with nothing. */
  lemma {:induction false} CompleteUnlessStarved(r: Reply, s: nat)
    requires r.Serves? && s <= |r.items| == r.total
    ensures Collected(r, s) == r.items[s..] <==> !Starves(r, s)
    decreases |r.items| - s
  {
    var page := Page(r, s);
    CollectsPrefix(r, s);
    if !(s + |page| >= r.total || page == []) {
      CompleteUnlessStarved(r, s + |page|);
      assert r.items[s..] == page + r.items[s + |page|..];
      assert (page + Collected(r, s + |page|))[|page|..] == Collected(r, s + |page|);
    }
  }

  /** So a server that always returns something while anything remains delivers everything. */
  lemma {:induction false} EagerServerIsComplete(r: Reply, s: nat)
    requires r.Serves? && s <= |r.items| == r.total
    requires forall k :: r.size(k) > 0
    ensures Collected(r, s) == r.items[s..]
    decreases |r.items| - s
  {
    var page := Page(r, s);
    if !(s + |page| >= r.total || page == []) {
      EagerServerIsComplete(r, s + |page|);
      assert r.items[s..] == page + r.items[s + |page|..];
    }
  }

  lemma CollectedUnrolls(r: Reply, s: nat)
    requires r.Serves? && s <= |r.items|
    ensures var page := Page(r, s);
            Collected(r, s) == if s + |page| >= r.total || page == [] then page else page + Collected(r, s + |page|)
  {
  }

  lemma JoinParts<T>(a: seq<T>, b: seq<T>, c: seq<T>)
    ensures b <= c ==> a + c == a + b + c[|b|..]
  {
  }

  type Server = Window -> Reply

  /** Everything fetched over a list of windows. */
  function Fetched(server: Server, ws: seq<Window>): seq<Vuln> {
    if ws == [] then []
    else
      var r := server(Requested(ws[|ws| - 1]));
      Fetched(server, ws[..|ws| - 1]) + if r.Serves? then Collected(r, 0) else []
  }

  predicate Breaks(r: Reply)
    requires r.Serves?
  {
    r.breaks.Some? && r.breaks.value < |Collected(r, 0)|
  }

  /** The window is fetched and upserted. */
  predicate Answers(server: Server, w: Window) {
    server(Requested(w)).Serves? && !Breaks(server(Requested(w)))
  }

  /** What was fetched for the window that stopped a run: counted as seen, and then not kept. */
  function LostPage(server: Server, todo: seq<Window>): seq<Vuln> {
    if todo == [] || server(Requested(todo[0])).Fails? then [] else Collected(server(Requested(todo[0])), 0)
  }

  /** The upserts of that window that were counted as added or updated, and then rolled back. */
  function LostUpserts(server: Server, todo: seq<Window>): seq<Vuln> {
    var page := LostPage(server, todo);
    if page == [] || !Breaks(server(Requested(todo[0]))) then []
    else page[..server(Requested(todo[0])).breaks.value]
  }

  // ── The run log ──────────────────────────────────────────────────────

  datatype RunStatus = Running | Success | Failed

  /** A row of feed_runs; the sequence is in id order. */
  datatype Run = Run(
    source: string, started: Time, status: RunStatus, cursorBefore: Option<Time>, cursorAfter: Option<Time>,
    seen: nat, added: nat)

  predicate Eligible(r: Run, source: string) {
    r.source == source && r.status == Success && r.cursorAfter.Some?
  }

  /** The query of latest_cursor: ORDER BY started_at DESC LIMIT 1, ties at the database's choice. */
  ghost predicate IsLatest(runs: seq<Run>, source: string, cursor: Option<Time>) {
    if cursor.None? then forall i :: 0 <= i < |runs| ==> !Eligible(runs[i], source)
    else exists i :: 0 <= i < |runs| && Newest(runs, source, i) && runs[i].cursorAfter == cursor
  }

  ghost predicate Newest(runs: seq<Run>, source: string, i: nat)
    requires i < |runs|
  {
    && Eligible(runs[i], source)
    && forall j :: 0 <= j < |runs| && Eligible(runs[j], source) ==> runs[j].started <= runs[i].started
  }

  /** The log of runs that did not overlap: each began from the watermark that the earlier ones left. */
  ghost predicate Chained(runs: seq<Run>) {
    && (forall i :: 0 <= i < |runs| ==> IsLatest(runs[..i], runs[i].source, runs[i].cursorBefore))
    && (forall i :: 0 <= i < |runs| && runs[i].status == Success ==> runs[i].cursorAfter.Some?)
  }

  ghost predicate Increasing(runs: seq<Run>) {
    forall i, j :: 0 <= i < j < |runs| ==> runs[i].started < runs[j].started
  }

  /** A successful run begins where the success before it ended, whatever failed or crashed in between. */
  lemma SuccessFollowsSuccess(runs: seq<Run>, i: nat, j: nat)
    requires Chained(runs) && Increasing(runs) && i < j < |runs|
    requires Eligible(runs[i], runs[j].source)
    requires forall k :: i < k < j ==> !Eligible(runs[k], runs[j].source)
    ensures runs[j].cursorBefore == runs[i].cursorAfter
  {
    var earlier, source := runs[..j], runs[j].source;
    assert IsLatest(earlier, source, runs[j].cursorBefore);
    assert Eligible(earlier[i], source);
    var k: nat :| k < |earlier| && Newest(earlier, source, k) && earlier[k].cursorAfter == runs[j].cursorBefore;
    assert earlier[k] == runs[k] && earlier[i] == runs[i];
  }

  lemma {:induction false} PreviousSuccess(runs: seq<Run>, source: string, i: nat, j: nat) returns (k: nat)
    requires i < j <= |runs| && Eligible(runs[i], source)
    ensures i <= k < j && Eligible(runs[k], source)
    ensures forall l :: k < l < j ==> !Eligible(runs[l], source)
  {
    k := j - 1;
    if !Eligible(runs[k], source) {
      k := PreviousSuccess(runs, source, i, j - 1);
    }
  }

  /** The windows that a successful run that had a watermark asked for. */
  function RunWindows(r: Run): seq<Window>
    requires r.cursorBefore.Some? && r.cursorAfter.Some?
  {
    Windows(r.cursorBefore.value, r.cursorAfter.value)
  }

  /** Nothing between the ends of two successful runs is skipped: some run between asked for it. */
  lemma {:induction false} NoGap(runs: seq<Run>, i: nat, j: nat, t: Time) returns (k: nat, w: nat)
    requires Chained(runs) && Increasing(runs) && i < j < |runs|
    requires Eligible(runs[i], runs[j].source) && Eligible(runs[j], runs[j].source)
    requires Truncated(runs[i].cursorAfter.value) <= t < Truncated(runs[j].cursorAfter.value)
    ensures i < k <= j && Eligible(runs[k], runs[j].source) && runs[k].cursorBefore.Some?
    ensures w < |RunWindows(runs[k])| && Covers(RunWindows(runs[k])[w], t)
    decreases j
  {
    hide Chained, Increasing, Truncated;
    var p := PreviousSuccess(runs, runs[j].source, i, j);
    SuccessFollowsSuccess(runs, p, j);
    if t < Truncated(runs[p].cursorAfter.value) {
      k, w := NoGap(runs, i, p, t);
    } else {
      k := j;
      w := WindowOf(runs[j].cursorBefore.value, runs[j].cursorAfter.value, t);
    }
  }

  ghost predicate CursorsIncrease(runs: seq<Run>, source: string) {
    forall i, j :: 0 <= i < j < |runs| && Eligible(runs[i], source) && Eligible(runs[j], source) ==>
      runs[i].cursorAfter.value <= runs[j].cursorAfter.value
  }

  /** If the clock never ran backwards, no instant is asked for by two successful runs. */
  lemma NoOverlap(runs: seq<Run>, i: nat, j: nat, v: nat, w: nat, t: Time)
    requires Chained(runs) && Increasing(runs) && i < j < |runs|
    requires Eligible(runs[i], runs[j].source) && Eligible(runs[j], runs[j].source)
    requires CursorsIncrease(runs, runs[j].source)
    requires runs[i].cursorBefore.Some? && runs[j].cursorBefore.Some?
    requires v < |RunWindows(runs[i])| && w < |RunWindows(runs[j])|
    ensures !(Covers(RunWindows(runs[i])[v], t) && Covers(RunWindows(runs[j])[w], t))
  {
    hide Chained, Increasing;
    var p := PreviousSuccess(runs, runs[j].source, i, j);
    SuccessFollowsSuccess(runs, p, j);
    WindowsFrom(runs[j].cursorBefore.value, runs[j].cursorAfter.value);
    WindowsTo(runs[i].cursorBefore.value, runs[i].cursorAfter.value);
    TruncatedKeepsOrder(runs[i].cursorAfter.value, runs[p].cursorAfter.value);
  }

  lemma {:induction false} WindowsTo(start: Time, now: Time)
    ensures forall j :: 0 <= j < |Windows(start, now)| ==> Requested(Windows(start, now)[j]).to <= Truncated(now)
    decreases now - start
  {
    if start < now {
      var end := Min(start + MAX_WINDOW, now);
      WindowsTo(end, now);
      TruncatedKeepsOrder(end, now);
    }
  }

  // ── Failure and retry ────────────────────────────────────────────────

  /** What a failed run got through are the first windows of every later run from the same watermark. */
  lemma {:induction false} DoneWindowsRecur(start: Time, now: Time, later: Time, n: nat)
    requires n < |Windows(start, now)| && now <= later
    ensures n <= |Windows(start, later)| && Windows(start, now)[..n] == Windows(start, later)[..n]
    decreases n
  {
    if n > 0 {
      var end := Min(start + MAX_WINDOW, now);
      assert Windows(start, now)[1..] == Windows(end, now);
      DoneWindowsRecur(end, now, later, n - 1);
      assert end < now && end == Min(start + MAX_WINDOW, later);
      assert Windows(start, now)[..n] == [Window(start, end)] + Windows(end, now)[..n - 1];
      assert Windows(start, later)[..n] == [Window(start, end)] + Windows(end, later)[..n - 1];
    }
  }

  lemma {:induction false} FetchedPrefix(server: Server, ws: seq<Window>, n: nat)
    requires n <= |ws|
    ensures Fetched(server, ws[..n]) <= Fetched(server, ws)
  {
    if n < |ws| {
      FetchedPrefix(server, ws[..|ws| - 1], n);
      assert ws[..|ws| - 1][..n] == ws[..n];
    } else {
      assert ws[..n] == ws;
    }
  }

  /**
    A run that fails after n windows and is followed by one that succeeds leaves the tables as if
    it had not been: while NVD answers those windows alike, retrying repairs every failure.
   */
  lemma FailedRunIsRepaired(server: Server, start: Time, now: Time, later: Time, n: nat, t: Tables)
    requires n < |Windows(start, now)| && now <= later
    ensures var ahead, all := Fetched(server, Windows(start, now)[..n]), Fetched(server, Windows(start, later));
            && AddNvds(AddNvds(t.events, ahead), all) == AddNvds(t.events, all)
            && NvdRefsAll(NvdRefsAll(t.refs, ahead), all) == NvdRefsAll(t.refs, all)
  {
    DoneWindowsRecur(start, now, later, n);
    FetchedPrefix(server, Windows(start, later), n);
    hide *;
    var ahead, all := Fetched(server, Windows(start, now)[..n]), Fetched(server, Windows(start, later));
    assert ahead == all[..|ahead|] && all[..|all|] == all;
    ManyAhead(t.events, ahead, all);
    RedoPrefixRefs(t.refs, all, |ahead|, |all|);
    assert Max(|ahead|, |all|) == |all| by { LongerWins(|ahead|, |all|); }
  }

  lemma LongerWins(m: nat, n: nat)
    requires m <= n
    ensures Max(m, n) == n
  {
  }

  // ── The ingest as it runs ────────────────────────────────────────────

  const NVD := "nvd"

  class NvdFeed {
    const tables: CveTables
    var runs: seq<Run>

    ghost predicate Valid()
      reads this
    {
      Chained(runs)
    }

    constructor (tables: CveTables)
      ensures Valid() && runs == [] && this.tables == tables
    {
      this.tables, runs := tables, [];
    }

    method LatestCursor(source: string) returns (cursor: Option<Time>)
      ensures IsLatest(runs, source, cursor)
    {
      cursor := None;
      ghost var at: nat := 0;
      var newest: Time := 0;
      for i := 0 to |runs|
        invariant cursor.None? ==> forall j :: 0 <= j < i ==> !Eligible(runs[j], source)
        invariant cursor.Some? ==>
                    && at < i && Eligible(runs[at], source)
                    && runs[at].cursorAfter == cursor && runs[at].started == newest
                    && forall j :: 0 <= j < i && Eligible(runs[j], source) ==> runs[j].started <= newest
      {
        if Eligible(runs[i], source) && (cursor.None? || runs[i].started > newest) {
          cursor, newest, at := runs[i].cursorAfter, runs[i].started, i;
        }
      }
      assert cursor.Some? ==> Newest(runs, source, at);
    }

    method OpenRun(source: string, cursorBefore: Option<Time>, started: Time) returns (id: nat)
      modifies this`runs
      ensures id == |old(runs)|
      ensures runs == old(runs) + [Run(source, started, Running, cursorBefore, None, 0, 0)]
    {
      id := |runs|;
      runs := runs + [Run(source, started, Running, cursorBefore, None, 0, 0)];
    }

    method CloseRun(id: nat, status: RunStatus, cursorAfter: Option<Time>, seen: nat, added: nat)
      requires id < |runs|
      modifies this`runs
      ensures runs == old(runs)[id := old(runs)[id].(
                        status := status, cursorAfter := cursorAfter, seen := seen, added := added)]
    {
      runs := runs[id := runs[id].(
        status := status, cursorAfter := cursorAfter, seen := seen, added := added)];
    }

    method FetchWindow(r: Reply) returns (vulns: seq<Vuln>)
      requires r.Serves?
      ensures vulns == Collected(r, 0)
    {
      hide Collected, Page;
      vulns := [];
      var start := 0;
      while true
        invariant start <= |r.items| && Collected(r, 0) == vulns + Collected(r, start)
        decreases |r.items| - start
      {
        var page := Page(r, start);
        CollectedUnrolls(r, start);
        JoinParts(vulns, page, Collected(r, start));
        vulns := vulns + page;
        start := start + |page|;
        if start >= r.total || page == [] { return; }
      }
    }

    /** Fetch one window and upsert it in one transaction; if that breaks, the counts stay and the upserts do not. */
    method IngestWindow(r: Reply) returns (ok: bool, seen: nat, added: nat)
      requires r.Serves?
      modifies tables
      ensures ok == !Breaks(r) && seen == |Collected(r, 0)|
      ensures ok ==> tables.events == AddNvds(old(tables.events), Collected(r, 0))
                     && tables.refs == NvdRefsAll(old(tables.refs), Collected(r, 0))
                     && added == |tables.events| - |old(tables.events)|
      ensures !ok ==> tables.events == old(tables.events) && tables.refs == old(tables.refs)
                      && added == |AddNvds(tables.events, Collected(r, 0)[..r.breaks.value])| - |tables.events|
    {
      hide AddNvds, NvdRefsAll, Collected;
      var page := FetchWindow(r);
      if r.breaks.Some? && r.breaks.value < |page| {
        var events, refs := tables.events, tables.refs;
        var a, _ := tables.UpsertPage(page[..r.breaks.value]);
        tables.events, tables.refs := events, refs;
        return false, |page|, a;
      }
      var a, _ := tables.UpsertPage(page);
      return true, |page|, a;
    }

    /**
      One ingest. It asks for the windows from the watermark (or the lookback) to now, in order.
      If all go through the run is a success and moves the watermark to now; at the first that
      does not, the run fails, leaves the watermark, and the windows already upserted stay. The
      log then also counts what a window lost to a database error had seen and added.
     */
    method Ingest(now: Time, started: Time, lookbackDays: int, server: Server)
      returns (done: seq<Window>, ghost todo: seq<Window>)
      requires Valid()
      modifies this, tables
      ensures Valid()
      ensures |runs| == |old(runs)| + 1 && runs[..|old(runs)|] == old(runs)
      ensures var r := runs[|old(runs)|];
              && IsLatest(old(runs), NVD, r.cursorBefore) && r.source == NVD && r.started == started
              && done + todo == Windows(r.cursorBefore.Or(Some(now - lookbackDays * DAY)).value, now)
              && (forall i :: 0 <= i < |done| ==> Answers(server, done[i]))
              && (if todo == [] then r.status == Success && r.cursorAfter == Some(now)
                  else r.status == Failed && r.cursorAfter == None && !Answers(server, todo[0]))
              && r.seen == |Fetched(server, done)| + |LostPage(server, todo)|
              && r.added == |AddNvds(tables.events, LostUpserts(server, todo))| - |old(tables.events)|
      ensures tables.events == AddNvds(old(tables.events), Fetched(server, done))
      ensures tables.refs == NvdRefsAll(old(tables.refs), Fetched(server, done))
    {
      hide AddNvds, NvdRefsAll, Collected, Fetched, IsLatest, Chained, Breaks;
      var cursor := LatestCursor(NVD);
      var windowStart := if cursor.Some? then cursor.value else now - lookbackDays * DAY;
      var run := OpenRun(NVD, cursor, started);
      ghost var begun := runs;
      var seen, added := 0, 0;
      var sliceStart := windowStart;
      done := [];
      FetchedNone(server, tables.events, tables.refs);
      while sliceStart < now
        invariant runs == begun
        invariant done + Windows(sliceStart, now) == Windows(windowStart, now)
        invariant forall i :: 0 <= i < |done| ==> Answers(server, done[i])
        invariant tables.events == AddNvds(old(tables.events), Fetched(server, done))
        invariant tables.refs == NvdRefsAll(old(tables.refs), Fetched(server, done))
        invariant seen == |Fetched(server, done)| && added == |tables.events| - |old(tables.events)|
        decreases now - sliceStart
      {
        var sliceEnd := Min(sliceStart + MAX_WINDOW, now);
        var w := Window(sliceStart, sliceEnd);
        var r := server(Requested(w));
        if r.Fails? {
          todo := Windows(sliceStart, now);
          FetchedNone(server, tables.events, tables.refs);
          CloseRun(run, Failed, None, seen, added);
          StillChained(old(runs), runs[run]);
          assert runs == old(runs) + [runs[run]];
          return;
        }
        var ok, n, a := IngestWindow(r);
        seen, added := seen + n, added + a;
        if !ok {
          todo := Windows(sliceStart, now);
          BrokenWindow(server, todo);
          CloseRun(run, Failed, None, seen, added);
          StillChained(old(runs), runs[run]);
          assert runs == old(runs) + [runs[run]];
          return;
        }
        FetchedStep(server, done, w, old(tables.events), old(tables.refs));
        done := done + [w];
        sliceStart := sliceEnd;
      }
      todo := [];
      FetchedNone(server, tables.events, tables.refs);
      CloseRun(run, Success, Some(now), seen, added);
      StillChained(old(runs), runs[run]);
      assert runs == old(runs) + [runs[run]];
    }
  }

  lemma BrokenWindow(server: Server, todo: seq<Window>)
    requires todo != [] && server(Requested(todo[0])).Serves? && Breaks(server(Requested(todo[0])))
    ensures var r := server(Requested(todo[0]));
            LostPage(server, todo) == Collected(r, 0)
            && LostUpserts(server, todo) == Collected(r, 0)[..r.breaks.value]
  {
  }

  lemma FetchedNone(server: Server, events: Events, refs: Refs)
    ensures Fetched(server, []) == [] && AddNvds(events, []) == events && NvdRefsAll(refs, []) == refs
  {
  }

  lemma FetchedStep(server: Server, done: seq<Window>, w: Window, events: Events, refs: Refs)
    requires Answers(server, w)
    ensures var page := Collected(server(Requested(w)), 0);
            && Fetched(server, done + [w]) == Fetched(server, done) + page
            && AddNvds(events, Fetched(server, done + [w])) == AddNvds(AddNvds(events, Fetched(server, done)), page)
            && NvdRefsAll(refs, Fetched(server, done + [w])) == NvdRefsAll(NvdRefsAll(refs, Fetched(server, done)), page)
  {
    hide AddNvds, NvdRefsAll, Collected;
    assert (done + [w])[..|done|] == done;
    AddNvdsConcat(events, Fetched(server, done), Collected(server(Requested(w)), 0));
    NvdRefsConcat(refs, Fetched(server, done), Collected(server(Requested(w)), 0));
  }

  lemma StillChained(runs: seq<Run>, r: Run)
    requires Chained(runs) && IsLatest(runs, r.source, r.cursorBefore)
    requires r.status == Success ==> r.cursorAfter.Some?
    ensures Chained(runs + [r])
  {
    hide IsLatest;
    var all := runs + [r];
    forall i | 0 <= i < |all| ensures IsLatest(all[..i], all[i].source, all[i].cursorBefore) {
      assert all[..i] == runs[..i] && runs[..|runs|] == runs;
    }
  }

}
