/** Cursor paging on (timestamp, id), newest first, as the bundle and baseline histories do it. */
module KeysetPaging {
  import opened Common

  datatype Key = Key(at: Time, id: Id)

  predicate Less(a: Key, b: Key) { a.at < b.at || (a.at == b.at && a.id < b.id) }

  // ── The sorted list ──────────────────────────────────────────────────

  predicate IsMax(s: set<Key>, m: Key) {
    m in s && forall k :: k in s && k != m ==> Less(k, m)
  }

  ghost function MaxOf(s: set<Key>): (m: Key)
    requires s != {}
    ensures IsMax(s, m)
    decreases |s|
  {
    var k :| k in s;
    var rest := s - {k};
    assert forall j :: j in s <==> j == k || j in rest;
    if rest == {} then k
    else
      var n := MaxOf(rest);
      if Less(n, k) then k else n
  }

  lemma OneMax(s: set<Key>, m: Key)
    requires IsMax(s, m)
    ensures forall k :: IsMax(s, k) ==> k == m
  {
  }

  /** ORDER BY at DESC, id DESC. */
  ghost function Descending(s: set<Key>): (r: seq<Key>)
    ensures |r| == |s|
    decreases |s|
  {
    if s == {} then [] else [MaxOf(s)] + Descending(s - {MaxOf(s)})
  }

  ghost predicate StrictlyDescending(r: seq<Key>) {
    forall i, j :: 0 <= i < j < |r| ==> Less(r[j], r[i])
  }

  lemma DescendingUnfolds(s: set<Key>)
    requires s != {}
    ensures IsMax(s, MaxOf(s)) && |Descending(s)| > 0 && Descending(s)[0] == MaxOf(s)
    ensures Descending(s)[1..] == Descending(s - {MaxOf(s)})
  {
  }

  lemma MaxThenRest(m: Key, rest: seq<Key>, s: set<Key>)
    requires IsMax(s, m) && StrictlyDescending(rest)
    requires forall k :: k in rest <==> k in s - {m}
    ensures StrictlyDescending([m] + rest)
    ensures forall k :: k in [m] + rest <==> k in s
  {
    var r := [m] + rest;
    hide Less;
    forall i, j | 0 <= i < j < |r| ensures Less(r[j], r[i]) {
      assert r[j] == rest[j - 1] && r[j] in rest;
      if i > 0 { assert r[i] == rest[i - 1]; }
    }
  }

  /** It lists every row once, strictly descending. */
  lemma {:induction false} DescendingLists(s: set<Key>)
    ensures StrictlyDescending(Descending(s))
    ensures forall k :: k in Descending(s) <==> k in s
    decreases |s|
  {
    if s != {} {
      var m := MaxOf(s);
      DescendingLists(s - {m});
      DescendingUnfolds(s);
      MaxThenRest(m, Descending(s - {m}), s);
      assert Descending(s) == [m] + Descending(s - {m});
      hide *;
    } else {
      assert Descending(s) == [];
    }
  }

  // ── Pages ────────────────────────────────────────────────────────────

  /** (at, id) < (cursor.at, cursor.id). */
  ghost function Below(s: set<Key>, cursor: Option<Key>): set<Key> {
    if cursor.None? then s else set k | k in s && Less(k, cursor.value)
  }

  ghost function Page(s: set<Key>, cursor: Option<Key>, limit: nat): (page: seq<Key>)
    ensures |page| == if limit <= |Below(s, cursor)| then limit else |Below(s, cursor)|
  {
    var all := Descending(Below(s, cursor));
    all[..if limit <= |all| then limit else |all|]
  }

  /** What comes after the n-th row is what lies below it. */
  lemma {:induction false} RestIsBelow(s: set<Key>, n: nat)
    requires 0 < n <= |Descending(s)|
    ensures Descending(s)[n..] == Descending(Below(s, Some(Descending(s)[n - 1])))
    decreases n
  {
    hide *;
    var m := MaxOf(s);
    var rest := s - {m};
    var r := Descending(s);
    DescendingUnfolds(s);
    if n == 1 {
      BelowMax(s, m);
    } else {
      RestIsBelow(rest, n - 1);
      var c := r[n - 1];
      assert c == r[1..][n - 2];
      DescendingLists(rest);
      BelowOther(s, m, c);
      assert r[n..] == r[1..][n - 1..];
    }
  }

  lemma BelowMax(s: set<Key>, m: Key)
    requires IsMax(s, m)
    ensures Below(s, Some(m)) == s - {m}
  {
  }

  lemma BelowOther(s: set<Key>, m: Key, c: Key)
    requires IsMax(s, m) && c in s - {m}
    ensures Below(s, Some(c)) == Below(s - {m}, Some(c))
  {
  }

  /** Rows that appeared after the first page, all newer than what was there. */
  ghost predicate AllNewer(s: set<Key>, more: set<Key>) {
    forall k, n :: k in s && n in more ==> Less(k, n)
  }

  ghost predicate OnlyNewer(s: set<Key>, newer: nat -> set<Key>) {
    forall k :: AllNewer(s, newer(k))
  }

  /**
    The pages of a client that passes on the last row of each page as the next cursor and stops
    at a page that is not full. The table is `s` at the first page; `newer(k)` has been added by the k-th.
   */
  ghost function Walk(s: set<Key>, newer: nat -> set<Key>, k: nat, cursor: Option<Key>, limit: nat): seq<Key>
    requires limit > 0 && OnlyNewer(s, newer)
    requires if k == 0 then cursor.None? else cursor.Some? && cursor.value in s
    decreases |Below(s, cursor)|
  {
    var table := if k == 0 then s else s + newer(k);
    var page := Page(table, cursor, limit);
    NewerUnseen(s, newer(k), k, cursor);
    if |page| < limit then page
    else
      LastIsLower(s, cursor, limit);
      page + Walk(s, newer, k + 1, Some(page[|page| - 1]), limit)
  }

  lemma NewerUnseen(s: set<Key>, more: set<Key>, k: nat, cursor: Option<Key>)
    requires AllNewer(s, more) && (k > 0 ==> cursor.Some? && cursor.value in s)
    ensures Below(if k == 0 then s else s + more, cursor) == Below(s, cursor)
  {
    if k > 0 {
      assert forall n :: n in more ==> Less(cursor.value, n);
    }
  }

  lemma LastIsLower(s: set<Key>, cursor: Option<Key>, limit: nat)
    requires 0 < limit <= |Below(s, cursor)|
    ensures var last := Page(s, cursor, limit)[limit - 1];
            last in s && last in Below(s, cursor) && |Below(s, Some(last))| < |Below(s, cursor)|
  {
    var b := Below(s, cursor);
    DescendingLists(b);
    var last := Page(s, cursor, limit)[limit - 1];
    assert last in Descending(b);
    assert Below(s, Some(last)) <= b - {last};
    Smaller(Below(s, Some(last)), b, last);
  }

  lemma Smaller(a: set<Key>, b: set<Key>, k: Key)
    requires a <= b - {k} && k in b
    ensures |a| < |b|
  {
    Subset(a, b - {k});
  }

  lemma {:induction false} Subset(a: set<Key>, b: set<Key>)
    requires a <= b
    ensures |a| <= |b|
    decreases |a|
  {
    if k :| k in a {
      Subset(a - {k}, b - {k});
    }
  }

  lemma WalkUnfolds(s: set<Key>, newer: nat -> set<Key>, k: nat, cursor: Option<Key>, limit: nat)
    requires limit > 0 && OnlyNewer(s, newer)
    requires if k == 0 then cursor.None? else cursor.Some? && cursor.value in s
    ensures var page := Page(s, cursor, limit);
            if |page| < limit then Walk(s, newer, k, cursor, limit) == page
            else page[limit - 1] in s
                 && Walk(s, newer, k, cursor, limit) == page + Walk(s, newer, k + 1, Some(page[limit - 1]), limit)
  {
    NewerUnseen(s, newer(k), k, cursor);
    if limit <= |Below(s, cursor)| { LastIsLower(s, cursor, limit); }
    hide Below, Descending, AllNewer, OnlyNewer, Less, MaxOf, IsMax;
  }

  lemma ShortPage(s: set<Key>, cursor: Option<Key>, limit: nat)
    ensures |Page(s, cursor, limit)| < limit ==> Page(s, cursor, limit) == Descending(Below(s, cursor))
  {
    var all := Descending(Below(s, cursor));
    assert all[..|all|] == all;
  }

  /** A full page, and then what lies below its last row. */
  lemma PageThenRest(s: set<Key>, cursor: Option<Key>, limit: nat)
    requires 0 < limit <= |Below(s, cursor)|
    ensures var page := Page(s, cursor, limit);
            Descending(Below(s, cursor)) == page + Descending(Below(s, Some(page[limit - 1])))
  {
    var all := Descending(Below(s, cursor));
    LastIsLower(s, cursor, limit);
    LastInTable(s, cursor, all[limit - 1]);
    RestIsBelow(Below(s, cursor), limit);
    hide Descending, Below;
    assert all == all[..limit] + all[limit..];
  }

  lemma {:induction false} WalkContinues(s: set<Key>, newer: nat -> set<Key>, k: nat, cursor: Option<Key>, limit: nat)
    requires limit > 0 && OnlyNewer(s, newer)
    requires if k == 0 then cursor.None? else cursor.Some? && cursor.value in s
    ensures Walk(s, newer, k, cursor, limit) == Descending(Below(s, cursor))
    decreases |Below(s, cursor)|
  {
    hide *;
    WalkUnfolds(s, newer, k, cursor, limit);
    ShortPage(s, cursor, limit);
    var page := Page(s, cursor, limit);
    if |page| == limit {
      LastIsLower(s, cursor, limit);
      var last := page[limit - 1];
      var rest := Walk(s, newer, k + 1, Some(last), limit);
      assert Walk(s, newer, k, cursor, limit) == page + rest;
      WalkContinues(s, newer, k + 1, Some(last), limit);
      assert rest == Descending(Below(s, Some(last)));
      PageThenRest(s, cursor, limit);
    }
  }

  lemma LastInTable(s: set<Key>, cursor: Option<Key>, last: Key)
    ensures last in Below(s, cursor) ==> Below(Below(s, cursor), Some(last)) == Below(s, Some(last))
  {
  }

  /**
    For every page size, walking the pages gives the sorted list of the rows that were there at
    the first page: each once, none missing, though newer rows arrive between the pages.
   */
  lemma WalkIsTheSortedList(s: set<Key>, newer: nat -> set<Key>, limit: nat)
    requires limit > 0 && OnlyNewer(s, newer)
    ensures Walk(s, newer, 0, None, limit) == Descending(s)
    ensures StrictlyDescending(Walk(s, newer, 0, None, limit))
    ensures forall k :: k in Walk(s, newer, 0, None, limit) <==> k in s
  {
    WalkContinues(s, newer, 0, None, limit);
    DescendingLists(s);
  }

  /** Without the id in the cursor, a second row of the same instant would be lost. */
  lemma TimestampAloneLosesRows(at: Time)
    ensures var s := {Key(at, 1), Key(at, 2)};
            var first := Page(s, None, 1)[0];
            first == Key(at, 2) && (set k | k in s && k.at < first.at) == {} && Below(s, Some(first)) == {Key(at, 1)}
  {
    var s := {Key(at, 1), Key(at, 2)};
    assert Less(Key(at, 1), Key(at, 2)) && !Less(Key(at, 2), Key(at, 1));
    assert IsMax(s, MaxOf(s));
    assert MaxOf(s) == Key(at, 2);
  }

  /** The bundle that the bridge pulls: ORDER BY built_at DESC LIMIT 1, ties at the database's choice. */
  ghost predicate IsCurrent(s: set<Key>, k: Key) {
    k in s && forall j :: j in s ==> j.at <= k.at
  }

  /** It heads the history, unless a bundle of the same instant does. */
  lemma CurrentHeadsTheHistory(s: set<Key>, k: Key)
    requires IsCurrent(s, k)
    ensures |Descending(s)| > 0 && Descending(s)[0].at == k.at
    ensures k == Descending(s)[0] <==> forall j :: j in s && j.at == k.at ==> j.id <= k.id
  {
    DescendingUnfolds(s);
    hide Descending;
    var m := MaxOf(s);
    assert m in s && (m != k ==> Less(k, m));
  }

  // ── The handler as it runs ───────────────────────────────────────────

  /** A row of policy_bundles or baseline_snapshots; the rest of it is payload. */
  datatype Row = Row(tenant: Id, at: Time, payload: string)

  /** LIMIT over the sorted rows, picking the greatest that is left each time. */
  method Top(s: set<Key>, limit: nat) returns (page: seq<Key>)
    ensures page == Descending(s)[..if limit <= |s| then limit else |s|]
  {
    var todo := s;
    page := [];
    while |page| < limit && todo != {}
      invariant |page| <= limit && Descending(s) == page + Descending(todo)
      decreases |todo|
    {
      DescendingUnfolds(todo);
      hide MaxOf, Descending;
      OneMax(todo, MaxOf(todo));
      var k :| k in todo && IsMax(todo, k);
      assert Descending(todo) == [k] + Descending(todo - {k});
      assert page + ([k] + Descending(todo - {k})) == page + [k] + Descending(todo - {k});
      page := page + [k];
      todo := todo - {k};
    }
  }

  class History {
    var rows: map<Id, Row>

    ghost function Keys(tenant: Id): set<Key>
      reads this
    {
      set i | i in rows && rows[i].tenant == tenant :: Key(rows[i].at, i)
    }

    constructor ()
      ensures rows == map[]
    {
      rows := map[];
    }

    /** A new row joins its tenant's history and no other. */
    method Insert(id: Id, row: Row)
      requires id !in rows
      modifies this
      ensures rows == old(rows)[id := row]
      ensures Keys(row.tenant) == old(Keys(row.tenant)) + {Key(row.at, id)}
      ensures forall t :: t != row.tenant ==> Keys(t) == old(Keys(t))
    {
      rows := rows[id := row];
      forall t ensures forall k :: k in Keys(t) <==> k in old(Keys(t)) || (t == row.tenant && k == Key(row.at, id)) {
        forall k | k in old(Keys(t)) ensures k in Keys(t) {
          assert k.id in rows && rows[k.id] == old(rows)[k.id];
        }
        if t == row.tenant { assert rows[id] == row; }
      }
    }

    /** The cursor is a pair: both halves or neither. */
    method List(tenant: Id, limit: nat, beforeAt: Option<Time>, beforeId: Option<Id>) returns (r: Result<seq<Key>>)
      ensures beforeAt.Some? != beforeId.Some? ==> r == Err(BadRequest)
      ensures beforeAt.Some? == beforeId.Some? ==>
                r == Ok(Page(Keys(tenant), if beforeAt.Some? then Some(Key(beforeAt.value, beforeId.value)) else None, limit))
    {
      if beforeAt.Some? != beforeId.Some? { return Err(BadRequest); }
      var todo := set i | i in rows && rows[i].tenant == tenant
                          && (beforeAt.Some? ==> Less(Key(rows[i].at, i), Key(beforeAt.value, beforeId.value)))
                    :: Key(rows[i].at, i);
      assert todo == Below(Keys(tenant), if beforeAt.Some? then Some(Key(beforeAt.value, beforeId.value)) else None);
      var page := Top(todo, limit);
      return Ok(page);
    }
  }

}
