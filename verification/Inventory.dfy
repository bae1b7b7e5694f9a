/** Pulling a tenant's inventory from its bridge, and the catalog that replaces the old one. */
module Inventory {
  import opened Common

  /** A catalog row as the bridge sends it. */
  datatype Row = Row(
    vendor: Option<string>, product: Option<string>, version: Option<string>, cpe: Option<string>,
    hosts: Option<int>, source: Option<string>, firstSeen: Option<Time>, lastSeen: Option<Time>)

  /** The unique key within a tenant. */
  datatype Key = Key(vendor: string, product: string, version: string, source: string)

  datatype Details = Details(cpe: Option<string>, hosts: Option<int>, firstSeen: Option<Time>, lastSeen: Option<Time>)

  type Catalog = map<(Id, Key), Details>

  // ── Replacing the catalog ────────────────────────────────────────────

  /** Python's `s or d`. */
  function OrElse(s: Option<string>, d: string): string {
    if s.Some? && s.value != "" then s.value else d
  }

  predicate Usable(r: Row) { OrElse(r.product, "") != "" && OrElse(r.version, "") != "" }

  function KeyOf(r: Row): Key
    requires Usable(r)
  {
    Key(OrElse(r.vendor, "unknown"), r.product.value, r.version.value, OrElse(r.source, "auto"))
  }

  function DetailsOf(r: Row): Details { Details(r.cpe, r.hosts, r.firstSeen, r.lastSeen) }

  ghost predicate LastWith(rows: seq<Row>, key: Key, i: int) {
    && 0 <= i < |rows| && Usable(rows[i]) && KeyOf(rows[i]) == key
    && forall j :: i < j < |rows| && Usable(rows[j]) ==> KeyOf(rows[j]) != key
  }

  /** What a tenant has for a key: the details of the last pulled row with that key, if there is one. */
  ghost predicate Reflects(entry: Option<Details>, rows: seq<Row>, key: Key) {
    && (entry.None? ==> forall i :: 0 <= i < |rows| && Usable(rows[i]) ==> KeyOf(rows[i]) != key)
    && (entry.Some? ==> exists i :: LastWith(rows, key, i) && entry.value == DetailsOf(rows[i]))
  }

  function Entry(c: Catalog, tenant: Id, key: Key): Option<Details> {
    if (tenant, key) in c then Some(c[(tenant, key)]) else None
  }

  function Without(c: Catalog, tenant: Id): Catalog {
    map k | k in c && k.0 != tenant :: c[k]
  }

  function InsertRow(c: Catalog, tenant: Id, r: Row): Catalog {
    if Usable(r) then c[(tenant, KeyOf(r)) := DetailsOf(r)] else c
  }

  /** DELETE, then an upsert for each usable row in order. */
  function Replaced(c: Catalog, tenant: Id, rows: seq<Row>): Catalog {
    if rows == [] then Without(c, tenant)
    else InsertRow(Replaced(c, tenant, rows[..|rows| - 1]), tenant, rows[|rows| - 1])
  }

  lemma ReflectsLonger(entry: Option<Details>, rows: seq<Row>, r: Row, key: Key)
    requires Reflects(entry, rows, key)
    ensures Reflects(if Usable(r) && KeyOf(r) == key then Some(DetailsOf(r)) else entry, rows + [r], key)
  {
    var all := rows + [r];
    if Usable(r) && KeyOf(r) == key {
      assert all[|rows|] == r && LastWith(all, key, |rows|);
    } else if entry.Some? {
      var i :| LastWith(rows, key, i) && entry.value == DetailsOf(rows[i]);
      assert all[i] == rows[i] && LastWith(all, key, i);
    }
  }

  /** The new catalog depends on the pulled rows alone, the last duplicate winning; other tenants keep theirs. */
  lemma {:induction false} CatalogReflectsRows(c: Catalog, tenant: Id, rows: seq<Row>, key: Key)
    ensures Reflects(Entry(Replaced(c, tenant, rows), tenant, key), rows, key)
    ensures forall t :: t != tenant ==> Entry(Replaced(c, tenant, rows), t, key) == Entry(c, t, key)
  {
    if rows != [] {
      hide Reflects;
      CatalogReflectsRows(c, tenant, rows[..|rows| - 1], key);
      ReflectsLonger(Entry(Replaced(c, tenant, rows[..|rows| - 1]), tenant, key), rows[..|rows| - 1], rows[|rows| - 1], key);
      assert rows == rows[..|rows| - 1] + [rows[|rows| - 1]];
    }
  }

  lemma ReflectsOnce(a: Option<Details>, b: Option<Details>, rows: seq<Row>, key: Key)
    requires Reflects(a, rows, key) && Reflects(b, rows, key)
    ensures a == b
  {
    if a.Some? {
      var i :| LastWith(rows, key, i) && a.value == DetailsOf(rows[i]);
      if b.Some? {
        var j :| LastWith(rows, key, j) && b.value == DetailsOf(rows[j]);
      }
    }
  }

  /** Pulling the same rows over two different old catalogs leaves the tenant the same entries. */
  lemma OldCatalogDoesNotMatter(c: Catalog, d: Catalog, tenant: Id, rows: seq<Row>, key: Key)
    ensures Entry(Replaced(c, tenant, rows), tenant, key) == Entry(Replaced(d, tenant, rows), tenant, key)
  {
    hide Reflects;
    CatalogReflectsRows(c, tenant, rows, key);
    CatalogReflectsRows(d, tenant, rows, key);
    ReflectsOnce(Entry(Replaced(c, tenant, rows), tenant, key), Entry(Replaced(d, tenant, rows), tenant, key), rows, key);
  }

  /** Which rows count, and under which key: product and version are needed, vendor and source have defaults. */
  lemma KeysByField(r: Row)
    ensures Usable(r) <==> r.product.Some? && r.product.value != "" && r.version.Some? && r.version.value != ""
    ensures Usable(r) ==>
              && Some(KeyOf(r).product) == r.product && Some(KeyOf(r).version) == r.version
              && (if r.vendor.Some? && r.vendor.value != "" then Some(KeyOf(r).vendor) == r.vendor else KeyOf(r).vendor == "unknown")
              && (if r.source.Some? && r.source.value != "" then Some(KeyOf(r).source) == r.source else KeyOf(r).source == "auto")
    ensures DetailsOf(r).cpe == r.cpe && DetailsOf(r).hosts == r.hosts
            && DetailsOf(r).firstSeen == r.firstSeen && DetailsOf(r).lastSeen == r.lastSeen
  {
    assert |"unknown"| == 7 && |"auto"| == 4;
  }

  function CountUsable(rows: seq<Row>): nat {
    if rows == [] then 0 else CountUsable(rows[..|rows| - 1]) + if Usable(rows[|rows| - 1]) then 1 else 0
  }

  // ── Paging ───────────────────────────────────────────────────────────

  /** A response: a failure, or a page with perhaps a cursor to go on from. */
  datatype Response = Failure | Page(rows: seq<Row>, next: Option<int>)

  const MAX_ROWS: nat := 250_000

  /** The bridge answers the k-th request of a pull, for a cursor, in any way it likes. */
  type Bridge = (nat, int) -> Response

  /**
    The rows of a pull from its k-th request on, when `have` rows are in hand.
    A round that goes on has added a row, so the count to the limit falls.
   */
  function Pulled(bridge: Bridge, k: nat, cursor: int, have: nat): Option<seq<Row>>
    requires have <= MAX_ROWS
    decreases MAX_ROWS - have
  {
    var r := bridge(k, cursor);
    if r.Failure? then None
    else if r.next.None? || r.rows == [] || have + |r.rows| > MAX_ROWS then Some(r.rows)
    else
      var rest := Pulled(bridge, k + 1, r.next.value, have + |r.rows|);
      if rest.None? then None else Some(r.rows + rest.value)
  }

  /** The pull asks again only while it has at most 250 000 rows, so one page is all it can exceed that by. */
  lemma {:induction false} PullIsBounded(bridge: Bridge, k: nat, cursor: int, have: nat, page: nat)
    requires have <= MAX_ROWS
    requires forall i, c :: bridge(i, c).Page? ==> |bridge(i, c).rows| <= page
    ensures Pulled(bridge, k, cursor, have).Some? ==> have + |Pulled(bridge, k, cursor, have).value| <= MAX_ROWS + page
    decreases MAX_ROWS - have
  {
    var r := bridge(k, cursor);
    if r.Page? && !(r.next.None? || r.rows == [] || have + |r.rows| > MAX_ROWS) {
      PullIsBounded(bridge, k + 1, r.next.value, have + |r.rows|, page);
    }
  }

  /** The bridge serves a list: asked for an index, it gives up to `size` rows from there and the index that follows them. */
  ghost predicate ServesList(bridge: Bridge, list: seq<Row>, size: nat) {
    forall k: nat, i: nat :: i <= |list| ==> bridge(k, i) == ListPage(list, i, size)
  }

  function ListPage(list: seq<Row>, i: nat, size: nat): Response
    requires i <= |list|
  {
    if i + size < |list| then Page(list[i..i + size], Some(i + size)) else Page(list[i..], None)
  }

  /** From such a bridge the pull has all of a list within the limit, in order. */
  lemma {:induction false} ListIsPulled(bridge: Bridge, list: seq<Row>, size: nat, k: nat, i: nat)
    requires ServesList(bridge, list, size) && 0 < size && i <= |list| <= MAX_ROWS
    ensures Pulled(bridge, k, i, i) == Some(list[i..])
    decreases |list| - i
  {
    assert bridge(k, i) == ListPage(list, i, size);
    if i + size < |list| {
      ListIsPulled(bridge, list, size, k + 1, i + size);
      assert list[i..] == list[i..i + size] + list[i + size..];
    }
    hide ServesList;
  }

  datatype PullStatus = Success(written: nat) | Failed

  class Puller {
    var catalog: Catalog

    constructor ()
      ensures catalog == map[]
    {
      catalog := map[];
    }

    /** The paging loop; it ends against every bridge. */
    method PullRows(bridge: Bridge) returns (rows: Option<seq<Row>>)
      ensures rows == Pulled(bridge, 0, 0, 0)
    {
      hide Pulled;
      var all: seq<Row> := [];
      var cursor := 0;
      var k := 0;
      assert Prepend(all, Pulled(bridge, 0, 0, 0)) == Pulled(bridge, 0, 0, 0) by {
        assert forall rest: seq<Row> :: [] + rest == rest;
      }
      while true
        invariant |all| <= MAX_ROWS
        invariant Pulled(bridge, 0, 0, 0) == Prepend(all, Pulled(bridge, k, cursor, |all|))
        decreases MAX_ROWS - |all|
      {
        PulledUnrolls(bridge, k, cursor, all);
        var r := bridge(k, cursor);
        if r.Failure? { return None; }
        all := all + r.rows;
        if r.next.None? || r.rows == [] { return Some(all); }
        cursor := r.next.value;
        if |all| > MAX_ROWS { return Some(all); }
        k := k + 1;
      }
    }

    method ReplaceTenantCatalog(tenant: Id, rows: seq<Row>) returns (written: nat)
      modifies this
      ensures catalog == Replaced(old(catalog), tenant, rows) && written == CountUsable(rows)
    {
      if rows == [] {
        catalog := map k | k in catalog && k.0 != tenant :: catalog[k];
        return 0;
      }
      written := 0;
      catalog := map k | k in catalog && k.0 != tenant :: catalog[k];
      for i := 0 to |rows|
        invariant catalog == Replaced(old(catalog), tenant, rows[..i]) && written == CountUsable(rows[..i])
      {
        assert rows[..i + 1][..i] == rows[..i];
        if Usable(rows[i]) {
          catalog := catalog[(tenant, KeyOf(rows[i])) := DetailsOf(rows[i])];
          written := written + 1;
        }
      }
      assert rows[..|rows|] == rows;
    }

    /** A pull that fails part-way leaves the catalog alone. */
    method PullOneTenant(tenant: Id, bridge: Bridge) returns (status: PullStatus)
      modifies this
      ensures match Pulled(bridge, 0, 0, 0)
              case None => status == Failed && catalog == old(catalog)
              case Some(rows) => status == Success(CountUsable(rows)) && catalog == Replaced(old(catalog), tenant, rows)
    {
      var rows := PullRows(bridge);
      if rows.None? { return Failed; }
      var written := ReplaceTenantCatalog(tenant, rows.value);
      return Success(written);
    }
  }

  function Prepend(all: seq<Row>, rest: Option<seq<Row>>): Option<seq<Row>> {
    if rest.None? then None else Some(all + rest.value)
  }

  lemma PulledUnrolls(bridge: Bridge, k: nat, cursor: int, all: seq<Row>)
    requires |all| <= MAX_ROWS
    ensures var r := bridge(k, cursor);
            Prepend(all, Pulled(bridge, k, cursor, |all|)) ==
              if r.Failure? then None
              else if r.next.None? || r.rows == [] || |all| + |r.rows| > MAX_ROWS then Some(all + r.rows)
              else Prepend(all + r.rows, Pulled(bridge, k + 1, r.next.value, |all + r.rows|))
  {
    var r := bridge(k, cursor);
    if r.Page? && !(r.next.None? || r.rows == [] || |all| + |r.rows| > MAX_ROWS) {
      var rest := Pulled(bridge, k + 1, r.next.value, |all| + |r.rows|);
      if rest.Some? { assert all + (r.rows + rest.value) == all + r.rows + rest.value; }
    }
  }

}
