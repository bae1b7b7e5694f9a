/**
  The tenant match query, CTE by CTE, against a direct decision for one CVE.
  Grouped CTEs are maps from CVE to the aggregate; the others are sets of rows.
 */
module Matcher {
  import opened Common
  import opened Text
  import opened CveMerge

  datatype Severity = NONE | LOW | MEDIUM | HIGH | CRITICAL

  datatype Prefs = Prefs(minSeverity: Severity, kevRegardless: bool, tagOnly: bool)

  /** A row of tenant_inventory_catalog. */
  datatype Stock = Stock(vendor: string, product: string, version: string, cpe: Option<string>, hosts: Option<nat>)

  /** What the query reads, for one tenant; vendors and buckets go by their unique keys. */
  datatype View = View(
    prefs: Option<Prefs>, enrolled: set<string>, subscriptions: map<string, bool>, catalog: map<Id, Stock>,
    events: Events, bucketTags: set<(string, string)>, vendorTags: set<(string, string)>,
    links: set<(string, string)>) // (vendor, bucket)

  datatype MatchBy = ByCpe | ByProduct | ByTagOnly

  datatype Affected = Affected(vendor: string, product: string, version: string, hosts: Option<nat>)

  datatype Match = Match(
    cve: string, severity: Option<string>, kev: bool, buckets: set<string>, vendors: set<string>,
    products: set<Affected>, hits: nat, how: MatchBy)

  // ── The query ────────────────────────────────────────────────────────

  const DEFAULT_PREFS := Prefs(MEDIUM, true, false)

  function PrefsOf(v: View): Prefs { v.prefs.Or(Some(DEFAULT_PREFS)).value }

  function Allowed(v: View): set<string> { set s | s in v.subscriptions && v.subscriptions[s] }

  function Denied(v: View): set<string> { set s | s in v.subscriptions && !v.subscriptions[s] }

  function LinkedVendors(v: View): set<string> { set l | l in v.links && l.1 in v.enrolled :: l.0 }

  function GroupTags(tags: set<(string, string)>, c: string): set<string> { set t | t in tags && t.0 == c :: t.1 }

  function Tagged(tags: set<(string, string)>): map<string, set<string>> {
    map c | c in (set t | t in tags :: t.0) :: GroupTags(tags, c)
  }

  function TaggedBuckets(v: View): map<string, set<string>> {
    Tagged(set t | t in v.bucketTags && t.1 in v.enrolled)
  }

  function TaggedVendors(v: View): map<string, set<string>> {
    Tagged(set t | t in v.vendorTags &&
      (t.1 in Allowed(v) || (v.enrolled != {} && t.1 !in Denied(v) && t.1 in LinkedVendors(v))))
  }

  datatype Candidate = Candidate(cve: string, buckets: set<string>, vendors: set<string>)

  /** FULL OUTER JOIN ... USING (cve_id), with COALESCE(..., '{}'). */
  function Candidates(v: View): set<Candidate> {
    var tb, tv := TaggedBuckets(v), TaggedVendors(v);
    (set c | c in tb && c in tv :: Candidate(c, tb[c], tv[c]))
    + (set c | c in tb && c !in tv :: Candidate(c, tb[c], {}))
    + (set c | c in tv && c !in tb :: Candidate(c, {}, tv[c]))
  }

  function SeveritiesFrom(min: Severity): set<string> {
    match min
    case CRITICAL => {"CRITICAL"}
    case HIGH => {"CRITICAL", "HIGH"}
    case MEDIUM => {"CRITICAL", "HIGH", "MEDIUM"}
    case LOW => {"CRITICAL", "HIGH", "MEDIUM", "LOW"}
    case NONE => {"CRITICAL", "HIGH", "MEDIUM", "LOW", "NONE"}
  }

  predicate Filter(v: View, c: Cve) {
    (c.kevMember && PrefsOf(v).kevRegardless)
    || c.severity.Or(Some("NONE")).value in SeveritiesFrom(PrefsOf(v).minSeverity)
  }

  function Filtered(v: View): set<Candidate> {
    set cc | cc in Candidates(v) && cc.cve in v.events && Filter(v, v.events[cc.cve])
  }

  predicate CpeJoins(s: Stock, c: Cve) { s.cpe.Some? && s.cpe.value in c.cpes }

  predicate ProductJoins(s: Stock, c: Cve) { c.product.Some? && Lower(s.product) == Lower(c.product.value) }

  function ByCpeIds(v: View, c: Cve): set<Id> { set i | i in v.catalog && CpeJoins(v.catalog[i], c) }

  function ByProductIds(v: View, c: Cve): set<Id> { set i | i in v.catalog && ProductJoins(v.catalog[i], c) }

  function Products(v: View, ids: set<Id>): set<Affected>
    requires ids <= v.catalog.Keys
  {
    set i | i in ids :: Affected(v.catalog[i].vendor, v.catalog[i].product, v.catalog[i].version, v.catalog[i].hosts)
  }

  datatype Hit = Hit(cve: string, products: set<Affected>, count: nat, how: MatchBy)

  /** A grouped join gives a CVE a row only if it joins with something. */
  function CpeHits(v: View): set<Hit> {
    set f | f in Filtered(v) && f.cve in v.events && ByCpeIds(v, v.events[f.cve]) != {}
      :: Hit(f.cve, Products(v, ByCpeIds(v, v.events[f.cve])), |ByCpeIds(v, v.events[f.cve])|, ByCpe)
  }

  function ProductHits(v: View): set<Hit> {
    set f | f in Filtered(v) && f.cve in v.events
            && !(exists i :: i in v.catalog && CpeJoins(v.catalog[i], v.events[f.cve]))
            && ByProductIds(v, v.events[f.cve]) != {}
      :: Hit(f.cve, Products(v, ByProductIds(v, v.events[f.cve])), |ByProductIds(v, v.events[f.cve])|, ByProduct)
  }

  function InventoryHits(v: View): set<Hit> { CpeHits(v) + ProductHits(v) }

  function TagOnlyHits(v: View): set<Hit> {
    set f | f in Filtered(v) && PrefsOf(v).tagOnly && !(exists h :: h in InventoryHits(v) && h.cve == f.cve)
      :: Hit(f.cve, {}, 0, ByTagOnly)
  }

  function AllMatches(v: View): set<Hit> { InventoryHits(v) + TagOnlyHits(v) }

  function RowOf(v: View, h: Hit, f: Candidate): Match
    requires f.cve in v.events
  {
    Match(h.cve, v.events[f.cve].severity, v.events[f.cve].kevMember, f.buckets, f.vendors, h.products, h.count, h.how)
  }

  /** The rows that the query hands to the upsert. */
  function Emitted(v: View): set<Match> {
    set h, f | h in AllMatches(v) && f in Filtered(v) && f.cve in v.events && f.cve == h.cve :: RowOf(v, h, f)
  }

  // ── The direct decision ──────────────────────────────────────────────

  function BucketsOf(v: View, cve: string): set<string> { set b | b in v.enrolled && (cve, b) in v.bucketTags }

  /** Whether the tenant hears about a vendor: never when it opted out. */
  predicate Hears(v: View, vendor: string) {
    if vendor in v.subscriptions then v.subscriptions[vendor]
    else exists b :: b in v.enrolled && (vendor, b) in v.links
  }

  function VendorsOf(v: View, cve: string): set<string> {
    set t | t in v.vendorTags && t.0 == cve && Hears(v, t.1) :: t.1
  }

  function Decide(v: View, cve: string): Option<Match> {
    if cve !in v.events then None
    else
      var c, buckets, vendors := v.events[cve], BucketsOf(v, cve), VendorsOf(v, cve);
      if (buckets == {} && vendors == {}) || !Filter(v, c) then None
      else
        var found := if ByCpeIds(v, c) != {} then ByCpeIds(v, c) else ByProductIds(v, c);
        if found != {} then
          Some(Match(cve, c.severity, c.kevMember, buckets, vendors, Products(v, found), |found|,
                     if ByCpeIds(v, c) != {} then ByCpe else ByProduct))
        else if PrefsOf(v).tagOnly then
          Some(Match(cve, c.severity, c.kevMember, buckets, vendors, {}, 0, ByTagOnly))
        else None
  }

  // ── Refinement ───────────────────────────────────────────────────────

  lemma GroupsAreDirect(v: View, cve: string)
    ensures cve in TaggedBuckets(v) <==> BucketsOf(v, cve) != {}
    ensures cve in TaggedBuckets(v) ==> TaggedBuckets(v)[cve] == BucketsOf(v, cve)
  {
    var tags := set t | t in v.bucketTags && t.1 in v.enrolled;
    assert GroupTags(tags, cve) == BucketsOf(v, cve);
    assert forall b :: b in BucketsOf(v, cve) ==> (cve, b) in tags;
    assert forall t :: t in tags && t.0 == cve ==> t.1 in BucketsOf(v, cve);
  }

  /** The query's vendor condition is Hears. */
  lemma HearsMeansListed(v: View, vendor: string)
    ensures Hears(v, vendor) <==>
            vendor in Allowed(v) || (v.enrolled != {} && vendor !in Denied(v) && vendor in LinkedVendors(v))
  {
    if vendor !in v.subscriptions && Hears(v, vendor) {
      var b :| b in v.enrolled && (vendor, b) in v.links;
      assert (vendor, b).1 in v.enrolled;
    }
    if vendor in LinkedVendors(v) {
      var l :| l in v.links && l.1 in v.enrolled && l.0 == vendor;
      assert l == (vendor, l.1);
    }
  }

  lemma VendorGroupsAreDirect(v: View, cve: string)
    ensures cve in TaggedVendors(v) <==> VendorsOf(v, cve) != {}
    ensures cve in TaggedVendors(v) ==> TaggedVendors(v)[cve] == VendorsOf(v, cve)
  {
    hide Allowed, Denied, LinkedVendors, Hears;
    var tags := set t | t in v.vendorTags &&
      (t.1 in Allowed(v) || (v.enrolled != {} && t.1 !in Denied(v) && t.1 in LinkedVendors(v)));
    forall t | t in v.vendorTags ensures t in tags <==> Hears(v, t.1) {
      HearsMeansListed(v, t.1);
    }
    assert GroupTags(tags, cve) == VendorsOf(v, cve);
    assert forall t :: t in tags && t.0 == cve ==> t.1 in VendorsOf(v, cve);
  }

  /** The outer join gives a CVE one candidate, with its own tags, if it has any. */
  lemma CandidatesAreDirect(v: View, cc: Candidate)
    ensures cc in Candidates(v) <==>
            cc == Candidate(cc.cve, BucketsOf(v, cc.cve), VendorsOf(v, cc.cve)) && (cc.buckets != {} || cc.vendors != {})
  {
    GroupsAreDirect(v, cc.cve);
    VendorGroupsAreDirect(v, cc.cve);
    hide BucketsOf, VendorsOf, TaggedBuckets, TaggedVendors;
  }

  function CandidateOf(v: View, cve: string): Candidate { Candidate(cve, BucketsOf(v, cve), VendorsOf(v, cve)) }

  predicate Passes(v: View, cve: string) {
    && cve in v.events && Filter(v, v.events[cve])
    && (BucketsOf(v, cve) != {} || VendorsOf(v, cve) != {})
  }

  lemma FilteredIsDirect(v: View, cc: Candidate)
    ensures cc in Filtered(v) <==> cc == CandidateOf(v, cc.cve) && Passes(v, cc.cve)
  {
    hide Candidates, BucketsOf, VendorsOf, Filter;
    CandidatesAreDirect(v, cc);
  }

  lemma InventoryHitsAreDirect(v: View, h: Hit)
    ensures h in InventoryHits(v) <==>
            && Passes(v, h.cve)
            && var c := v.events[h.cve];
               if ByCpeIds(v, c) != {} then h == Hit(h.cve, Products(v, ByCpeIds(v, c)), |ByCpeIds(v, c)|, ByCpe)
               else ByProductIds(v, c) != {}
                    && h == Hit(h.cve, Products(v, ByProductIds(v, c)), |ByProductIds(v, c)|, ByProduct)
  {
    var f := CandidateOf(v, h.cve);
    forall g | g in Filtered(v) && g.cve == h.cve ensures g == f && Passes(v, h.cve) {
      FilteredIsDirect(v, g);
    }
    FilteredIsDirect(v, f);
    hide Filtered, Passes, CandidateOf, Products, ProductJoins;
    if h.cve in v.events {
      assert (exists i :: i in v.catalog && CpeJoins(v.catalog[i], v.events[h.cve])) <==> ByCpeIds(v, v.events[h.cve]) != {};
    }
  }

  lemma TagOnlyHitsAreDirect(v: View, h: Hit)
    ensures h in TagOnlyHits(v) <==>
            && Passes(v, h.cve) && PrefsOf(v).tagOnly && h == Hit(h.cve, {}, 0, ByTagOnly)
            && ByCpeIds(v, v.events[h.cve]) == {} && ByProductIds(v, v.events[h.cve]) == {}
  {
    var f := CandidateOf(v, h.cve);
    forall g | g in Filtered(v) && g.cve == h.cve ensures g == f && Passes(v, h.cve) {
      FilteredIsDirect(v, g);
    }
    FilteredIsDirect(v, f);
    if Passes(v, h.cve) {
      var c := v.events[h.cve];
      var found := if ByCpeIds(v, c) != {} then ByCpeIds(v, c) else ByProductIds(v, c);
      var g := Hit(h.cve, Products(v, found), |found|, if ByCpeIds(v, c) != {} then ByCpe else ByProduct);
      InventoryHitsAreDirect(v, g);
      forall k | k in InventoryHits(v) && k.cve == h.cve ensures found != {} {
        InventoryHitsAreDirect(v, k);
      }
      hide InventoryHits, Filtered, Products;
    } else {
      hide InventoryHits, Filtered;
    }
  }

  /** The query emits a row exactly when the direct decision makes that row. */
  lemma QueryDecides(v: View, m: Match)
    ensures m in Emitted(v) <==> Decide(v, m.cve) == Some(m)
  {
    var f := CandidateOf(v, m.cve);
    var h := Hit(m.cve, m.products, m.hits, m.how);
    FilteredIsDirect(v, f);
    InventoryHitsAreDirect(v, h);
    TagOnlyHitsAreDirect(v, h);
    hide InventoryHits, TagOnlyHits, Products, BucketsOf, VendorsOf, Filter, ByCpeIds, ByProductIds, PrefsOf;
    if m in Emitted(v) {
      var k, g :| k in AllMatches(v) && g in Filtered(v) && g.cve in v.events && g.cve == k.cve && m == RowOf(v, k, g);
      FilteredIsDirect(v, g);
      assert k == h && g == f;
    }
    hide Filtered;
    if Decide(v, m.cve) == Some(m) {
      assert h in AllMatches(v) && f in Filtered(v) && m == RowOf(v, h, f);
    }
  }

  // ── What follows ─────────────────────────────────────────────────────

  /** At most one row per CVE, so the upsert never meets the same row twice. */
  lemma OneRowPerCve(v: View, m: Match, n: Match)
    requires m in Emitted(v) && n in Emitted(v) && m.cve == n.cve
    ensures m == n
  {
    QueryDecides(v, m);
    QueryDecides(v, n);
  }

  /** Hits are counted as zero exactly for rows that only a tag brought in, and those list no products. */
  lemma NoHitsMeansTagOnly(v: View, m: Match)
    requires m in Emitted(v)
    ensures m.hits == 0 <==> m.how == ByTagOnly
    ensures m.products == {} <==> m.how == ByTagOnly
  {
    QueryDecides(v, m);
    hide Emitted, BucketsOf, VendorsOf, Filter, CpeJoins, ProductJoins;
    var c := v.events[m.cve];
    var found := if ByCpeIds(v, c) != {} then ByCpeIds(v, c) else ByProductIds(v, c);
    if found != {} {
      var i :| i in found;
      assert Affected(v.catalog[i].vendor, v.catalog[i].product, v.catalog[i].version, v.catalog[i].hosts) in Products(v, found);
      assert found - {i} + {i} == found;
    }
  }

  /** Each matched vendor is one the tenant allowed, or has by a bucket; never one it opted out of. */
  lemma NoDeniedVendor(v: View, m: Match, vendor: string)
    requires m in Emitted(v) && vendor in m.vendors
    ensures (m.cve, vendor) in v.vendorTags
    ensures vendor in v.subscriptions ==> v.subscriptions[vendor]
    ensures vendor !in v.subscriptions ==> exists b :: b in v.enrolled && (vendor, b) in v.links
  {
    QueryDecides(v, m);
    hide Emitted, BucketsOf, Filter, ByCpeIds, ByProductIds, Products;
    assert vendor in VendorsOf(v, m.cve);
    var t :| t in v.vendorTags && t.0 == m.cve && Hears(v, t.1) && t.1 == vendor;
    assert t == (m.cve, vendor);
  }

  function OptOut(v: View, denied: set<string>): View {
    v.(subscriptions := v.subscriptions + map d | d in denied :: false)
  }

  /** Some emitted row is for the CVE. */
  ghost predicate Matched(v: View, cve: string) {
    exists m :: m in Emitted(v) && m.cve == cve
  }

  /**
    Opting out of vendors hides a matched CVE exactly when no enrolled bucket brings it in and
    no vendor is left that does. Otherwise its row stays as it was, minus those vendors.
   */
  lemma OptOutHidesIff(v: View, m: Match, denied: set<string>)
    requires m in Emitted(v)
    ensures !Matched(OptOut(v, denied), m.cve) <==> m.buckets == {} && m.vendors <= denied
    ensures Matched(OptOut(v, denied), m.cve) ==> m.(vendors := m.vendors - denied) in Emitted(OptOut(v, denied))
  {
    hide *;
    QueryDecides(v, m);
    MatchedIfDecided(OptOut(v, denied), m.cve);
    OptOutIsSubscribing(v, denied);
    DecidesByTags(v, OptOut(v, denied), m.cve);
    VendorsAfterOptOut(v, denied, m.cve);
    assert forall d :: d in m.vendors ==> d in denied || d in m.vendors - denied;
  }

  lemma MatchedIfDecided(v: View, cve: string)
    ensures Matched(v, cve) <==> Decide(v, cve).Some?
    ensures Matched(v, cve) ==> Decide(v, cve).value in Emitted(v)
  {
    hide Emitted;
    if m :| m in Emitted(v) && m.cve == cve { QueryDecides(v, m); }
    if Decide(v, cve).Some? { QueryDecides(v, Decide(v, cve).value); }
  }

  lemma OptOutIsSubscribing(v: View, denied: set<string>)
    ensures OptOut(v, denied) == v.(subscriptions := OptOut(v, denied).subscriptions)
  {
  }

  /** Between views that differ in subscriptions alone, a decision differs in the vendors alone. */
  lemma DecidesByTags(v: View, v': View, cve: string)
    requires v' == v.(subscriptions := v'.subscriptions) && Decide(v, cve).Some?
    ensures Decide(v', cve) ==
            if BucketsOf(v, cve) == {} && VendorsOf(v', cve) == {} then None
            else Some(Decide(v, cve).value.(vendors := VendorsOf(v', cve)))
    ensures Decide(v, cve).value.buckets == BucketsOf(v, cve) && Decide(v, cve).value.vendors == VendorsOf(v, cve)
    ensures Decide(v, cve).value.cve == cve
  {
    hide VendorsOf, CpeJoins, ProductJoins, Hears;
    var c := v.events[cve];
    assert ByCpeIds(v', c) == ByCpeIds(v, c) && ByProductIds(v', c) == ByProductIds(v, c);
    assert BucketsOf(v', cve) == BucketsOf(v, cve);
    FilterNeedsPrefsOnly(v, v', c);
  }

  /** A CVE tagged with an enrolled bucket and with a vendor that the tenant then opts out of. */
  lemma OptOutIsPassedOver()
    ensures exists v: View, m, d :: m in Emitted(v) && (m.cve, d) in v.vendorTags && d in m.vendors
                                    && Matched(OptOut(v, {d}), m.cve)
  {
    var c := Cve(None, Some("HIGH"), None, None, None, None, None, [], None,
                 true, None, None, None, None, {}, None, None);
    var v := View(Some(Prefs(MEDIUM, true, true)), {"rhel"}, map[], map[], map["CVE-1" := c],
                  {("CVE-1", "rhel")}, {("CVE-1", "redhat")}, {("redhat", "rhel")});
    var m := Match("CVE-1", Some("HIGH"), true, {"rhel"}, {"redhat"}, {}, 0, ByTagOnly);
    assert BucketsOf(v, "CVE-1") == {"rhel"} by { assert "rhel" in BucketsOf(v, "CVE-1"); }
    assert VendorsOf(v, "CVE-1") == {"redhat"} by {
      assert ("redhat", "rhel") in v.links && Hears(v, "redhat");
      assert ("CVE-1", "redhat").1 in VendorsOf(v, "CVE-1");
    }
    assert ByCpeIds(v, c) == {} && ByProductIds(v, c) == {};
    assert Decide(v, "CVE-1") == Some(m);
    QueryDecides(v, m);
    OptOutHidesIff(v, m, {"redhat"});
    hide Emitted, Matched;
    assert m in Emitted(v) && ("CVE-1", "redhat") in v.vendorTags && "redhat" in m.vendors;
  }

  lemma FilterNeedsPrefsOnly(v: View, v': View, c: Cve)
    requires v.prefs == v'.prefs
    ensures Filter(v, c) == Filter(v', c)
  {
  }

  lemma VendorsAfterOptOut(v: View, denied: set<string>, cve: string)
    ensures VendorsOf(OptOut(v, denied), cve) == VendorsOf(v, cve) - denied
  {
  }

  /** The catalogs list the same rows up to the vendor names. */
  ghost predicate SameButVendors(a: map<Id, Stock>, b: map<Id, Stock>) {
    a.Keys == b.Keys && forall i :: i in a ==> a[i].(vendor := "") == b[i].(vendor := "")
  }

  /** The inventory join never looks at the vendor: renaming vendors changes no match but its list of products. */
  lemma VendorNamesDoNotMatter(v: View, catalog: map<Id, Stock>, m: Match)
    requires SameButVendors(v.catalog, catalog) && m in Emitted(v)
    ensures exists m' :: m' in Emitted(v.(catalog := catalog)) && m' == m.(products := m'.products)
  {
    var v' := v.(catalog := catalog);
    QueryDecides(v, m);
    var c := v.events[m.cve];
    assert forall i :: i in catalog ==>
      v.catalog[i].(vendor := "").cpe == catalog[i].cpe && v.catalog[i].(vendor := "").product == catalog[i].product;
    hide Emitted, Filter, Hears;
    assert ByCpeIds(v', c) == ByCpeIds(v, c) && ByProductIds(v', c) == ByProductIds(v, c);
    hide ByCpeIds, ByProductIds;
    assert BucketsOf(v', m.cve) == BucketsOf(v, m.cve);
    VendorsNeedNoCatalog(v, catalog, m.cve);
    FilterNeedsPrefsOnly(v, v', c);
    hide VendorsOf, BucketsOf;
    var m' := Decide(v', m.cve).value;
    QueryDecides(v', m');
  }

  lemma VendorsNeedNoCatalog(v: View, catalog: map<Id, Stock>, cve: string)
    ensures VendorsOf(v.(catalog := catalog), cve) == VendorsOf(v, cve)
  {
  }

  // ── The documented fallback ──────────────────────────────────────────

  /** The fallback as the module's header has it: vendor and product. */
  predicate VendorProductJoins(s: Stock, c: Cve) {
    ProductJoins(s, c) && c.vendor.Some? && Lower(s.vendor) == Lower(c.vendor.value)
  }

  function ByVendorProductIds(v: View, c: Cve): set<Id> {
    set i | i in v.catalog && VendorProductJoins(v.catalog[i], c)
  }

  /** The decision with the documented fallback instead of the query's. */
  function DecideAsDocumented(v: View, cve: string): Option<Match> {
    if !Passes(v, cve) then None
    else
      var c := v.events[cve];
      var found := if ByCpeIds(v, c) != {} then ByCpeIds(v, c) else ByVendorProductIds(v, c);
      if found == {} && !PrefsOf(v).tagOnly then None
      else
        Some(Match(cve, c.severity, c.kevMember, BucketsOf(v, cve), VendorsOf(v, cve), Products(v, found), |found|,
                   if found == {} then ByTagOnly else if ByCpeIds(v, c) != {} then ByCpe else ByProduct))
  }

  /** A stock row whose product has the CVE's product name, but which is another vendor's. */
  predicate Impostor(v: View, c: Cve, i: Id) {
    i in v.catalog && ProductJoins(v.catalog[i], c) && !VendorProductJoins(v.catalog[i], c)
  }

  /**
    For a CVE that passes the filters, the code decides as documented exactly when a CPE
    matches or the inventory holds no product of that name from another vendor.
   */
  lemma FallbackAsDocumentedIff(v: View, cve: string)
    ensures Decide(v, cve) == DecideAsDocumented(v, cve) <==>
            (Passes(v, cve) && ByCpeIds(v, v.events[cve]) == {} ==> forall i :: !Impostor(v, v.events[cve], i))
  {
    assert Products(v, {}) == {};
    if cve in v.events { ImpostorsCount(v, v.events[cve]); }
    hide BucketsOf, VendorsOf, Filter, ByCpeIds, ByProductIds, ByVendorProductIds, Impostor, Products;
  }

  lemma ImpostorsCount(v: View, c: Cve)
    ensures (forall i :: !Impostor(v, c, i)) ==> ByVendorProductIds(v, c) == ByProductIds(v, c)
    ensures (exists i :: Impostor(v, c, i)) ==> |ByVendorProductIds(v, c)| < |ByProductIds(v, c)|
  {
    var loose, strict := ByProductIds(v, c), ByVendorProductIds(v, c);
    hide ProductJoins;
    assert strict <= loose;
    if i :| Impostor(v, c, i) {
      assert i in loose && i !in strict;
      FewerIds(strict, loose, i);
    } else {
      forall i | i in loose ensures i in strict {
        assert !Impostor(v, c, i);
      }
    }
  }

  /** Acme's stock of a product named like Contoso's affected one is matched. */
  lemma FallbackMatchesAnotherVendor()
    ensures exists v: View, cve :: Decide(v, cve).Some? && DecideAsDocumented(v, cve).None?
  {
    var c := Cve(None, Some("HIGH"), None, None, None, Some("contoso"), Some("agent"), [], None,
                 false, None, None, None, None, {}, None, None);
    var v := View(None, {"rhel"}, map[], map[0 := Stock("acme", "agent", "1.0", None, None)], map["CVE-1" := c],
                  {("CVE-1", "rhel")}, {}, {});
    assert "rhel" in BucketsOf(v, "CVE-1");
    assert 0 in ByProductIds(v, c) && ByCpeIds(v, c) == {};
    assert Lower("acme")[0] != Lower("contoso")[0];
    assert ByVendorProductIds(v, c) == {};
    assert Decide(v, "CVE-1").Some? && DecideAsDocumented(v, "CVE-1").None?;
  }

  lemma FewerIds(a: set<Id>, b: set<Id>, i: Id)
    requires a <= b - {i} && i in b
    ensures |a| < |b|
  {
    var rest := b - {i};
    assert rest == a + (rest - a);
  }

  // ── The severity filter, twice ───────────────────────────────────────

  /** The five names that _SEVERITY_RANK knows. */
  function Named(s: string): Option<Severity> {
    if s == "NONE" then Some(NONE)
    else if s == "LOW" then Some(LOW)
    else if s == "MEDIUM" then Some(MEDIUM)
    else if s == "HIGH" then Some(HIGH)
    else if s == "CRITICAL" then Some(CRITICAL)
    else None
  }

  function Rank(s: Severity): nat {
    match s case NONE => 0 case LOW => 1 case MEDIUM => 2 case HIGH => 3 case CRITICAL => 4
  }

  /** _passes_severity: upper-cased, with unknown names ranked as NONE. */
  predicate PassesSeverity(severity: Option<string>, threshold: Severity) {
    var name := if severity.None? || severity.value == "" then "NONE" else Upper(severity.value);
    (if Named(name).Some? then Rank(Named(name).value) else 0) >= Rank(threshold)
  }

  predicate SqlPassesSeverity(severity: Option<string>, threshold: Severity) {
    severity.Or(Some("NONE")).value in SeveritiesFrom(threshold)
  }

  lemma UpperOfNames()
    ensures Upper("NONE") == "NONE" && Upper("LOW") == "LOW" && Upper("MEDIUM") == "MEDIUM"
    ensures Upper("HIGH") == "HIGH" && Upper("CRITICAL") == "CRITICAL"
  {
  }

  /**
    The Python helper, which the source defines and never calls, agrees with the query exactly
    on severities that are absent or one of the five names as spelled, on those names in another
    case when they rank below the threshold, and on any other text when the threshold is not NONE.
   */
  lemma SeverityFiltersAgree(severity: Option<string>, threshold: Severity)
    ensures PassesSeverity(severity, threshold) == SqlPassesSeverity(severity, threshold) <==>
            || severity.None?
            || Named(severity.value).Some?
            || (match Named(Upper(severity.value))
                case Some(name) => Rank(name) < Rank(threshold)
                case None => threshold != NONE)
  {
    UpperOfNames();
    if severity.Some? && severity.value == "" { assert Upper(severity.value) == ""; }
    hide Upper;
  }

  // ── Who is told of what ──────────────────────────────────────────────
  // In terms of the tables alone: nothing here is shared with the query or the decision.

  ghost predicate BucketConcerns(v: View, cve: string, b: string) {
    b in v.enrolled && (cve, b) in v.bucketTags
  }

  ghost predicate VendorConcerns(v: View, cve: string, s: string) {
    (cve, s) in v.vendorTags
    && ((s in v.subscriptions && v.subscriptions[s])
        || (s !in v.subscriptions && exists b :: b in v.enrolled && (s, b) in v.links))
  }

  /** KEV and the tenant wants KEV whatever its severity, or of a severity that it wants. */
  ghost predicate SevereEnough(v: View, c: Cve) {
    || (c.kevMember && (v.prefs.None? || v.prefs.value.kevRegardless))
    || (exists s: Severity ::
          && Named(if c.severity.Some? then c.severity.value else "NONE") == Some(s)
          && Rank(s) >= Rank(if v.prefs.None? then MEDIUM else v.prefs.value.minSeverity))
  }

  ghost predicate HasCpe(v: View, c: Cve, i: Id) {
    i in v.catalog && v.catalog[i].cpe.Some? && v.catalog[i].cpe.value in c.cpes
  }

  ghost predicate HasProduct(v: View, c: Cve, i: Id) {
    i in v.catalog && c.product.Some? && Lower(v.catalog[i].product) == Lower(c.product.value)
  }

  lemma NamedFrom(name: string, min: Severity)
    ensures name in SeveritiesFrom(min) <==> Named(name).Some? && Rank(Named(name).value) >= Rank(min)
  {
  }

  lemma FilterIsSevereEnough(v: View, c: Cve)
    ensures Filter(v, c) <==> SevereEnough(v, c)
  {
    var name := if c.severity.Some? then c.severity.value else "NONE";
    NamedFrom(name, PrefsOf(v).minSeverity);
    hide Named, SeveritiesFrom;
    if Named(name).Some? && Rank(Named(name).value) >= Rank(PrefsOf(v).minSeverity) { assert Named(name) == Some(Named(name).value); }
  }

  lemma TagsConcern(v: View, cve: string)
    ensures forall b :: b in BucketsOf(v, cve) <==> BucketConcerns(v, cve, b)
    ensures forall s :: s in VendorsOf(v, cve) <==> VendorConcerns(v, cve, s)
  {
    forall s | VendorConcerns(v, cve, s) ensures s in VendorsOf(v, cve) {
      assert (cve, s) in v.vendorTags && Hears(v, (cve, s).1);
    }
    forall s | s in VendorsOf(v, cve) ensures VendorConcerns(v, cve, s) {
      var t :| t in v.vendorTags && t.0 == cve && Hears(v, t.1) && t.1 == s;
      assert t == (cve, s);
    }
  }

  lemma JoinsAre(v: View, c: Cve)
    ensures forall i :: i in ByCpeIds(v, c) <==> HasCpe(v, c, i)
    ensures forall i :: i in ByProductIds(v, c) <==> HasProduct(v, c, i)
  {
  }

  /**
    The query emits a row for a CVE exactly when the CVE is known, concerns the tenant by a bucket
    or a vendor, is severe enough, and is in the inventory or the tenant takes tag-only matches.
   */
  lemma MatchedIff(v: View, cve: string)
    ensures Matched(v, cve) <==>
            && cve in v.events
            && ((exists b :: BucketConcerns(v, cve, b)) || (exists s :: VendorConcerns(v, cve, s)))
            && SevereEnough(v, v.events[cve])
            && ((exists i :: HasCpe(v, v.events[cve], i)) || (exists i :: HasProduct(v, v.events[cve], i))
                || (v.prefs.Some? && v.prefs.value.tagOnly))
  {
    MatchedIfDecided(v, cve);
    hide Matched, Emitted, BucketConcerns, VendorConcerns, SevereEnough, HasCpe, HasProduct, BucketsOf, VendorsOf, Filter;
    if cve in v.events {
      var c := v.events[cve];
      FilterIsSevereEnough(v, c);
      TagsConcern(v, cve);
      JoinsAre(v, c);
      hide ByCpeIds, ByProductIds;
      assert (exists b :: BucketConcerns(v, cve, b)) <==> BucketsOf(v, cve) != {};
      assert (exists s :: VendorConcerns(v, cve, s)) <==> VendorsOf(v, cve) != {};
      assert (exists i :: HasCpe(v, c, i)) <==> ByCpeIds(v, c) != {};
      assert (exists i :: HasProduct(v, c, i)) <==> ByProductIds(v, c) != {};
    }
  }

  /** The stock that a row's hits count. */
  ghost predicate Counted(v: View, m: Match, i: Id)
    requires m.cve in v.events
  {
    match m.how
    case ByCpe => HasCpe(v, v.events[m.cve], i)
    case ByProduct => HasProduct(v, v.events[m.cve], i)
    case ByTagOnly => false
  }

  /** What an emitted row holds: the CVE's severity and KEV flag, its tags, and the stock that it was found in. */
  lemma RowHolds(v: View, m: Match) returns (ids: set<Id>)
    requires m in Emitted(v)
    ensures m.cve in v.events && m.severity == v.events[m.cve].severity && m.kev == v.events[m.cve].kevMember
    ensures forall b :: b in m.buckets <==> BucketConcerns(v, m.cve, b)
    ensures forall s :: s in m.vendors <==> VendorConcerns(v, m.cve, s)
    ensures m.how == ByCpe <==> exists i :: HasCpe(v, v.events[m.cve], i)
    ensures m.how == ByProduct ==> exists i :: HasProduct(v, v.events[m.cve], i)
    ensures m.how == ByTagOnly ==> !(exists i :: HasProduct(v, v.events[m.cve], i))
    ensures (forall i :: i in ids <==> Counted(v, m, i)) && ids <= v.catalog.Keys && m.hits == |ids|
    ensures m.products == set i | i in ids ::
              Affected(v.catalog[i].vendor, v.catalog[i].product, v.catalog[i].version, v.catalog[i].hosts)
  {
    QueryDecides(v, m);
    hide Emitted, BucketConcerns, VendorConcerns, HasCpe, HasProduct, BucketsOf, VendorsOf, Filter;
    var c := v.events[m.cve];
    TagsConcern(v, m.cve);
    JoinsAre(v, c);
    hide ByCpeIds, ByProductIds;
    ids := if ByCpeIds(v, c) != {} then ByCpeIds(v, c) else ByProductIds(v, c);
    assert (exists i :: HasCpe(v, c, i)) <==> ByCpeIds(v, c) != {};
    assert (exists i :: HasProduct(v, c, i)) <==> ByProductIds(v, c) != {};
    assert forall i :: i in ids ==> HasCpe(v, c, i) || HasProduct(v, c, i);
  }

}
