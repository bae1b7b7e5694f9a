/** The automatic tagger: three insert passes that never overwrite, and the operator's overrides. */
module Classifier {
  import opened Common
  import opened Text
  import opened CveMerge

  // Vendors and buckets are identified by their unique keys.

  datatype Vendor = Vendor(aliases: set<string>, cpeKeys: set<string>, active: bool)

  datatype Taxonomy = Taxonomy(
    vendors: map<string, Vendor>, activeBuckets: set<string>, links: set<(string, string)>) // (vendor, bucket)

  datatype Origin = VendorAlias | CpeVendor | ViaVendor | Operator

  datatype Tag = Tag(confidence: nat, origin: Origin)

  /** cve_vendor_tags or cve_bucket_tags: (CVE, vendor or bucket) to tag. */
  type TagTable = map<(string, string), Tag>

  datatype Tags = Tags(vendors: TagTable, buckets: TagTable)

  const ALIAS_TAG := Tag(90, VendorAlias)
  const CPE_TAG := Tag(80, CpeVendor)
  const BUCKET_TAG := Tag(75, ViaVendor)
  const OPERATOR_TAG := Tag(100, Operator)

  /** SQL's split_part(cpe, ':', 4). */
  function CpeVendorPart(cpe: string): string {
    var parts := Split(cpe, ':');
    if |parts| >= 4 then parts[3] else ""
  }

  predicate AliasHit(tax: Taxonomy, c: Cve, vendor: string) {
    && vendor in tax.vendors && tax.vendors[vendor].active
    && c.vendor.Some?
    && exists a :: a in tax.vendors[vendor].aliases && Lower(a) == Lower(c.vendor.value)
  }

  predicate CpeHit(tax: Taxonomy, c: Cve, vendor: string) {
    && vendor in tax.vendors && tax.vendors[vendor].active
    && exists cpe :: cpe in c.cpes && CpeVendorPart(cpe) in tax.vendors[vendor].cpeKeys
                     && CpeVendorPart(cpe) != "" && CpeVendorPart(cpe) != "*"
  }

  /** INSERT ... ON CONFLICT DO NOTHING. */
  function InsertNew<K>(tags: map<K, Tag>, keys: set<K>, tag: Tag): (r: map<K, Tag>)
    ensures r.Keys == tags.Keys + keys
  {
    map k | k in tags.Keys + keys :: if k in tags then tags[k] else tag
  }

  // The SELECTs of the three passes; `scope` is the set of CVEs modified since the cut-off.

  function AliasRows(tax: Taxonomy, events: Events, scope: set<string>): set<(string, string)> {
    set c, v | c in events && c in scope && v in tax.vendors && AliasHit(tax, events[c], v) :: (c, v)
  }

  function CpeRows(tax: Taxonomy, events: Events, scope: set<string>): set<(string, string)> {
    set c, v | c in events && c in scope && v in tax.vendors && CpeHit(tax, events[c], v) :: (c, v)
  }

  function BucketRows(tax: Taxonomy, events: Events, scope: set<string>, vendorTags: TagTable): set<(string, string)> {
    set k, l | k in vendorTags && k.0 in events && k.0 in scope && l in tax.links && l.0 == k.1 && l.1 in tax.activeBuckets
      :: (k.0, l.1)
  }

  function Classify(tax: Taxonomy, events: Events, scope: set<string>, tags: Tags): Tags {
    var afterAlias := InsertNew(tags.vendors, AliasRows(tax, events, scope), ALIAS_TAG);
    var afterCpe := InsertNew(afterAlias, CpeRows(tax, events, scope), CPE_TAG);
    Tags(afterCpe, InsertNew(tags.buckets, BucketRows(tax, events, scope, afterCpe), BUCKET_TAG))
  }

  // ── What a run leaves ────────────────────────────────────────────────

  /** A CVE's vendor tag after a run, told apart from how the passes get there. */
  function VendorTag(tax: Taxonomy, events: Events, scope: set<string>, was: Option<Tag>, c: string, v: string): Option<Tag> {
    if was.Some? then was
    else if c !in events || c !in scope then None
    else if AliasHit(tax, events[c], v) then Some(ALIAS_TAG)
    else if CpeHit(tax, events[c], v) then Some(CPE_TAG)
    else None
  }

  function Get(tags: TagTable, c: string, k: string): Option<Tag> {
    if (c, k) in tags then Some(tags[(c, k)]) else None
  }

  ghost predicate Derives(tax: Taxonomy, vendorTags: TagTable, c: string, b: string) {
    b in tax.activeBuckets && exists v :: (c, v) in vendorTags && (v, b) in tax.links
  }

  function BucketTagAfter(events: Events, scope: set<string>, was: Option<Tag>, c: string, derives: bool): Option<Tag> {
    if was.Some? then was else if c in events && c in scope && derives then Some(BUCKET_TAG) else None
  }

  lemma VendorTagByPasses(tax: Taxonomy, events: Events, scope: set<string>, tags: TagTable, c: string, v: string)
    ensures var afterAlias := InsertNew(tags, AliasRows(tax, events, scope), ALIAS_TAG);
            Get(InsertNew(afterAlias, CpeRows(tax, events, scope), CPE_TAG), c, v)
            == VendorTag(tax, events, scope, Get(tags, c, v), c, v)
  {
    hide AliasHit, CpeHit, AliasRows, CpeRows;
    VendorKeysAreKnown(tax, events, scope);
  }

  lemma BucketRowsDerive(tax: Taxonomy, events: Events, scope: set<string>, vendorTags: TagTable, c: string, b: string)
    ensures (c, b) in BucketRows(tax, events, scope, vendorTags) <==>
            c in events && c in scope && Derives(tax, vendorTags, c, b)
  {
    if c in events && c in scope && Derives(tax, vendorTags, c, b) {
      var v :| (c, v) in vendorTags && (v, b) in tax.links;
      var k, l := (c, v), (v, b);
      assert k in vendorTags && l in tax.links && l.0 == k.1;
    }
  }

  /** Every tag after a run, one by one: alias beats CPE, and nothing that was there changes. */
  lemma ClassifyByTag(tax: Taxonomy, events: Events, scope: set<string>, tags: Tags, c: string, v: string, b: string)
    ensures var after := Classify(tax, events, scope, tags);
            && Get(after.vendors, c, v) == VendorTag(tax, events, scope, Get(tags.vendors, c, v), c, v)
            && Get(after.buckets, c, b) ==
               BucketTagAfter(events, scope, Get(tags.buckets, c, b), c, Derives(tax, after.vendors, c, b))
  {
    VendorTagByPasses(tax, events, scope, tags.vendors, c, v);
    hide AliasRows, CpeRows, BucketRows, VendorTag, Derives;
    BucketRowsDerive(tax, events, scope, Classify(tax, events, scope, tags).vendors, c, b);
  }

  lemma VendorKeysAreKnown(tax: Taxonomy, events: Events, scope: set<string>)
    ensures forall c, v :: (c, v) in AliasRows(tax, events, scope) <==> c in events && c in scope && AliasHit(tax, events[c], v)
    ensures forall c, v :: (c, v) in CpeRows(tax, events, scope) <==> c in events && c in scope && CpeHit(tax, events[c], v)
  {
  }

  /** The passes in the words of the tables: what a run adds, and only that. */
  ghost predicate AliasNames(tax: Taxonomy, events: Events, c: string, v: string) {
    && c in events && v in tax.vendors && tax.vendors[v].active && events[c].vendor.Some?
    && exists a :: a in tax.vendors[v].aliases && Lower(a) == Lower(events[c].vendor.value)
  }

  ghost predicate CpeNames(tax: Taxonomy, events: Events, c: string, v: string) {
    && c in events && v in tax.vendors && tax.vendors[v].active
    && exists cpe :: cpe in events[c].cpes && CpeNamesKey(tax.vendors[v], cpe)
  }

  ghost predicate CpeNamesKey(v: Vendor, cpe: string) {
    var fields := Split(cpe, ':');
    |fields| > 3 && fields[3] in v.cpeKeys && fields[3] != "" && fields[3] != "*"
  }

  lemma HitsAreNames(tax: Taxonomy, events: Events, c: string, v: string)
    requires c in events
    ensures AliasHit(tax, events[c], v) <==> AliasNames(tax, events, c, v)
    ensures CpeHit(tax, events[c], v) <==> CpeNames(tax, events, c, v)
  {
    hide Split;
    if CpeHit(tax, events[c], v) {
      var cpe :| cpe in events[c].cpes && CpeVendorPart(cpe) in tax.vendors[v].cpeKeys && CpeVendorPart(cpe) != "" && CpeVendorPart(cpe) != "*";
      assert CpeNamesKey(tax.vendors[v], cpe);
    }
    if CpeNames(tax, events, c, v) {
      var cpe :| cpe in events[c].cpes && CpeNamesKey(tax.vendors[v], cpe);
      assert CpeVendorPart(cpe) == Split(cpe, ':')[3];
    }
  }

  /**
    A run adds a vendor tag exactly for a CVE in scope whose vendor is an active vendor's alias, or
    whose CPEs name one of its keys: at 90 for the alias, at 80 for the CPE alone. It adds a bucket
    tag exactly for a CVE in scope with a vendor, tagged by whatever means, linked to an active bucket.
   */
  lemma NewTagsAreEarned(tax: Taxonomy, events: Events, scope: set<string>, tags: Tags, c: string, v: string, b: string)
    ensures var after := Classify(tax, events, scope, tags);
            && ((c, v) in tags.vendors ==> (c, v) in after.vendors && after.vendors[(c, v)] == tags.vendors[(c, v)])
            && ((c, v) !in tags.vendors ==>
                  && ((c, v) in after.vendors <==> c in scope && (AliasNames(tax, events, c, v) || CpeNames(tax, events, c, v)))
                  && ((c, v) in after.vendors && AliasNames(tax, events, c, v) ==> after.vendors[(c, v)] == Tag(90, VendorAlias))
                  && ((c, v) in after.vendors && !AliasNames(tax, events, c, v) ==> after.vendors[(c, v)] == Tag(80, CpeVendor)))
            && ((c, b) in tags.buckets ==> (c, b) in after.buckets && after.buckets[(c, b)] == tags.buckets[(c, b)])
            && ((c, b) !in tags.buckets ==>
                  && ((c, b) in after.buckets <==>
                        c in events && c in scope && b in tax.activeBuckets
                        && exists w :: (c, w) in after.vendors && (w, b) in tax.links)
                  && ((c, b) in after.buckets ==> after.buckets[(c, b)] == Tag(75, ViaVendor)))
  {
    ClassifyByTag(tax, events, scope, tags, c, v, b);
    if c in events { HitsAreNames(tax, events, c, v); }
    hide Classify, AliasHit, CpeHit;
    var after := Classify(tax, events, scope, tags);
    assert Get(after.vendors, c, v).Some? <==> (c, v) in after.vendors;
    assert Get(after.buckets, c, b).Some? <==> (c, b) in after.buckets;
  }

  lemma SameTags(s: TagTable, t: TagTable)
    requires forall c, k :: Get(s, c, k) == Get(t, c, k)
    ensures s == t
  {
    forall x | x in s.Keys + t.Keys ensures x in s && x in t && s[x] == t[x] {
      assert x == (x.0, x.1);
      assert Get(s, x.0, x.1) == Get(t, x.0, x.1);
    }
  }

  /** Classifying A and then B is classifying their union once. */
  lemma ClassifyUnion(tax: Taxonomy, events: Events, a: set<string>, b: set<string>, tags: Tags)
    ensures Classify(tax, events, b, Classify(tax, events, a, tags)) == Classify(tax, events, a + b, tags)
  {
    hide Classify, AliasHit, CpeHit, Derives;
    var first := Classify(tax, events, a, tags);
    var second, once := Classify(tax, events, b, first), Classify(tax, events, a + b, tags);
    forall c, v ensures Get(second.vendors, c, v) == Get(once.vendors, c, v) {
      ClassifyByTag(tax, events, a, tags, c, v, "");
      ClassifyByTag(tax, events, b, first, c, v, "");
      ClassifyByTag(tax, events, a + b, tags, c, v, "");
    }
    SameTags(second.vendors, once.vendors);
    forall c, k ensures Get(second.buckets, c, k) == Get(once.buckets, c, k) {
      ClassifyByTag(tax, events, a, tags, c, "", k);
      ClassifyByTag(tax, events, b, first, c, "", k);
      ClassifyByTag(tax, events, a + b, tags, c, "", k);
      if c in events && c in a {
        FirstRunSettles(tax, events, a, b, tags, c, k);
      }
    }
    SameTags(second.buckets, once.buckets);
  }

  /** The vendor tags of a CVE in the first set are final after the first run. */
  lemma FirstRunSettles(tax: Taxonomy, events: Events, a: set<string>, b: set<string>, tags: Tags, c: string, k: string)
    requires c in events && c in a
    ensures var first := Classify(tax, events, a, tags);
            Derives(tax, first.vendors, c, k) <==> Derives(tax, Classify(tax, events, b, first).vendors, c, k)
  {
    hide Classify, AliasHit, CpeHit;
    var first := Classify(tax, events, a, tags);
    var second := Classify(tax, events, b, first);
    forall v ensures (c, v) in first.vendors <==> (c, v) in second.vendors {
      ClassifyByTag(tax, events, a, tags, c, v, "");
      ClassifyByTag(tax, events, b, first, c, v, "");
    }
  }

  /** So a second run over CVEs already classified adds nothing. */
  lemma ClassifyAgain(tax: Taxonomy, events: Events, a: set<string>, b: set<string>, tags: Tags)
    requires b <= a
    ensures Classify(tax, events, b, Classify(tax, events, a, tags)) == Classify(tax, events, a, tags)
  {
    ClassifyUnion(tax, events, a, b, tags);
    assert a + b == a;
  }

  // ── Operators ────────────────────────────────────────────────────────

  /** Everything that happens to one kind of tag; taxonomy and CVEs may change between runs. */
  datatype Action =
    | Run(tax: Taxonomy, events: Events, scope: set<string>)
    | TagVendor(cve: string, vendor: string)
    | UntagVendor(cve: string, vendor: string)
    | TagBucket(cve: string, bucket: string)
    | UntagBucket(cve: string, bucket: string)

  function Act(tags: Tags, a: Action): Tags {
    match a
    case Run(tax, events, scope) => Classify(tax, events, scope, tags)
    case TagVendor(c, v) => tags.(vendors := tags.vendors[(c, v) := OPERATOR_TAG])
    case UntagVendor(c, v) => tags.(vendors := tags.vendors - {(c, v)})
    case TagBucket(c, b) => tags.(buckets := tags.buckets[(c, b) := OPERATOR_TAG])
    case UntagBucket(c, b) => tags.(buckets := tags.buckets - {(c, b)})
  }

  function ActAll(tags: Tags, actions: seq<Action>): Tags {
    if actions == [] then tags else Act(ActAll(tags, actions[..|actions| - 1]), actions[|actions| - 1])
  }

  predicate UntagsVendor(a: Action, c: string, v: string) { a == UntagVendor(c, v) }
  predicate UntagsBucket(a: Action, c: string, b: string) { a == UntagBucket(c, b) }

  /** An operator's tag survives whatever follows, short of the operator's own removal. */
  lemma {:induction false} OperatorTagsSurvive(tags: Tags, actions: seq<Action>, c: string, k: string)
    ensures Get(tags.vendors, c, k) == Some(OPERATOR_TAG) && (forall i :: 0 <= i < |actions| ==> !UntagsVendor(actions[i], c, k))
            ==> Get(ActAll(tags, actions).vendors, c, k) == Some(OPERATOR_TAG)
    ensures Get(tags.buckets, c, k) == Some(OPERATOR_TAG) && (forall i :: 0 <= i < |actions| ==> !UntagsBucket(actions[i], c, k))
            ==> Get(ActAll(tags, actions).buckets, c, k) == Some(OPERATOR_TAG)
  {
    if actions != [] {
      hide Classify;
      var front, last := actions[..|actions| - 1], actions[|actions| - 1];
      OperatorTagsSurvive(tags, front, c, k);
      assert !(forall i :: 0 <= i < |front| ==> !UntagsVendor(front[i], c, k)) ==>
             !(forall i :: 0 <= i < |actions| ==> !UntagsVendor(actions[i], c, k));
      if last.Run? {
        ClassifyByTag(last.tax, last.events, last.scope, ActAll(tags, front), c, k, k);
      } else {
        assert UntagsVendor(last, c, k) <==> last == UntagVendor(c, k);
      }
    }
  }

  /** An operator's removal does not outlive the next run that finds the vendor again. */
  lemma RemovalIsForgotten(tax: Taxonomy, events: Events, scope: set<string>, tags: Tags, c: string, v: string)
    requires c in events && c in scope
    ensures Get(Classify(tax, events, scope, Act(tags, UntagVendor(c, v))).vendors, c, v).Some? <==>
            AliasHit(tax, events[c], v) || CpeHit(tax, events[c], v)
  {
    ClassifyByTag(tax, events, scope, Act(tags, UntagVendor(c, v)), c, v, "");
  }

  // ── The passes as they run ───────────────────────────────────────────

  lemma InsertNone<K>(tags: map<K, Tag>, tag: Tag)
    ensures InsertNew(tags, {}, tag) == tags
  {
  }

  lemma InsertOneMore<K>(tags: map<K, Tag>, keys: set<K>, k: K, tag: Tag)
    ensures var after := InsertNew(tags, keys, tag);
            InsertNew(tags, keys + {k}, tag) == if k in after then after else after[k := tag]
  {
  }

  lemma Grown<K>(tags: map<K, Tag>, k: K, tag: Tag)
    ensures |tags[k := tag]| == |tags| + if k in tags then 0 else 1
  {
    assert tags[k := tag].Keys == tags.Keys + {k};
  }

  lemma Moved<K>(done: set<K>, todo: set<K>, k: K)
    requires k in todo
    ensures (done + {k}) + (todo - {k}) == done + todo
  {
  }

  /** Insert the rows one by one, in any order, counting the ones that were not there. */
  method InsertAll<K(==)>(tags: map<K, Tag>, rows: set<K>, tag: Tag) returns (after: map<K, Tag>, added: nat)
    ensures after == InsertNew(tags, rows, tag) && added == |after| - |tags|
  {
    hide InsertNew;
    after, added := tags, 0;
    var todo := rows;
    ghost var done: set<K> := {};
    InsertNone(tags, tag);
    while todo != {}
      invariant done + todo == rows
      invariant after == InsertNew(tags, done, tag)
      invariant added == |after| - |tags|
      decreases |todo|
    {
      var k :| k in todo;
      InsertOneMore(tags, done, k, tag);
      Grown(after, k, tag);
      Moved(done, todo, k);
      done := done + {k};
      todo := todo - {k};
      if k !in after {
        after := after[k := tag];
        added := added + 1;
      }
    }
    assert done == rows;
  }

  class TagStore {
    var vendorTags: TagTable
    var bucketTags: TagTable

    ghost function Contents(): Tags
      reads this
    {
      Tags(vendorTags, bucketTags)
    }

    constructor ()
      ensures Contents() == Tags(map[], map[])
    {
      vendorTags, bucketTags := map[], map[];
    }

    method ClassifyRecent(tax: Taxonomy, events: Events, scope: set<string>)
      returns (aliasAdded: nat, cpeAdded: nat, bucketAdded: nat)
      modifies this
      ensures Contents() == Classify(tax, events, scope, old(Contents()))
      ensures aliasAdded + cpeAdded == |vendorTags| - |old(vendorTags)|
      ensures bucketAdded == |bucketTags| - |old(bucketTags)|
    {
      vendorTags, aliasAdded := InsertAll(vendorTags, AliasRows(tax, events, scope), ALIAS_TAG);
      vendorTags, cpeAdded := InsertAll(vendorTags, CpeRows(tax, events, scope), CPE_TAG);
      bucketTags, bucketAdded := InsertAll(bucketTags, BucketRows(tax, events, scope, vendorTags), BUCKET_TAG);
    }

    method TagVendorByOperator(tax: Taxonomy, cve: string, vendor: string) returns (r: Result<()>)
      modifies this
      ensures vendor !in tax.vendors ==> r == Err(NotFound) && Contents() == old(Contents())
      ensures vendor in tax.vendors ==> r.Ok? && Contents() == Act(old(Contents()), TagVendor(cve, vendor))
    {
      if vendor !in tax.vendors { return Err(NotFound); }
      vendorTags := vendorTags[(cve, vendor) := OPERATOR_TAG];
      return Ok(());
    }

    method UntagVendorByOperator(tax: Taxonomy, cve: string, vendor: string) returns (r: Result<()>)
      modifies this
      ensures vendor !in tax.vendors ==> r == Err(NotFound) && Contents() == old(Contents())
      ensures vendor in tax.vendors ==> r.Ok? && Contents() == Act(old(Contents()), UntagVendor(cve, vendor))
    {
      if vendor !in tax.vendors { return Err(NotFound); }
      vendorTags := vendorTags - {(cve, vendor)};
      return Ok(());
    }

    method TagBucketByOperator(buckets: set<string>, cve: string, bucket: string) returns (r: Result<()>)
      modifies this
      ensures bucket !in buckets ==> r == Err(NotFound) && Contents() == old(Contents())
      ensures bucket in buckets ==> r.Ok? && Contents() == Act(old(Contents()), TagBucket(cve, bucket))
    {
      if bucket !in buckets { return Err(NotFound); }
      bucketTags := bucketTags[(cve, bucket) := OPERATOR_TAG];
      return Ok(());
    }

    method UntagBucketByOperator(buckets: set<string>, cve: string, bucket: string) returns (r: Result<()>)
      modifies this
      ensures bucket !in buckets ==> r == Err(NotFound) && Contents() == old(Contents())
      ensures bucket in buckets ==> r.Ok? && Contents() == Act(old(Contents()), UntagBucket(cve, bucket))
    {
      if bucket !in buckets { return Err(NotFound); }
      bucketTags := bucketTags - {(cve, bucket)};
      return Ok(());
    }
  }

}
