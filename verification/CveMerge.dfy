/** Two feeds, one cve_events record each: the NVD and the CISA KEV upserts and how they compose. */
module CveMerge {
  import opened Common
  import opened NvdParsing

  datatype Source = NvdSource | KevSource

  /** A row of cve_events; the sources array is kept duplicate-free by the SQL, so it is a set here. */
  datatype Cve = Cve(
    cvssV3: Option<real>, severity: Option<string>, cvssV2: Option<real>,
    published: Option<Time>, lastModified: Option<Time>,
    vendor: Option<string>, product: Option<string>, cpes: seq<string>, description: Option<string>,
    kevMember: bool, kevAdded: Option<int>, kevDue: Option<int>,
    kevAction: Option<string>, kevRansomware: Option<string>,
    sources: set<Source>, rawNvd: Option<string>, rawKev: Option<string>)

  datatype KevItem = KevItem(
    id: Option<string>, vendor: Option<string>, product: Option<string>, description: Option<string>,
    added: Option<int>, due: Option<int>, action: Option<string>, ransomware: Option<string>, raw: string)

  type Events = map<string, Cve>

  datatype RefRow = RefRow(source: Option<string>, tags: seq<string>)

  /** cve_references, keyed by its unique (cve_id, url). */
  type Refs = map<(string, string), RefRow>

  datatype Tables = Tables(events: Events, refs: Refs)

  /** `if not cve_id: return`. */
  predicate HasId(id: Option<string>) { Truthy(id) }

  /** The VALUES of the NVD upsert. */
  function NvdRow(v: Vuln): Cve {
    var cpes := Dedupe(AllCpes(v.configurations));
    var (score, severity) := CvssV3(v);
    var (vendor, product) := VendorProduct(cpes);
    Cve(score, severity, CvssV2(v), v.published, v.lastModified, vendor, product, cpes,
        EnglishDescription(v.descriptions), false, None, None, None, None, {NvdSource}, Some(v.raw), None)
  }

  /** The VALUES of the KEV upsert. */
  function KevRow(k: KevItem): Cve {
    Cve(None, None, None, None, None, k.vendor, k.product, [], k.description,
        true, k.added, k.due, k.action, k.ransomware, {KevSource}, None, Some(k.raw))
  }

  /** DO UPDATE of the NVD upsert: what NVD says wins, where it says something. */
  function MergeNvd(was: Cve, row: Cve): Cve {
    was.(cvssV3 := row.cvssV3.Or(was.cvssV3),
         severity := row.severity.Or(was.severity),
         cvssV2 := row.cvssV2.Or(was.cvssV2),
         published := row.published.Or(was.published),
         lastModified := row.lastModified.Or(was.lastModified),
         vendor := row.vendor.Or(was.vendor),
         product := row.product.Or(was.product),
         cpes := if |row.cpes| > 0 then row.cpes else was.cpes,
         description := row.description.Or(was.description),
         sources := was.sources + {NvdSource},
         rawNvd := row.rawNvd)
  }

  /** DO UPDATE of the KEV upsert: vendor, product and description only fill gaps. */
  function MergeKev(was: Cve, row: Cve): Cve {
    was.(vendor := was.vendor.Or(row.vendor),
         product := was.product.Or(row.product),
         description := was.description.Or(row.description),
         kevMember := true,
         kevAdded := row.kevAdded,
         kevDue := row.kevDue,
         kevAction := row.kevAction,
         kevRansomware := row.kevRansomware,
         sources := was.sources + {KevSource},
         rawKev := row.rawKev)
  }

  function AddNvd(events: Events, v: Vuln): Events {
    if !HasId(v.id) then events
    else
      var id := v.id.value;
      events[id := if id in events then MergeNvd(events[id], NvdRow(v)) else NvdRow(v)]
  }

  function AddKev(events: Events, k: KevItem): Events {
    if !HasId(k.id) then events
    else
      var id := k.id.value;
      events[id := if id in events then MergeKev(events[id], KevRow(k)) else KevRow(k)]
  }

  /** INSERT ... ON CONFLICT (cve_id, url) DO NOTHING; a reference without a URL is skipped. */
  function AddRef(refs: Refs, id: string, r: Reference): Refs {
    if !Truthy(r.url) || (id, r.url.value) in refs then refs
    else refs[(id, r.url.value) := RefRow(r.source, r.tags)]
  }

  function AddRefs(refs: Refs, id: string, rs: seq<Reference>): Refs {
    if rs == [] then refs else AddRef(AddRefs(refs, id, rs[..|rs| - 1]), id, rs[|rs| - 1])
  }

  function NvdRefs(refs: Refs, v: Vuln): Refs {
    if HasId(v.id) then AddRefs(refs, v.id.value, v.references) else refs
  }

  function AddNvds(events: Events, vs: seq<Vuln>): Events {
    if vs == [] then events else AddNvd(AddNvds(events, vs[..|vs| - 1]), vs[|vs| - 1])
  }

  function AddKevs(events: Events, ks: seq<KevItem>): Events {
    if ks == [] then events else AddKev(AddKevs(events, ks[..|ks| - 1]), ks[|ks| - 1])
  }

  function NvdRefsAll(refs: Refs, vs: seq<Vuln>): Refs {
    if vs == [] then refs else NvdRefs(NvdRefsAll(refs, vs[..|vs| - 1]), vs[|vs| - 1])
  }

  // ── Any interleaving of the two feeds ────────────────────────────────

  datatype Upsert = Nvd(v: Vuln) | Kev(k: KevItem)

  function Apply(t: Tables, us: seq<Upsert>): Tables {
    if us == [] then t
    else
      var t' := Apply(t, us[..|us| - 1]);
      match us[|us| - 1]
      case Nvd(v) => Tables(AddNvd(t'.events, v), NvdRefs(t'.refs, v))
      case Kev(k) => t'.(events := AddKev(t'.events, k))
  }

  function Nvds(us: seq<Upsert>): seq<Vuln> {
    if us == [] then []
    else
      var last := us[|us| - 1];
      Nvds(us[..|us| - 1]) + if last.Nvd? then [last.v] else []
  }

  function Kevs(us: seq<Upsert>): seq<KevItem> {
    if us == [] then []
    else
      var last := us[|us| - 1];
      Kevs(us[..|us| - 1]) + if last.Kev? then [last.k] else []
  }

  /** One record: the order of an NVD and a KEV upsert does not matter, whether or not the row was there. */
  lemma UpsertsCommute(events: Events, v: Vuln, k: KevItem)
    ensures AddNvd(AddKev(events, k), v) == AddKev(AddNvd(events, v), k)
  {
    hide NvdRow, MergeNvd, MergeKev, KevRow;
    if HasId(v.id) && HasId(k.id) && v.id == k.id {
      var id := v.id.value;
      RecordsCommute(if id in events then Some(events[id]) else None, v, k);
    }
  }

  lemma RecordsCommute(was: Option<Cve>, v: Vuln, k: KevItem)
    ensures was.Some? ==> MergeNvd(MergeKev(was.value, KevRow(k)), NvdRow(v))
                          == MergeKev(MergeNvd(was.value, NvdRow(v)), KevRow(k))
    ensures MergeNvd(KevRow(k), NvdRow(v)) == MergeKev(NvdRow(v), KevRow(k))
  {
    FreshRow(v);
    hide NvdRow;
    if was.Some? { MergesCommute(was.value, NvdRow(v), KevRow(k)); }
    assert {KevSource} + {NvdSource} == {NvdSource} + {KevSource};
  }

  lemma MergesCommute(was: Cve, n: Cve, k: Cve)
    ensures MergeNvd(MergeKev(was, k), n) == MergeKev(MergeNvd(was, n), k)
  {
    assert was.sources + {KevSource} + {NvdSource} == was.sources + {NvdSource} + {KevSource};
  }

  lemma {:induction false} NvdPastKevs(events: Events, ks: seq<KevItem>, v: Vuln)
    ensures AddNvd(AddKevs(events, ks), v) == AddKevs(AddNvd(events, v), ks)
  {
    if ks != [] {
      hide AddNvd, AddKev;
      var front, last := ks[..|ks| - 1], ks[|ks| - 1];
      NvdPastKevs(events, front, v);
      UpsertsCommute(AddKevs(events, front), v, last);
    }
  }

  lemma StreamsStep(us: seq<Upsert>, last: Upsert)
    ensures Nvds(us + [last]) == Nvds(us) + if last.Nvd? then [last.v] else []
    ensures Kevs(us + [last]) == Kevs(us) + if last.Kev? then [last.k] else []
  {
    assert (us + [last])[..|us|] == us;
  }

  lemma AddNvdStep(events: Events, refs: Refs, vs: seq<Vuln>, v: Vuln)
    ensures AddNvds(events, vs + [v]) == AddNvd(AddNvds(events, vs), v)
    ensures NvdRefsAll(refs, vs + [v]) == NvdRefs(NvdRefsAll(refs, vs), v)
  {
    hide AddNvd, NvdRefs;
    assert (vs + [v])[..|vs|] == vs;
  }

  lemma AddKevStep(events: Events, ks: seq<KevItem>, k: KevItem)
    ensures AddKevs(events, ks + [k]) == AddKev(AddKevs(events, ks), k)
  {
    hide AddKev;
    assert (ks + [k])[..|ks|] == ks;
  }

  /** Every interleaving ends where running all of NVD's items and then all of KEV's does. */
  lemma {:induction false} NvdFirst(t: Tables, us: seq<Upsert>)
    ensures Apply(t, us).events == AddKevs(AddNvds(t.events, Nvds(us)), Kevs(us))
    ensures Apply(t, us).refs == NvdRefsAll(t.refs, Nvds(us))
  {
    if us != [] {
      var front, last := us[..|us| - 1], us[|us| - 1];
      NvdFirst(t, front);
      StreamsStep(front, last);
      assert us == front + [last];
      hide AddNvd, AddKev, NvdRefs, AddNvds, AddKevs, NvdRefsAll, Nvds, Kevs;
      var e := AddNvds(t.events, Nvds(front));
      match last
      case Nvd(v) =>
        NvdPastKevs(e, Kevs(front), v);
        AddNvdStep(t.events, t.refs, Nvds(front), v);
        assert Kevs(us) == Kevs(front);
      case Kev(k) =>
        AddKevStep(e, Kevs(front), k);
        assert Nvds(us) == Nvds(front);
    }
  }

  /** Two interleavings of the same two streams end in the same tables. */
  lemma InterleavingsAgree(t: Tables, us: seq<Upsert>, us': seq<Upsert>)
    requires Nvds(us) == Nvds(us') && Kevs(us) == Kevs(us')
    ensures Apply(t, us) == Apply(t, us')
  {
    NvdFirst(t, us);
    NvdFirst(t, us');
  }

  // ── Who a field's value comes from ───────────────────────────────────

  /** The fields that NVD owns and, of these, the three that KEV may fill. */
  datatype Field = Vendor | Product | Summary | SeverityName | ScoreV3 | ScoreV2 | Published | LastModified | Cpes

  datatype Value = Text(text: string) | Score(score: real) | When(time: Time) | Names(names: seq<string>)

  function Lift<T>(x: Option<T>, f: T -> Value): Option<Value> {
    if x.Some? then Some(f(x.value)) else None
  }

  /** A stored field; an empty list of CPEs counts as none. */
  function FieldOf(c: Cve, f: Field): Option<Value> {
    match f
    case Vendor => Lift(c.vendor, x => Text(x))
    case Product => Lift(c.product, x => Text(x))
    case Summary => Lift(c.description, x => Text(x))
    case SeverityName => Lift(c.severity, x => Text(x))
    case ScoreV3 => Lift(c.cvssV3, x => Score(x))
    case ScoreV2 => Lift(c.cvssV2, x => Score(x))
    case Published => Lift(c.published, x => When(x))
    case LastModified => Lift(c.lastModified, x => When(x))
    case Cpes => if c.cpes == [] then None else Some(Names(c.cpes))
  }

  function Stored(events: Events, id: string, f: Field): Option<Value> {
    if id in events then FieldOf(events[id], f) else None
  }

  predicate About(u: Upsert, id: string) {
    id != "" && Some(id) == match u case Nvd(v) => v.id case Kev(k) => k.id
  }

  /** What an NVD item or a KEV item says of a field, if anything. */
  function Claim(u: Upsert, f: Field): Option<Value> {
    match u
    case Nvd(v) => (
      match f
      case Vendor => Lift(VendorProduct(Dedupe(AllCpes(v.configurations))).0, x => Text(x))
      case Product => Lift(VendorProduct(Dedupe(AllCpes(v.configurations))).1, x => Text(x))
      case Summary => Lift(EnglishDescription(v.descriptions), x => Text(x))
      case SeverityName => Lift(CvssV3(v).1, x => Text(x))
      case ScoreV3 => Lift(CvssV3(v).0, x => Score(x))
      case ScoreV2 => if v.v2 == [] then None else Lift(v.v2[0].score, x => Score(x))
      case Published => Lift(v.published, x => When(x))
      case LastModified => Lift(v.lastModified, x => When(x))
      case Cpes => if Dedupe(AllCpes(v.configurations)) == [] then None else Some(Names(Dedupe(AllCpes(v.configurations)))))
    case Kev(k) => (
      match f
      case Vendor => Lift(k.vendor, x => Text(x))
      case Product => Lift(k.product, x => Text(x))
      case Summary => Lift(k.description, x => Text(x))
      case _ => None)
  }

  predicate Says(us: seq<Upsert>, id: string, f: Field, i: int) {
    0 <= i < |us| && About(us[i], id) && Claim(us[i], f).Some?
  }

  ghost predicate NobodySays(us: seq<Upsert>, id: string, f: Field) {
    forall i :: 0 <= i < |us| ==> !Says(us, id, f, i)
  }

  /** Upsert i is the last NVD one with a value for the field, or, if NVD has none, the first KEV one. */
  ghost predicate Decides(us: seq<Upsert>, id: string, f: Field, i: int) {
    && Says(us, id, f, i)
    && (us[i].Nvd? ==> forall j :: i < j && Says(us, id, f, j) ==> us[j].Kev?)
    && (us[i].Kev? ==> forall j :: Says(us, id, f, j) ==> us[j].Kev? && i <= j)
  }

  lemma NvdRowClaims(v: Vuln, f: Field)
    ensures FieldOf(NvdRow(v), f) == Claim(Nvd(v), f)
  {
    hide VendorProduct, Dedupe, AllCpes, CvssV3, EnglishDescription;
  }

  lemma KevRowClaims(k: KevItem, f: Field)
    ensures FieldOf(KevRow(k), f) == Claim(Kev(k), f)
  {
  }

  lemma MergedByNvd(was: Cve, row: Cve, f: Field)
    ensures FieldOf(MergeNvd(was, row), f) == FieldOf(row, f).Or(FieldOf(was, f))
  {
  }

  lemma MergedByKev(was: Cve, k: KevItem, f: Field)
    ensures FieldOf(MergeKev(was, KevRow(k)), f) == FieldOf(was, f).Or(FieldOf(KevRow(k), f))
  {
  }

  lemma FieldStep(events: Events, u: Upsert, id: string, f: Field)
    requires id != ""
    ensures var after := match u case Nvd(v) => AddNvd(events, v) case Kev(k) => AddKev(events, k);
            Stored(after, id, f) ==
              if !About(u, id) then Stored(events, id, f)
              else if u.Nvd? then Claim(u, f).Or(Stored(events, id, f))
              else Stored(events, id, f).Or(Claim(u, f))
  {
    match u
    case Nvd(v) =>
      NvdRowClaims(v, f);
      if HasId(v.id) && v.id.value in events { MergedByNvd(events[v.id.value], NvdRow(v), f); }
      hide NvdRow, MergeNvd, FieldOf, Claim;
    case Kev(k) =>
      KevRowClaims(k, f);
      if HasId(k.id) && k.id.value in events { MergedByKev(events[k.id.value], k, f); }
      hide KevRow, MergeKev, FieldOf, Claim;
  }

  lemma SaysPrefix(us: seq<Upsert>, id: string, f: Field)
    requires us != []
    ensures forall i :: i < |us| - 1 ==> (Says(us, id, f, i) <==> Says(us[..|us| - 1], id, f, i))
  {
    hide About, Claim;
  }

  /** The last upsert decides if NVD makes it, or if nobody has spoken. */
  lemma LastDecides(us: seq<Upsert>, id: string, f: Field)
    requires us != [] && Says(us, id, f, |us| - 1)
    requires us[|us| - 1].Nvd? || NobodySays(us[..|us| - 1], id, f)
    ensures Decides(us, id, f, |us| - 1)
  {
    SaysPrefix(us, id, f);
  }

  /** Otherwise whoever decided before it still does. */
  lemma DeciderStays(us: seq<Upsert>, id: string, f: Field, i: int)
    requires us != [] && Decides(us[..|us| - 1], id, f, i)
    requires !(Says(us, id, f, |us| - 1) && us[|us| - 1].Nvd?)
    ensures Decides(us, id, f, i) && us[i] == us[..|us| - 1][i]
  {
    hide About, Claim;
    SaysPrefix(us, id, f);
    var n := |us| - 1;
    assert us[i] == us[..n][i];
    forall j | Says(us, id, f, j) ensures us[j].Kev? || (us[i].Nvd? && j <= i) {
      if j < n { assert us[..n][j] == us[j]; }
    }
  }

  lemma {:induction false} FieldHasDecider(t: Tables, us: seq<Upsert>, id: string, f: Field)
    requires id != "" && id !in t.events
    ensures var x := Stored(Apply(t, us).events, id, f);
            && (x.None? ==> NobodySays(us, id, f))
            && (x.Some? ==> exists i :: Decides(us, id, f, i) && Claim(us[i], f) == x)
  {
    if us != [] {
      hide About, Claim, Stored, AddNvd, AddKev, Decides, NvdRefs;
      var front, last, n := us[..|us| - 1], us[|us| - 1], |us| - 1;
      FieldHasDecider(t, front, id, f);
      FieldStep(Apply(t, front).events, last, id, f);
      SaysPrefix(us, id, f);
      var x := Stored(Apply(t, us).events, id, f);
      var y := Stored(Apply(t, front).events, id, f);
      if Says(us, id, f, n) && (last.Nvd? || y.None?) {
        LastDecides(us, id, f);
      } else if y.Some? {
        var i :| Decides(front, id, f, i) && Claim(front[i], f) == y;
        DeciderStays(us, id, f, i);
      }
    }
  }

  lemma OneDecider(us: seq<Upsert>, id: string, f: Field, i: int, j: int)
    requires Decides(us, id, f, i) && Decides(us, id, f, j)
    ensures i == j
  {
  }

  /**
    A record's field is set exactly if some upsert gave it, and is what the deciding upsert
    gave: the last NVD value (for CPEs, the last nonempty list), else, for vendor, product and
    description, the first KEV value. KEV gives no other of these fields.
   */
  lemma FieldIsDecided(t: Tables, us: seq<Upsert>, id: string, f: Field, i: int)
    requires id != "" && id !in t.events
    ensures (exists k :: Decides(us, id, f, k)) <==> Stored(Apply(t, us).events, id, f).Some?
    ensures Decides(us, id, f, i) ==> Stored(Apply(t, us).events, id, f) == Claim(us[i], f)
    ensures Decides(us, id, f, i) && us[i].Kev? ==> f == Vendor || f == Product || f == Summary
  {
    FieldHasDecider(t, us, id, f);
    forall j | Decides(us, id, f, j) ensures Says(us, id, f, j) {
    }
    if Decides(us, id, f, i) {
      assert Says(us, id, f, i);
      var j :| Decides(us, id, f, j) && Claim(us[j], f) == Stored(Apply(t, us).events, id, f);
      OneDecider(us, id, f, i, j);
    }
  }

  /** The last item of one feed about the CVE. */
  ghost predicate LastOf(us: seq<Upsert>, id: string, nvd: bool, i: int) {
    0 <= i < |us| && About(us[i], id) && us[i].Nvd? == nvd
    && forall j :: i < j < |us| && About(us[j], id) ==> us[j].Nvd? != nvd
  }

  /** What only KEV writes, and the raw item of each feed. */
  predicate FromKev(c: Cve, k: KevItem) {
    c.kevMember && c.kevAdded == k.added && c.kevDue == k.due && c.kevAction == k.action
    && c.kevRansomware == k.ransomware && c.rawKev == Some(k.raw)
  }

  predicate Untouched(c: Cve) {
    !c.kevMember && c.kevAdded.None? && c.kevDue.None? && c.kevAction.None? && c.kevRansomware.None? && c.rawKev.None?
  }

  lemma KevStep(events: Events, u: Upsert, id: string)
    requires id != ""
    ensures var after := match u case Nvd(v) => AddNvd(events, v) case Kev(k) => AddKev(events, k);
            && (u.Kev? && About(u, id) ==> id in after && FromKev(after[id], u.k))
            && (u.Nvd? && About(u, id) ==> id in after && after[id].rawNvd == Some(u.v.raw))
            && (!About(u, id) ==> (id in after <==> id in events) && (id in events ==> after[id] == events[id]))
            && (id in events ==> id in after)
            && (u.Nvd? && id in events ==> forall k :: FromKev(events[id], k) ==> FromKev(after[id], k))
            && (u.Nvd? && id in events && Untouched(events[id]) ==> Untouched(after[id]))
            && (u.Nvd? && About(u, id) && id !in events ==> Untouched(after[id]))
            && (u.Kev? && id in events ==> after[id].rawNvd == events[id].rawNvd)
            && (u.Kev? && About(u, id) && id !in events ==> after[id].rawNvd.None?)
  {
    hide Dedupe, AllCpes, VendorProduct, CvssV3, CvssV2, EnglishDescription;
  }

  lemma LastOfStep(us: seq<Upsert>, id: string, nvd: bool, i: int)
    requires us != []
    ensures LastOf(us, id, nvd, i) <==>
            if About(us[|us| - 1], id) && us[|us| - 1].Nvd? == nvd then i == |us| - 1 else LastOf(us[..|us| - 1], id, nvd, i)
  {
    hide About;
    var front := us[..|us| - 1];
    assert forall j :: 0 <= j < |front| ==> front[j] == us[j];
  }

  /** KEV's own fields and raw item are those of the last KEV item about the CVE, and NVD's raw item of NVD's last. */
  lemma {:induction false} LastItemDecides(t: Tables, us: seq<Upsert>, id: string, i: int)
    requires id != "" && id !in t.events
    ensures LastOf(us, id, false, i) ==>
              id in Apply(t, us).events && FromKev(Apply(t, us).events[id], us[i].k)
    ensures LastOf(us, id, true, i) ==>
              id in Apply(t, us).events && Apply(t, us).events[id].rawNvd == Some(us[i].v.raw)
    ensures id in Apply(t, us).events && !Seen(us, id, false) ==> Untouched(Apply(t, us).events[id])
    ensures id in Apply(t, us).events && !Seen(us, id, true) ==> Apply(t, us).events[id].rawNvd.None?
  {
    if us != [] {
      var front, last := us[..|us| - 1], us[|us| - 1];
      LastItemDecides(t, front, id, i);
      KevStep(Apply(t, front).events, last, id);
      LastOfStep(us, id, false, i);
      LastOfStep(us, id, true, i);
      SeenStep(us, id, true);
      SeenStep(us, id, false);
      hide AddNvd, AddKev, FromKev, Untouched, LastOf, Seen, About, NvdRefs;
      if 0 <= i < |front| { assert front[i] == us[i]; }
      if LastOf(front, id, false, i) || LastOf(front, id, true, i) { LastOfIsThere(front, id, LastOf(front, id, true, i), i); }
    }
  }

  lemma LastOfIsThere(us: seq<Upsert>, id: string, nvd: bool, i: int)
    requires LastOf(us, id, nvd, i)
    ensures 0 <= i < |us|
  {
  }

  ghost predicate Seen(us: seq<Upsert>, id: string, nvd: bool) {
    exists i :: 0 <= i < |us| && About(us[i], id) && us[i].Nvd? == nvd
  }

  lemma SeenStep(us: seq<Upsert>, id: string, nvd: bool)
    requires us != []
    ensures Seen(us, id, nvd) <==> Seen(us[..|us| - 1], id, nvd) || (About(us[|us| - 1], id) && us[|us| - 1].Nvd? == nvd)
  {
    hide About;
    if Seen(us[..|us| - 1], id, nvd) {
      var i :| 0 <= i < |us| - 1 && About(us[..|us| - 1][i], id) && us[i].Nvd? == nvd;
      assert About(us[i], id);
    }
    if Seen(us, id, nvd) && !(About(us[|us| - 1], id) && us[|us| - 1].Nvd? == nvd) {
      var i :| 0 <= i < |us| && About(us[i], id) && us[i].Nvd? == nvd;
      assert us[..|us| - 1][i] == us[i];
    }
  }

  /** Sources name exactly the feeds that reported the CVE; the KEV flag is set exactly if KEV did. */
  lemma {:induction false} SourcesAreTheReporters(t: Tables, us: seq<Upsert>, id: string)
    requires id != "" && id !in t.events
    ensures var events := Apply(t, us).events;
            && (id in events <==> Seen(us, id, true) || Seen(us, id, false))
            && (id in events ==>
                  && (NvdSource in events[id].sources <==> Seen(us, id, true))
                  && (KevSource in events[id].sources <==> Seen(us, id, false))
                  && (events[id].kevMember <==> Seen(us, id, false)))
  {
    if us != [] {
      hide Seen;
      SourcesAreTheReporters(t, us[..|us| - 1], id);
      SeenStep(us, id, true);
      SeenStep(us, id, false);
    } else {
      assert !Seen(us, id, true) && !Seen(us, id, false);
    }
  }

  // ── Retrying after a failure ─────────────────────────────────────────

  /** Upserting v makes the two tables equal. */
  ghost predicate AlikeUnder(e1: Events, e2: Events, v: Vuln) {
    AddNvd(e1, v) == AddNvd(e2, v)
  }

  lemma AddNvdTwice(events: Events, v: Vuln)
    ensures AlikeUnder(events, AddNvd(events, v), v)
  {
    hide NvdRow;
    FreshRow(v);
    if HasId(v.id) {
      var id, row := v.id.value, NvdRow(v);
      if id in events {
        assert MergeNvd(MergeNvd(events[id], row), row) == MergeNvd(events[id], row);
      } else {
        assert MergeNvd(row, row) == row;
      }
    }
  }

  lemma FreshRow(v: Vuln)
    ensures NvdRow(v).sources == {NvdSource}
    ensures NvdRow(v) == MergeNvd(NvdRow(v), NvdRow(v))
    ensures var r := NvdRow(v);
            !r.kevMember && r.kevAdded.None? && r.kevDue.None? && r.kevAction.None? && r.kevRansomware.None? && r.rawKev.None?
  {
  }

  function Upserted(was: Option<Cve>, row: Cve): Cve {
    if was.Some? then MergeNvd(was.value, row) else row
  }

  lemma RecordsAlike(a: Option<Cve>, b: Option<Cve>, v: Vuln, w: Vuln)
    ensures Upserted(a, NvdRow(v)) == Upserted(b, NvdRow(v)) ==>
              Upserted(Some(Upserted(a, NvdRow(w))), NvdRow(v)) == Upserted(Some(Upserted(b, NvdRow(w))), NvdRow(v))
  {
    FreshRow(v);
    FreshRow(w);
    hide NvdRow;
  }

  function Find(e: Events, id: string): Option<Cve> { if id in e then Some(e[id]) else None }

  /** One upsert, record by record. */
  lemma AddNvdAt(e: Events, v: Vuln, id: string)
    ensures Find(AddNvd(e, v), id) ==
            if HasId(v.id) && v.id.value == id then Some(Upserted(Find(e, id), NvdRow(v))) else Find(e, id)
  {
    hide NvdRow, MergeNvd;
  }

  lemma SameRecords(e1: Events, e2: Events)
    requires forall id :: Find(e1, id) == Find(e2, id)
    ensures e1 == e2
  {
    forall id | id in e1.Keys + e2.Keys ensures id in e1 && id in e2 && e1[id] == e2[id] {
      assert Find(e1, id) == Find(e2, id);
    }
  }

  lemma AlikeStays(e1: Events, e2: Events, v: Vuln, w: Vuln)
    requires AlikeUnder(e1, e2, v)
    ensures AlikeUnder(AddNvd(e1, w), AddNvd(e2, w), v)
  {
    hide NvdRow, MergeNvd, AddNvd, Upserted;
    forall id ensures Find(AddNvd(AddNvd(e1, w), v), id) == Find(AddNvd(AddNvd(e2, w), v), id) {
      AddNvdAt(AddNvd(e1, w), v, id);
      AddNvdAt(AddNvd(e2, w), v, id);
      AddNvdAt(e1, w, id);
      AddNvdAt(e2, w, id);
      AddNvdAt(e1, v, id);
      AddNvdAt(e2, v, id);
      RecordsAlike(Find(e1, id), Find(e2, id), v, w);
    }
    SameRecords(AddNvd(AddNvd(e1, w), v), AddNvd(AddNvd(e2, w), v));
  }

  lemma {:induction false} AlikeAfter(e1: Events, e2: Events, v: Vuln, ws: seq<Vuln>)
    requires AlikeUnder(e1, e2, v)
    ensures AlikeUnder(AddNvds(e1, ws), AddNvds(e2, ws), v)
  {
    if ws != [] {
      hide AlikeUnder;
      AlikeAfter(e1, e2, v, ws[..|ws| - 1]);
      AlikeStays(AddNvds(e1, ws[..|ws| - 1]), AddNvds(e2, ws[..|ws| - 1]), v, ws[|ws| - 1]);
    }
  }

  /** An item that the sequence holds may be upserted beforehand. */
  lemma {:induction false} OneAhead(events: Events, v: Vuln, vs: seq<Vuln>)
    requires v in vs
    ensures AddNvds(AddNvd(events, v), vs) == AddNvds(events, vs)
  {
    hide AddNvd;
    var front, last := vs[..|vs| - 1], vs[|vs| - 1];
    if v in front {
      OneAhead(events, v, front);
    } else {
      AddNvdTwice(events, v);
      AlikeAfter(events, AddNvd(events, v), v, front);
    }
  }

  /** So may any number of them, in any order, any number of times. */
  lemma {:induction false} ManyAhead(events: Events, ahead: seq<Vuln>, vs: seq<Vuln>)
    requires forall v :: v in ahead ==> v in vs
    ensures AddNvds(AddNvds(events, ahead), vs) == AddNvds(events, vs)
  {
    if ahead != [] {
      hide AddNvd;
      ManyAhead(events, ahead[..|ahead| - 1], vs);
      OneAhead(AddNvds(events, ahead[..|ahead| - 1]), ahead[|ahead| - 1], vs);
    }
  }

  // References are first come, first served, so what was run ahead must be a prefix.

  ghost predicate AllPresent(refs: Refs, id: string, rs: seq<Reference>) {
    forall r :: r in rs && Truthy(r.url) ==> (id, r.url.value) in refs
  }

  lemma {:induction false} AddRefsPresent(refs: Refs, id: string, rs: seq<Reference>)
    ensures AllPresent(AddRefs(refs, id, rs), id, rs)
    ensures refs.Keys <= AddRefs(refs, id, rs).Keys
    ensures AllPresent(refs, id, rs) ==> AddRefs(refs, id, rs) == refs
  {
    if rs != [] {
      AddRefsPresent(refs, id, rs[..|rs| - 1]);
      assert forall r :: r in rs <==> r in rs[..|rs| - 1] || r == rs[|rs| - 1];
    }
  }

  /** The first reference with the URL. */
  ghost predicate FirstWith(rs: seq<Reference>, url: string, i: int) {
    0 <= i < |rs| && url != "" && rs[i].url == Some(url) && forall j :: 0 <= j < i ==> rs[j].url != Some(url)
  }

  /** A stored reference never changes; a new one is that of the first entry with its URL. */
  lemma {:induction false} FirstReferenceWins(refs: Refs, id: string, rs: seq<Reference>, url: string)
    ensures (id, url) in refs ==> (id, url) in AddRefs(refs, id, rs) && AddRefs(refs, id, rs)[(id, url)] == refs[(id, url)]
    ensures (id, url) !in refs && (id, url) in AddRefs(refs, id, rs) ==>
              exists i :: FirstWith(rs, url, i) && AddRefs(refs, id, rs)[(id, url)] == RefRow(rs[i].source, rs[i].tags)
    ensures (id, url) !in refs && (id, url) !in AddRefs(refs, id, rs) ==> forall i :: !FirstWith(rs, url, i)
    ensures forall k: (string, string) :: k.0 != id ==> (k in refs <==> k in AddRefs(refs, id, rs)) && (k in refs ==> AddRefs(refs, id, rs)[k] == refs[k])
  {
    if rs != [] {
      var front, last := rs[..|rs| - 1], rs[|rs| - 1];
      FirstReferenceWins(refs, id, front, url);
      assert forall i :: 0 <= i < |front| ==> front[i] == rs[i];
      AddRefsPresent(refs, id, front);
      if (id, url) !in refs && (id, url) in AddRefs(refs, id, rs) {
        if (id, url) in AddRefs(refs, id, front) {
          var i :| FirstWith(front, url, i) && AddRefs(refs, id, front)[(id, url)] == RefRow(front[i].source, front[i].tags);
          assert FirstWith(rs, url, i);
        } else {
          assert FirstWith(rs, url, |front|);
        }
      }
    }
  }

  ghost predicate VulnPresent(refs: Refs, v: Vuln) {
    HasId(v.id) ==> AllPresent(refs, v.id.value, v.references)
  }

  lemma {:induction false} NvdRefsPresent(refs: Refs, vs: seq<Vuln>)
    ensures refs.Keys <= NvdRefsAll(refs, vs).Keys
    ensures forall v :: v in vs ==> VulnPresent(NvdRefsAll(refs, vs), v)
    ensures (forall v :: v in vs ==> VulnPresent(refs, v)) ==> NvdRefsAll(refs, vs) == refs
  {
    if vs != [] {
      var front, last := vs[..|vs| - 1], vs[|vs| - 1];
      NvdRefsPresent(refs, front);
      var mid := NvdRefsAll(refs, front);
      if HasId(last.id) { AddRefsPresent(mid, last.id.value, last.references); }
      forall v | v in vs ensures VulnPresent(NvdRefsAll(refs, vs), v) {
        assert v in front || v == last;
      }
      assert last in vs && forall v :: v in front ==> v in vs;
    }
  }

  lemma {:induction false} NvdRefsConcat(refs: Refs, vs: seq<Vuln>, ws: seq<Vuln>)
    ensures NvdRefsAll(refs, vs + ws) == NvdRefsAll(NvdRefsAll(refs, vs), ws)
  {
    if ws == [] {
      assert vs + ws == vs;
    } else {
      NvdRefsConcat(refs, vs, ws[..|ws| - 1]);
      assert (vs + ws)[..|vs + ws| - 1] == vs + ws[..|ws| - 1];
    }
  }

  function Max(m: nat, n: nat): nat { if m >= n then m else n }

  /** After the first m items, redoing the first n leaves the references of the longer of the two. */
  lemma RedoPrefixRefs(refs: Refs, vs: seq<Vuln>, m: nat, n: nat)
    requires m <= |vs| && n <= |vs|
    ensures NvdRefsAll(NvdRefsAll(refs, vs[..m]), vs[..n]) == NvdRefsAll(refs, vs[..Max(m, n)])
  {
    hide NvdRefsAll, VulnPresent;
    var mid := NvdRefsAll(refs, vs[..m]);
    NvdRefsPresent(refs, vs[..m]);
    if n <= m {
      NvdRefsPresent(mid, vs[..n]);
    } else {
      NvdRefsPresent(mid, vs[..m]);
      assert vs[..n] == vs[..m] + vs[m..n];
      NvdRefsConcat(mid, vs[..m], vs[m..n]);
      NvdRefsConcat(refs, vs[..m], vs[m..n]);
    }
  }

  /** A series of attempts, each of which got through the first n items of vs before it failed. */
  function Attempts(vs: seq<Vuln>, ns: seq<nat>): seq<Vuln>
    requires forall i :: 0 <= i < |ns| ==> ns[i] <= |vs|
  {
    if ns == [] then [] else Attempts(vs, ns[..|ns| - 1]) + vs[..ns[|ns| - 1]]
  }

  lemma {:induction false} AttemptedItems(vs: seq<Vuln>, ns: seq<nat>)
    requires forall i :: 0 <= i < |ns| ==> ns[i] <= |vs|
    ensures forall v :: v in Attempts(vs, ns) ==> v in vs
  {
    if ns != [] { AttemptedItems(vs, ns[..|ns| - 1]); }
  }

  lemma {:induction false} AttemptedRefs(refs: Refs, vs: seq<Vuln>, ns: seq<nat>) returns (m: nat)
    requires forall i :: 0 <= i < |ns| ==> ns[i] <= |vs|
    ensures m <= |vs| && NvdRefsAll(refs, Attempts(vs, ns)) == NvdRefsAll(refs, vs[..m])
  {
    if ns == [] {
      m := 0;
      assert vs[..0] == Attempts(vs, ns);
    } else {
      var n := ns[|ns| - 1];
      var k := AttemptedRefs(refs, vs, ns[..|ns| - 1]);
      NvdRefsConcat(refs, Attempts(vs, ns[..|ns| - 1]), vs[..n]);
      RedoPrefixRefs(refs, vs, k, n);
      m := Max(k, n);
    }
  }

  lemma {:induction false} AddNvdsConcat(events: Events, vs: seq<Vuln>, ws: seq<Vuln>)
    ensures AddNvds(events, vs + ws) == AddNvds(AddNvds(events, vs), ws)
  {
    if ws == [] {
      assert vs + ws == vs;
    } else {
      AddNvdsConcat(events, vs, ws[..|ws| - 1]);
      assert (vs + ws)[..|vs + ws| - 1] == vs + ws[..|ws| - 1];
    }
  }

  /**
    Retrying is harmless: any number of partial attempts before the full one, with KEV upserts
    anywhere in between, leaves the tables of a single full attempt.
   */
  lemma RetriesAreHarmless(t: Tables, us: seq<Upsert>, us': seq<Upsert>, vs: seq<Vuln>, ns: seq<nat>)
    requires forall i :: 0 <= i < |ns| ==> ns[i] <= |vs|
    requires Nvds(us) == Attempts(vs, ns) + vs && Nvds(us') == vs && Kevs(us) == Kevs(us')
    ensures Apply(t, us) == Apply(t, us')
  {
    hide AddNvds, NvdRefsAll, Attempts;
    NvdFirst(t, us);
    NvdFirst(t, us');
    var ahead := Attempts(vs, ns);
    AttemptedItems(vs, ns);
    AddNvdsConcat(t.events, ahead, vs);
    ManyAhead(t.events, ahead, vs);
    var m := AttemptedRefs(t.refs, vs, ns);
    NvdRefsConcat(t.refs, ahead, vs);
    RedoPrefixRefs(t.refs, vs, m, |vs|);
    assert vs[..|vs|] == vs;
  }

  // ── The upserts as they run ──────────────────────────────────────────

  function CountIds(ids: seq<Option<string>>): nat {
    if ids == [] then 0 else CountIds(ids[..|ids| - 1]) + if HasId(ids[|ids| - 1]) then 1 else 0
  }

  class CveTables {
    var events: map<string, Cve>
    var refs: map<(string, string), RefRow>

    ghost function Contents(): Tables
      reads this
    {
      Tables(events, refs)
    }

    constructor ()
      ensures events == map[] && refs == map[]
    {
      events, refs := map[], map[];
    }

    method ReadVuln(v: Vuln) returns (row: Cve)
      ensures row == NvdRow(v)
    {
      var (score, severity) := CvssV3(v);
      var cpes := ExtractCpes(v.configurations);
      var vendor, product := VendorProductFromCpes(cpes);
      row := Cve(score, severity, CvssV2(v), v.published, v.lastModified, vendor, product, cpes,
                 EnglishDescription(v.descriptions), false, None, None, None, None, {NvdSource}, Some(v.raw), None);
    }

    method InsertReferences(id: string, references: seq<Reference>)
      modifies this`refs
      ensures refs == AddRefs(old(refs), id, references)
    {
      for i := 0 to |references|
        invariant refs == AddRefs(old(refs), id, references[..i])
      {
        assert references[..i + 1][..i] == references[..i];
        var r := references[i];
        if Truthy(r.url) && (id, r.url.value) !in refs {
          refs := refs[(id, r.url.value) := RefRow(r.source, r.tags)];
        }
      }
      assert references[..|references|] == references;
    }

    method UpsertCve(v: Vuln) returns (added: bool, updated: bool)
      modifies this
      ensures events == AddNvd(old(events), v) && refs == NvdRefs(old(refs), v)
      ensures added <==> HasId(v.id) && v.id.value !in old(events)
      ensures updated <==> HasId(v.id) && v.id.value in old(events)
    {
      hide NvdRow, MergeNvd;
      if v.id.None? || v.id.value == "" { return false, false; }
      var id := v.id.value;
      var row := ReadVuln(v);
      added := id !in events;
      events := events[id := if added then row else MergeNvd(events[id], row)];
      InsertReferences(id, v.references);
      return added, !added;
    }

    method UpsertKevItem(k: KevItem) returns (added: bool, updated: bool)
      modifies this`events
      ensures events == AddKev(old(events), k)
      ensures added <==> HasId(k.id) && k.id.value !in old(events)
      ensures updated <==> HasId(k.id) && k.id.value in old(events)
    {
      if k.id.None? || k.id.value == "" { return false, false; }
      var id := k.id.value;
      added := id !in events;
      events := events[id := if added then KevRow(k) else MergeKev(events[id], KevRow(k))];
      return added, !added;
    }

    /** The transaction of one NVD window: rows_added counts the new CVEs, rows_updated the other upserts. */
    method UpsertPage(page: seq<Vuln>) returns (added: nat, updated: nat)
      modifies this
      ensures events == AddNvds(old(events), page) && refs == NvdRefsAll(old(refs), page)
      ensures added == |events| - |old(events)|
      ensures added + updated == CountIds(seq(|page|, i requires 0 <= i < |page| => page[i].id))
    {
      hide AddNvd;
      added, updated := 0, 0;
      ghost var ids := seq(|page|, i requires 0 <= i < |page| => page[i].id);
      for n := 0 to |page|
        invariant events == AddNvds(old(events), page[..n]) && refs == NvdRefsAll(old(refs), page[..n])
        invariant added == |events| - |old(events)| && added + updated == CountIds(ids[..n])
      {
        assert page[..n + 1][..n] == page[..n] && ids[..n + 1][..n] == ids[..n];
        AddNvdGrows(events, page[n]);
        var a, u := UpsertCve(page[n]);
        added, updated := added + if a then 1 else 0, updated + if u then 1 else 0;
      }
      assert page[..|page|] == page && ids[..|ids|] == ids;
    }

    method UpsertCatalog(items: seq<KevItem>) returns (added: nat, updated: nat)
      modifies this`events
      ensures events == AddKevs(old(events), items)
      ensures added == |events| - |old(events)|
      ensures added + updated == CountIds(seq(|items|, i requires 0 <= i < |items| => items[i].id))
    {
      hide AddKev;
      added, updated := 0, 0;
      ghost var ids := seq(|items|, i requires 0 <= i < |items| => items[i].id);
      for n := 0 to |items|
        invariant events == AddKevs(old(events), items[..n])
        invariant added == |events| - |old(events)| && added + updated == CountIds(ids[..n])
      {
        assert items[..n + 1][..n] == items[..n] && ids[..n + 1][..n] == ids[..n];
        AddKevGrows(events, items[n]);
        var a, u := UpsertKevItem(items[n]);
        added, updated := added + if a then 1 else 0, updated + if u then 1 else 0;
      }
      assert items[..|items|] == items && ids[..|ids|] == ids;
    }
  }

  lemma AddNvdGrows(events: Events, v: Vuln)
    ensures |AddNvd(events, v)| == |events| + if HasId(v.id) && v.id.value !in events then 1 else 0
  {
    hide NvdRow, MergeNvd;
    if HasId(v.id) {
      assert AddNvd(events, v).Keys == events.Keys + {v.id.value};
    }
  }

  lemma AddKevGrows(events: Events, k: KevItem)
    ensures |AddKev(events, k)| == |events| + if HasId(k.id) && k.id.value !in events then 1 else 0
  {
    if HasId(k.id) {
      assert AddKev(events, k).Keys == events.Keys + {k.id.value};
    }
  }

}
