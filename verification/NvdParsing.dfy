/** How the NVD adapter reads one vulnerability: CPEs, vendor and product, description, CVSS. */
module NvdParsing {
  import opened Common
  import opened Text

  datatype CpeMatch = CpeMatch(criteria: Option<string>, vulnerable: bool)

  type Node = seq<CpeMatch>
  type Configuration = seq<Node>

  datatype Description = Description(lang: string, value: Option<string>)

  datatype Metric = Metric(primary: bool, score: Option<real>, severity: string)

  datatype Reference = Reference(url: Option<string>, source: Option<string>, tags: seq<string>)

  /** One entry of the response's "vulnerabilities"; absent keys are None or empty. */
  datatype Vuln = Vuln(
    id: Option<string>, published: Option<Time>, lastModified: Option<Time>,
    v31: seq<Metric>, v30: seq<Metric>, v2: seq<Metric>,
    configurations: seq<Configuration>, descriptions: seq<Description>, references: seq<Reference>, raw: string)

  // ── CPEs ─────────────────────────────────────────────────────────────

  predicate IsVulnerable(m: CpeMatch) {
    m.criteria.Some? && m.criteria.value != "" && m.vulnerable
  }

  function NodeCpes(node: Node): (cpes: seq<string>)
    ensures forall c :: c in cpes <==> exists m :: m in node && IsVulnerable(m) && m.criteria.value == c
  {
    if node == [] then []
    else
      var front, last := node[..|node| - 1], node[|node| - 1];
      assert forall m :: m in node <==> m in front || m == last;
      NodeCpes(front) + if IsVulnerable(last) then [last.criteria.value] else []
  }

  function ConfigurationCpes(cfg: Configuration): seq<string> {
    if cfg == [] then [] else ConfigurationCpes(cfg[..|cfg| - 1]) + NodeCpes(cfg[|cfg| - 1])
  }

  function AllCpes(cfgs: seq<Configuration>): seq<string> {
    if cfgs == [] then [] else AllCpes(cfgs[..|cfgs| - 1]) + ConfigurationCpes(cfgs[|cfgs| - 1])
  }

  /** A vulnerable criterion somewhere in the configurations. */
  ghost predicate ListsCpe(cfgs: seq<Configuration>, c: string) {
    exists i, j :: 0 <= i < |cfgs| && 0 <= j < |cfgs[i]| && NodeLists(cfgs[i][j], c)
  }

  ghost predicate NodeLists(node: Node, c: string) {
    exists m :: m in node && m.criteria == Some(c) && c != "" && m.vulnerable
  }

  lemma {:induction false} ConfigurationCpesIff(cfg: Configuration, c: string)
    ensures c in ConfigurationCpes(cfg) <==> exists j :: 0 <= j < |cfg| && NodeLists(cfg[j], c)
  {
    if cfg != [] {
      var n := |cfg| - 1;
      ConfigurationCpesIff(cfg[..n], c);
      assert forall j :: 0 <= j < n ==> cfg[..n][j] == cfg[j];
      assert c in NodeCpes(cfg[n]) <==> NodeLists(cfg[n], c);
      hide NodeLists, NodeCpes;
    }
  }

  /** Exactly the vulnerable criteria are collected, and in order: configurations one after another, nodes within them. */
  lemma {:induction false} AllCpesIff(cfgs: seq<Configuration>, c: string)
    ensures c in AllCpes(cfgs) <==> ListsCpe(cfgs, c)
  {
    if cfgs != [] {
      hide *;
      var front, last := cfgs[..|cfgs| - 1], cfgs[|cfgs| - 1];
      AllCpesIff(front, c);
      ConfigurationCpesIff(last, c);
      AllCpesStep(front, last);
      ListsCpeStep(front, last, c);
      assert cfgs == front + [last];
    }
  }

  lemma ListsCpeStep(front: seq<Configuration>, last: Configuration, c: string)
    ensures ListsCpe(front + [last], c) <==> ListsCpe(front, c) || exists j :: 0 <= j < |last| && NodeLists(last[j], c)
  {
    var cfgs := front + [last];
    hide NodeLists;
    assert cfgs[|front|] == last && forall i :: 0 <= i < |front| ==> cfgs[i] == front[i];
  }

  lemma {:induction false} AllCpesInOrder(a: seq<Configuration>, b: seq<Configuration>)
    ensures AllCpes(a + b) == AllCpes(a) + AllCpes(b)
  {
    if b == [] {
      assert a + b == a;
    } else {
      hide *;
      var front, last := b[..|b| - 1], b[|b| - 1];
      AllCpesInOrder(a, front);
      AllCpesStep(a + front, last);
      AllCpesStep(front, last);
      assert b == front + [last];
      ConcatAssociates(a, front, [last]);
      ConcatAssociates(AllCpes(a), AllCpes(front), ConfigurationCpes(last));
    }
  }

  lemma ConcatAssociates<T>(a: seq<T>, b: seq<T>, c: seq<T>)
    ensures a + b + c == a + (b + c)
  {
  }

  lemma AllCpesStep(cfgs: seq<Configuration>, last: Configuration)
    ensures AllCpes(cfgs + [last]) == AllCpes(cfgs) + ConfigurationCpes(last)
  {
    assert (cfgs + [last])[..|cfgs|] == cfgs;
    hide ConfigurationCpes;
  }

  lemma {:induction false} NodesInOrder(a: Configuration, b: Configuration)
    ensures AllCpes([a + b]) == AllCpes([a]) + AllCpes([b])
  {
    assert [a + b][..0] == [] && [a][..0] == [] && [b][..0] == [];
    ConfigurationInOrder(a, b);
  }

  lemma {:induction false} ConfigurationInOrder(a: Configuration, b: Configuration)
    ensures ConfigurationCpes(a + b) == ConfigurationCpes(a) + ConfigurationCpes(b)
  {
    if b == [] {
      assert a + b == a;
    } else {
      hide *;
      var front, last := b[..|b| - 1], b[|b| - 1];
      ConfigurationInOrder(a, front);
      ConfigurationStep(a + front, last);
      ConfigurationStep(front, last);
      assert b == front + [last];
      ConcatAssociates(a, front, [last]);
      ConcatAssociates(ConfigurationCpes(a), ConfigurationCpes(front), NodeCpes(last));
    }
  }

  lemma ConfigurationStep(cfg: Configuration, last: Node)
    ensures ConfigurationCpes(cfg + [last]) == ConfigurationCpes(cfg) + NodeCpes(last)
  {
    assert (cfg + [last])[..|cfg|] == cfg;
    hide NodeCpes;
  }

  /** Python's `list(dict.fromkeys(s))`. */
  function Dedupe(s: seq<string>): (r: seq<string>)
    ensures forall x :: x in r <==> x in s
  {
    if s == [] then []
    else
      var front, last := s[..|s| - 1], s[|s| - 1];
      assert forall x :: x in s <==> x in front || x == last;
      if last in front then Dedupe(front) else Dedupe(front) + [last]
  }

  ghost predicate FirstAt(s: seq<string>, x: string, k: nat) {
    k < |s| && s[k] == x && x !in s[..k]
  }

  /** Deduplication keeps each string once, in the order of first occurrence. */
  lemma {:induction false} DedupeOrder(s: seq<string>, i: nat, j: nat, k: nat, l: nat)
    requires i < j < |Dedupe(s)|
    requires FirstAt(s, Dedupe(s)[i], k) && FirstAt(s, Dedupe(s)[j], l)
    ensures Dedupe(s)[i] != Dedupe(s)[j] && k < l
  {
    var front, last := s[..|s| - 1], s[|s| - 1];
    var d := Dedupe(front);
    if j < |d| {
      assert d[i] in front && d[j] in front;
      assert k < |front| && l < |front|;
      assert s[..k] == front[..k] && s[..l] == front[..l];
      DedupeOrder(front, i, j, k, l);
    } else {
      assert Dedupe(s)[j] == last && d[i] in front;
      assert s[..|s| - 1] == front;
    }
  }

  method DedupeInOrder(s: seq<string>) returns (r: seq<string>)
    ensures r == Dedupe(s)
  {
    r := [];
    for i := 0 to |s|
      invariant r == Dedupe(s[..i])
    {
      assert s[..i + 1][..i] == s[..i];
      if s[i] !in r { r := r + [s[i]]; }
    }
    assert s[..|s|] == s;
  }

  method ExtractCpes(cfgs: seq<Configuration>) returns (cpes: seq<string>)
    ensures cpes == Dedupe(AllCpes(cfgs))
  {
    hide Dedupe;
    var out: seq<string> := [];
    for i := 0 to |cfgs|
      invariant out == AllCpes(cfgs[..i])
    {
      assert cfgs[..i + 1][..i] == cfgs[..i];
      var cfg := cfgs[i];
      ghost var before := out;
      for j := 0 to |cfg|
        invariant out == before + ConfigurationCpes(cfg[..j])
      {
        assert cfg[..j + 1][..j] == cfg[..j];
        var node := cfg[j];
        ghost var before' := out;
        for k := 0 to |node|
          invariant out == before' + NodeCpes(node[..k])
        {
          assert node[..k + 1][..k] == node[..k];
          if IsVulnerable(node[k]) { out := out + [node[k].criteria.value]; }
        }
        assert node[..|node|] == node;
      }
      assert cfg[..|cfg|] == cfg;
    }
    assert cfgs[..|cfgs|] == cfgs;
    cpes := DedupeInOrder(out);
  }

  // ── Vendor and product ───────────────────────────────────────────────

  function Starred(part: string): Option<string> {
    if part != "*" then Some(part) else None
  }

  /** `vendor or product`: Python takes the empty string for false. */
  predicate Truthy(s: Option<string>) { s.Some? && s.value != "" }

  function CpeNames(cpe: string): (Option<string>, Option<string>) {
    var parts := Split(cpe, ':');
    if |parts| >= 5 && parts[0] == "cpe" then (Starred(parts[3]), Starred(parts[4])) else (None, None)
  }

  predicate Usable(cpe: string) {
    Truthy(CpeNames(cpe).0) || Truthy(CpeNames(cpe).1)
  }

  function VendorProduct(cpes: seq<string>): (Option<string>, Option<string>) {
    if cpes == [] then (None, None)
    else if Usable(cpes[0]) then CpeNames(cpes[0])
    else VendorProduct(cpes[1..])
  }

  method VendorProductFromCpes(cpes: seq<string>) returns (vendor: Option<string>, product: Option<string>)
    ensures (vendor, product) == VendorProduct(cpes)
    ensures (forall i :: 0 <= i < |cpes| ==> !Usable(cpes[i])) ==> vendor == None && product == None
    ensures forall i :: 0 <= i < |cpes| && Usable(cpes[i]) && (forall j :: 0 <= j < i ==> !Usable(cpes[j])) ==>
              (vendor, product) == CpeNames(cpes[i])
  {
    for i := 0 to |cpes|
      invariant forall j :: 0 <= j < i ==> !Usable(cpes[j])
      invariant VendorProduct(cpes) == VendorProduct(cpes[i..])
    {
      assert cpes[i..][1..] == cpes[i + 1..];
      var parts := Split(cpes[i], ':');
      if |parts| >= 5 && parts[0] == "cpe" {
        vendor := if parts[3] != "*" then Some(parts[3]) else None;
        product := if parts[4] != "*" then Some(parts[4]) else None;
        if Truthy(vendor) || Truthy(product) { return; }
      }
    }
    return None, None;
  }

  function CpeName(part: string, vendor: string, product: string, rest: string): string {
    "cpe:2.3:" + (part + ":" + (vendor + ":" + (product + ":" + rest)))
  }

  /** A CPE 2.3 name whose fields hold no colon gives its vendor and product back. */
  lemma CpeNamesItsVendor(part: string, vendor: string, product: string, rest: string)
    requires ':' !in part && ':' !in vendor && ':' !in product
    ensures CpeNames(CpeName(part, vendor, product, rest)) == (Starred(vendor), Starred(product))
  {
    hide Split;
    var s4 := product + ":" + rest;
    var s3 := vendor + ":" + s4;
    var s2 := part + ":" + s3;
    SplitFirst(product, rest, ':');
    SplitFirst(vendor, s4, ':');
    SplitFirst(part, s3, ':');
    SplitFirst("2.3", s2, ':');
    SplitFirst("cpe", "2.3:" + s2, ':');
    assert "cpe" + [':'] + ("2.3:" + s2) == CpeName(part, vendor, product, rest);
    assert "2.3" + [':'] + s2 == "2.3:" + s2;
  }

  // ── Description and CVSS ─────────────────────────────────────────────

  function EnglishDescription(ds: seq<Description>): Option<string> {
    if ds == [] then None
    else if ds[0].lang == "en" then ds[0].value
    else EnglishDescription(ds[1..])
  }

  function SeverityFromScore(score: Option<real>): (severity: Option<string>)
    ensures severity.None? <==> score.None?
  {
    if score.None? then None
    else if score.value >= 9.0 then Some("CRITICAL")
    else if score.value >= 7.0 then Some("HIGH")
    else if score.value >= 4.0 then Some("MEDIUM")
    else if score.value > 0.0 then Some("LOW")
    else Some("NONE")
  }

  /** `next((x for x in items if x is primary), items[0])`, with the default passed along. */
  function PrimaryOr(items: seq<Metric>, default: Metric): Metric {
    if items == [] then default
    else if items[0].primary then items[0]
    else PrimaryOr(items[1..], default)
  }

  function MetricSeverity(m: Metric): Option<string> {
    if m.severity != "" then Some(Upper(m.severity)) else SeverityFromScore(m.score)
  }

  /** CVSS 3.1 metrics hide CVSS 3.0 ones, even when they have no score. */
  function CvssV3(v: Vuln): (Option<real>, Option<string>) {
    var items := if v.v31 != [] then v.v31 else v.v30;
    if items == [] then (None, None)
    else
      var m := PrimaryOr(items, items[0]);
      (m.score, MetricSeverity(m))
  }

  function CvssV2(v: Vuln): Option<real> {
    if v.v2 == [] then None else v.v2[0].score
  }

  // ── What the readers find ────────────────────────────────────────────

  /** The first English entry, even if it has no value. */
  lemma {:induction false} FirstEnglish(ds: seq<Description>, i: nat)
    ensures (forall j :: 0 <= j < |ds| ==> ds[j].lang != "en") ==> EnglishDescription(ds) == None
    ensures i < |ds| && ds[i].lang == "en" && (forall j :: 0 <= j < i ==> ds[j].lang != "en") ==>
              EnglishDescription(ds) == ds[i].value
  {
    if ds != [] && ds[0].lang != "en" {
      FirstEnglish(ds[1..], if i > 0 then i - 1 else 0);
    }
  }

  lemma {:induction false} PrimaryIsFirst(items: seq<Metric>, default: Metric, i: nat)
    ensures (forall j :: 0 <= j < |items| ==> !items[j].primary) ==> PrimaryOr(items, default) == default
    ensures i < |items| && items[i].primary && (forall j :: 0 <= j < i ==> !items[j].primary) ==>
              PrimaryOr(items, default) == items[i]
  {
    if items != [] && !items[0].primary {
      PrimaryIsFirst(items[1..], default, if i > 0 then i - 1 else 0);
    }
  }

  /** The metric that counts: the first primary one, or the first if none is. */
  ghost predicate Counts(items: seq<Metric>, i: int) {
    && 0 <= i < |items|
    && (items[i].primary ==> forall j :: 0 <= j < i ==> !items[j].primary)
    && (!items[i].primary ==> i == 0 && forall j :: 0 <= j < |items| ==> !items[j].primary)
  }

  lemma {:induction false} SomethingCounts(items: seq<Metric>) returns (i: int)
    requires items != []
    ensures Counts(items, i)
  {
    if n: nat :| n < |items| && items[n].primary {
      i := FirstPrimary(items, n);
    } else {
      i := 0;
    }
  }

  lemma {:induction false} FirstPrimary(items: seq<Metric>, n: nat) returns (i: nat)
    requires n < |items| && items[n].primary
    ensures i <= n && items[i].primary && forall j :: 0 <= j < i ==> !items[j].primary
  {
    if m: nat :| m < n && items[m].primary { i := FirstPrimary(items, m); } else { i := n; }
  }

  /**
    The score and the severity are those of the metric that counts, of CVSS 3.1 if it has any and
    else of CVSS 3.0; a severity that is not given is the score's band.
   */
  lemma CvssReads(v: Vuln, i: int)
    ensures v.v31 == [] && v.v30 == [] ==> CvssV3(v) == (None, None)
    ensures var items := if v.v31 != [] then v.v31 else v.v30;
            Counts(items, i) ==>
              && CvssV3(v).0 == items[i].score
              && (items[i].severity != "" ==> CvssV3(v).1 == Some(Upper(items[i].severity)))
              && (items[i].severity == "" && items[i].score.None? ==> CvssV3(v).1.None?)
              && (items[i].severity == "" && items[i].score.Some? ==>
                    var x := items[i].score.value;
                    && (CvssV3(v).1 == Some("CRITICAL") <==> x >= 9.0)
                    && (CvssV3(v).1 == Some("HIGH") <==> 7.0 <= x < 9.0)
                    && (CvssV3(v).1 == Some("MEDIUM") <==> 4.0 <= x < 7.0)
                    && (CvssV3(v).1 == Some("LOW") <==> 0.0 < x < 4.0)
                    && (CvssV3(v).1 == Some("NONE") <==> x <= 0.0))
  {
    var items := if v.v31 != [] then v.v31 else v.v30;
    if Counts(items, i) {
      PrimaryIsFirst(items, items[0], i);
      BandNamesDiffer();
    }
    hide Upper, PrimaryOr;
  }

  lemma BandNamesDiffer()
    ensures "CRITICAL" != "HIGH" && "CRITICAL" != "MEDIUM" && "CRITICAL" != "LOW" && "CRITICAL" != "NONE"
    ensures "HIGH" != "MEDIUM" && "HIGH" != "LOW" && "HIGH" != "NONE"
    ensures "MEDIUM" != "LOW" && "MEDIUM" != "NONE" && "LOW" != "NONE"
  {
    assert "LOW"[0] != "HIGH"[0] && "LOW"[0] != "NONE"[0];
    assert "HIGH"[0] != "NONE"[0];
  }

}
