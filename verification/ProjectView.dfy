/** The vulnerability list of a project page: the newest SBOM of each service, one entry per CVE,
    and for each entry the scopes in which it can be accepted. */
module ProjectView {
  import opened Store

  datatype SbomRow = SbomRow(id: SbomId, service: Option<ServiceId>, created: Time)

  /** One joined row per actionable open link. */
  datatype FindingRow = FindingRow(sbom: SbomId, purl: Purl, cve: CveId, cvss: Option<real>)

  datatype Scope = Scope(service: Option<ServiceId>, name: string)

  datatype Entry = Entry(cve: CveId, cvss: Option<real>, purl: Purl, scopes: seq<Scope>)

  /* ----- the newest SBOM per service ----- */

  ghost predicate Newest(rows: seq<SbomRow>, service: Option<ServiceId>, id: SbomId, created: Time) {
    && SbomRow(id, service, created) in rows
    && forall r :: r in rows && r.service == service ==> r.created <= created
  }

  /** For rows in any order: one SBOM per service that occurs, with the greatest creation date. */
  method PickLatest(rows: seq<SbomRow>) returns (latest: map<Option<ServiceId>, (SbomId, Time)>)
    ensures forall s :: s in latest <==> exists r :: r in rows && r.service == s
    ensures forall s :: s in latest ==> Newest(rows, s, latest[s].0, latest[s].1)
  {
    latest := map[];
    for i := 0 to |rows|
      invariant forall s :: s in latest <==> exists r :: r in rows[..i] && r.service == s
      invariant forall s :: s in latest ==> Newest(rows[..i], s, latest[s].0, latest[s].1)
    {
      var row := rows[i];
      assert rows[..i + 1] == rows[..i] + [row];
      if row.service !in latest || row.created > latest[row.service].1 {
        latest := latest[row.service := (row.id, row.created)];
      }
    }
    assert rows[..|rows|] == rows;
  }

  /* ----- names ----- */

  /** Lexicographic order of names. */
  predicate NameLeq(a: string, b: string) {
    a == [] || (b != [] && (a[0] < b[0] || (a[0] == b[0] && NameLeq(a[1..], b[1..]))))
  }

  lemma {:induction false} NamesTotal(a: string, b: string)
    ensures NameLeq(a, b) || NameLeq(b, a)
  {
    if a != [] && b != [] && a[0] == b[0] {
      NamesTotal(a[1..], b[1..]);
    }
  }

  lemma {:induction false} NamesTransitive(a: string, b: string, c: string)
    requires NameLeq(a, b) && NameLeq(b, c)
    ensures NameLeq(a, c)
  {
    if a != [] && a[0] == b[0] && b[0] == c[0] {
      NamesTransitive(a[1..], b[1..], c[1..]);
    }
  }

  /** This is the order of dictionaries: `a` is a prefix of `b`, or smaller where they first differ. */
  lemma {:induction false} NameLeqMeans(a: string, b: string)
    ensures NameLeq(a, b) <==> a <= b || exists i :: 0 <= i < |a| && i < |b| && a[..i] == b[..i] && a[i] < b[i]
  {
    if a != [] && b != [] {
      NameLeqMeans(a[1..], b[1..]);
      assert a == [a[0]] + a[1..] && b == [b[0]] + b[1..];
      if a[0] == b[0] {
        if i :| 0 <= i < |a[1..]| && i < |b[1..]| && a[1..][..i] == b[1..][..i] && a[1..][i] < b[1..][i] {
          assert a[..i + 1] == [a[0]] + a[1..][..i] && b[..i + 1] == [b[0]] + b[1..][..i];
          assert a[i + 1] < b[i + 1];
        }
        if i :| 0 <= i < |a| && i < |b| && a[..i] == b[..i] && a[i] < b[i] {
          assert a[1..][..i - 1] == a[..i][1..] && b[1..][..i - 1] == b[..i][1..];
        }
      } else if a[0] < b[0] {
        assert a[..0] == b[..0];
      } else {
        assert forall i :: 0 < i < |a| && i < |b| ==> a[..i][0] != b[..i][0];
      }
    }
  }

  /** The whole-project scope before any service, services by name. */
  predicate ScopeLeq(a: Scope, b: Scope) {
    a.name == "" || (b.name != "" && NameLeq(a.name, b.name))
  }

  ghost predicate Sorted(scopes: seq<Scope>) {
    forall i, j :: 0 <= i < j < |scopes| ==> ScopeLeq(scopes[i], scopes[j])
  }

  lemma ScopesTransitive(a: Scope, b: Scope, c: Scope)
    requires ScopeLeq(a, b) && ScopeLeq(b, c)
    ensures ScopeLeq(a, c)
  {
    if a.name != "" {
      NamesTransitive(a.name, b.name, c.name);
    }
  }

  method InsertScope(scopes: seq<Scope>, x: Scope) returns (out: seq<Scope>)
    requires Sorted(scopes)
    ensures Sorted(out) && multiset(out) == multiset(scopes) + multiset{x}
  {
    var i := 0;
    while i < |scopes| && ScopeLeq(scopes[i], x)
      invariant 0 <= i <= |scopes|
      invariant forall j :: 0 <= j < i ==> ScopeLeq(scopes[j], x)
    {
      i := i + 1;
    }
    out := scopes[..i] + [x] + scopes[i..];
    assert scopes == scopes[..i] + scopes[i..];
    forall j | i <= j < |scopes|
      ensures ScopeLeq(x, scopes[j])
    {
      NamesTotal(scopes[i].name, x.name);
      if i < j {
        ScopesTransitive(x, scopes[i], scopes[j]);
      }
    }
  }

  /** The values of a bucket in display order. */
  method SortedScopes(bucket: map<Option<ServiceId>, string>) returns (scopes: seq<Scope>)
    ensures Sorted(scopes)
    ensures forall sc: Scope ::
        multiset(scopes)[sc] == if sc.service in bucket && bucket[sc.service] == sc.name then 1 else 0
  {
    scopes := [];
    var todo := bucket.Keys;
    while todo != {}
      invariant todo <= bucket.Keys && Sorted(scopes)
      invariant forall sc: Scope :: multiset(scopes)[sc] ==
                  if sc.service in bucket && sc.service !in todo && bucket[sc.service] == sc.name then 1 else 0
      decreases todo
    {
      var s :| s in todo;
      scopes := InsertScope(scopes, Scope(s, bucket[s]));
      todo := todo - {s};
    }
  }

  /* ----- the list ----- */

  /** Non-increasing score, missing scores last: the order of the query. */
  predicate ScoreGeq(a: Option<real>, b: Option<real>) {
    b.None? || (a.Some? && a.value >= b.value)
  }

  ghost predicate ByScore(rows: seq<FindingRow>) {
    forall i, j :: 0 <= i < j < |rows| ==> ScoreGeq(rows[i].cvss, rows[j].cvss)
  }

  /** The services whose newest SBOM carries `c`. */
  ghost predicate Carries(rows: seq<FindingRow>, svcOf: map<SbomId, ServiceId>, c: CveId, v: ServiceId) {
    exists r :: r in rows && r.cve == c && r.sbom in svcOf && svcOf[r.sbom] == v
  }

  /** The bucket of a CVE: the whole project always, and the services that carry it. */
  ghost predicate BucketOf(rows: seq<FindingRow>, svcOf: map<SbomId, ServiceId>, names: map<ServiceId, string>,
                           c: CveId, bucket: map<Option<ServiceId>, string>)
    requires svcOf.Values <= names.Keys
  {
    && None in bucket && bucket[None] == ""
    && forall v: ServiceId ::
        (Some(v) in bucket <==> Carries(rows, svcOf, c, v))
            && (Some(v) in bucket ==> v in names && bucket[Some(v)] == names[v])
  }

  function CvesIn(rows: seq<FindingRow>): set<CveId> {
    set r | r in rows :: r.cve
  }

  ghost predicate Mentions(rows: seq<FindingRow>, c: CveId) {
    c in CvesIn(rows)
  }

  /** `e` is the first row of its CVE. */
  ghost predicate FirstOfCve(rows: seq<FindingRow>, e: FindingRow) {
    exists i :: 0 <= i < |rows| && rows[i] == e && forall j :: 0 <= j < i ==> rows[j].cve != e.cve
  }

  /** The first row of every CVE, in order. */
  function Firsts(rows: seq<FindingRow>): seq<FindingRow> {
    if rows == [] then []
    else
      var init, last := rows[..|rows| - 1], rows[|rows| - 1];
      if last.cve in CvesIn(init) then Firsts(init) else Firsts(init) + [last]
  }

  lemma OneMoreCve(rows: seq<FindingRow>, row: FindingRow)
    ensures CvesIn(rows + [row]) == CvesIn(rows) + {row.cve}
  {
  }

  lemma {:induction false} FirstsHaveAll(rows: seq<FindingRow>)
    ensures CvesIn(Firsts(rows)) == CvesIn(rows)
  {
    if rows != [] {
      var init, last := rows[..|rows| - 1], rows[|rows| - 1];
      FirstsHaveAll(init);
      OneMoreCve(init, last);
      OneMoreCve(Firsts(init), last);
      assert init + [last] == rows;
    }
  }

  lemma StaysFirst(rows: seq<FindingRow>, row: FindingRow, e: FindingRow)
    requires FirstOfCve(rows, e) || (e == row && e.cve !in CvesIn(rows))
    ensures FirstOfCve(rows + [row], e)
  {
    var more := rows + [row];
    assert forall j :: 0 <= j < |rows| ==> more[j] == rows[j] && rows[j].cve in CvesIn(rows);
    if FirstOfCve(rows, e) {
      var i :| 0 <= i < |rows| && rows[i] == e && forall j :: 0 <= j < i ==> rows[j].cve != e.cve;
      assert more[i] == e;
    } else {
      assert more[|rows|] == e;
    }
  }

  lemma {:induction false} FirstsAreFirst(rows: seq<FindingRow>, e: FindingRow)
    requires e in Firsts(rows)
    ensures FirstOfCve(rows, e)
  {
    var init, last := rows[..|rows| - 1], rows[|rows| - 1];
    if e in Firsts(init) {
      FirstsAreFirst(init, e);
    }
    StaysFirst(init, last, e);
    assert init + [last] == rows;
  }

  lemma {:induction false} FirstsAreDistinct(rows: seq<FindingRow>)
    ensures forall i, j :: 0 <= i < j < |Firsts(rows)| ==> Firsts(rows)[i].cve != Firsts(rows)[j].cve
  {
    if rows != [] {
      var init := rows[..|rows| - 1];
      FirstsAreDistinct(init);
      FirstsHaveAll(init);
      assert forall i :: 0 <= i < |Firsts(init)| ==> Firsts(init)[i].cve in CvesIn(Firsts(init));
    }
  }

  lemma {:induction false} FirstsByScore(rows: seq<FindingRow>)
    requires ByScore(rows)
    ensures ByScore(Firsts(rows))
  {
    if rows != [] {
      var init, last := rows[..|rows| - 1], rows[|rows| - 1];
      assert ByScore(init);
      FirstsByScore(init);
      forall e | e in Firsts(init)
        ensures ScoreGeq(e.cvss, last.cvss)
      {
        FirstsAreFirst(init, e);
        var i :| 0 <= i < |init| && init[i] == e;
        assert rows[i] == e;
      }
      assert forall i :: 0 <= i < |Firsts(init)| ==> Firsts(init)[i] in Firsts(init);
    }
  }

  ghost predicate BucketsFit(rows: seq<FindingRow>, svcOf: map<SbomId, ServiceId>, names: map<ServiceId, string>,
                          buckets: map<CveId, map<Option<ServiceId>, string>>)
    requires svcOf.Values <= names.Keys
  {
    && buckets.Keys == CvesIn(rows)
    && (forall c :: c in buckets ==> BucketOf(rows, svcOf, names, c, buckets[c]))
  }

  function WithService(bucket: map<Option<ServiceId>, string>, svcOf: map<SbomId, ServiceId>,
                       names: map<ServiceId, string>, row: FindingRow): map<Option<ServiceId>, string>
    requires svcOf.Values <= names.Keys
  {
    if row.sbom in svcOf then
      assert svcOf[row.sbom] in svcOf.Values;
      bucket[Some(svcOf[row.sbom]) := names[svcOf[row.sbom]]]
    else bucket
  }

  /** The bucket of the row's CVE, new with the whole project if need be, and with the row's service. */
  function WithRow(buckets: map<CveId, map<Option<ServiceId>, string>>, svcOf: map<SbomId, ServiceId>,
                   names: map<ServiceId, string>, row: FindingRow): map<CveId, map<Option<ServiceId>, string>>
    requires svcOf.Values <= names.Keys
  {
    var bucket := if row.cve in buckets then buckets[row.cve] else map[None := ""];
    buckets[row.cve := WithService(bucket, svcOf, names, row)]
  }

  lemma CarriesGrow(rows: seq<FindingRow>, svcOf: map<SbomId, ServiceId>, row: FindingRow, c: CveId, v: ServiceId)
    ensures Carries(rows + [row], svcOf, c, v)
            <==> Carries(rows, svcOf, c, v) || (row.cve == c && row.sbom in svcOf && svcOf[row.sbom] == v)
  {
    if r :| r in rows && r.cve == c && r.sbom in svcOf && svcOf[r.sbom] == v {
      assert r in rows + [row];
    }
    assert row in rows + [row];
  }

  lemma OtherBucket(rows: seq<FindingRow>, svcOf: map<SbomId, ServiceId>, names: map<ServiceId, string>,
                    row: FindingRow, c: CveId, bucket: map<Option<ServiceId>, string>)
    requires svcOf.Values <= names.Keys && c != row.cve && BucketOf(rows, svcOf, names, c, bucket)
    ensures BucketOf(rows + [row], svcOf, names, c, bucket)
  {
    forall v: ServiceId {
      CarriesGrow(rows, svcOf, row, c, v);
    }
  }

  lemma OwnBucket(rows: seq<FindingRow>, svcOf: map<SbomId, ServiceId>, names: map<ServiceId, string>,
                  row: FindingRow, bucket: map<Option<ServiceId>, string>)
    requires svcOf.Values <= names.Keys
    requires BucketOf(rows, svcOf, names, row.cve, bucket) || (row.cve !in CvesIn(rows) && bucket == map[None := ""])
    ensures BucketOf(rows + [row], svcOf, names, row.cve, WithService(bucket, svcOf, names, row))
  {
    forall v: ServiceId {
      CarriesGrow(rows, svcOf, row, row.cve, v);
    }
    assert forall r :: r in rows ==> r.cve in CvesIn(rows);
  }

  lemma BucketsGrow(rows: seq<FindingRow>, svcOf: map<SbomId, ServiceId>, names: map<ServiceId, string>,
                    buckets: map<CveId, map<Option<ServiceId>, string>>, row: FindingRow)
    requires svcOf.Values <= names.Keys && BucketsFit(rows, svcOf, names, buckets)
    ensures BucketsFit(rows + [row], svcOf, names, WithRow(buckets, svcOf, names, row))
  {
    OneMoreCve(rows, row);
    OwnBucket(rows, svcOf, names, row, if row.cve in buckets then buckets[row.cve] else map[None := ""]);
    forall c | c in buckets && c != row.cve {
      OtherBucket(rows, svcOf, names, row, c, buckets[c]);
    }
  }

  function BucketsOf(rows: seq<FindingRow>, svcOf: map<SbomId, ServiceId>, names: map<ServiceId, string>)
    : map<CveId, map<Option<ServiceId>, string>>
    requires svcOf.Values <= names.Keys
  {
    if rows == [] then map[]
    else WithRow(BucketsOf(rows[..|rows| - 1], svcOf, names), svcOf, names, rows[|rows| - 1])
  }

  lemma {:induction false} BucketsOfFit(rows: seq<FindingRow>, svcOf: map<SbomId, ServiceId>,
                                        names: map<ServiceId, string>)
    requires svcOf.Values <= names.Keys
    ensures BucketsFit(rows, svcOf, names, BucketsOf(rows, svcOf, names))
  {
    if rows != [] {
      var init, last := rows[..|rows| - 1], rows[|rows| - 1];
      BucketsOfFit(init, svcOf, names);
      BucketsGrow(init, svcOf, names, BucketsOf(init, svcOf, names), last);
      assert init + [last] == rows;
    }
  }

  /** What the page shows for one entry: the whole-project scope first, then exactly the services
      whose newest SBOM carries the CVE, by name. */
  ghost predicate ScopesRight(rows: seq<FindingRow>, svcOf: map<SbomId, ServiceId>, names: map<ServiceId, string>,
                              c: CveId, scopes: seq<Scope>)
    requires svcOf.Values <= names.Keys
  {
    && scopes != [] && scopes[0] == Scope(None, "")
    && Sorted(scopes)
    && (forall i, j :: 0 <= i < j < |scopes| ==> scopes[i] != scopes[j])
    && (forall v: ServiceId :: Carries(rows, svcOf, c, v) <==>
        exists i :: 1 <= i < |scopes| && scopes[i].service == Some(v))
    && (forall i :: 1 <= i < |scopes| ==>
          && scopes[i].service.Some? && scopes[i].service.value in names
          && scopes[i].name == names[scopes[i].service.value])
  }

  lemma CountedOnce(scopes: seq<Scope>, i: nat, j: nat)
    requires i < j < |scopes| && forall sc: Scope :: multiset(scopes)[sc] <= 1
    ensures scopes[i] != scopes[j]
  {
    assert scopes == scopes[..i] + [scopes[i]] + scopes[i + 1..j] + [scopes[j]] + scopes[j + 1..];
    assert scopes[i] == scopes[j] ==> multiset(scopes)[scopes[i]] >= 2;
  }

  lemma BucketShown(rows: seq<FindingRow>, svcOf: map<SbomId, ServiceId>, names: map<ServiceId, string>,
                    c: CveId, bucket: map<Option<ServiceId>, string>, scopes: seq<Scope>)
    requires svcOf.Values <= names.Keys && BucketOf(rows, svcOf, names, c, bucket)
    requires forall v :: v in names ==> names[v] != ""
    requires Sorted(scopes)
    requires forall sc: Scope ::
        multiset(scopes)[sc] == if sc.service in bucket && bucket[sc.service] == sc.name then 1 else 0
    ensures ScopesRight(rows, svcOf, names, c, scopes)
  {
    var whole := Scope(None, "");
    assert multiset(scopes)[whole] == 1;
    assert whole in multiset(scopes) && whole in scopes;
    forall i | 0 <= i < |scopes|
      ensures scopes[i].service in bucket && bucket[scopes[i].service] == scopes[i].name
    {
      assert scopes[i] in multiset(scopes);
    }
    forall i, j | 0 <= i < j < |scopes| ensures scopes[i] != scopes[j] {
      CountedOnce(scopes, i, j);
    }
    var at :| 0 <= at < |scopes| && scopes[at] == whole;
    assert at == 0 || ScopeLeq(scopes[0], scopes[at]);
    assert scopes[0].service in bucket;
    assert scopes[0].name == "" && scopes[0].service == None;
    forall v: ServiceId | Carries(rows, svcOf, c, v)
      ensures exists i :: 1 <= i < |scopes| && scopes[i].service == Some(v)
    {
      var sc := Scope(Some(v), names[v]);
      assert multiset(scopes)[sc] == 1;
      assert sc in multiset(scopes) && sc in scopes;
      var i :| 0 <= i < |scopes| && scopes[i] == sc;
    }
  }

  ghost predicate Listed(entries: seq<Entry>, c: CveId) {
    exists i :: 0 <= i < |entries| && entries[i].cve == c
  }

  /** The entry shows score and package of the first row of its CVE. */
  ghost predicate ShowsFirst(rows: seq<FindingRow>, e: Entry) {
    exists r :: FirstOfCve(rows, r) && r.cve == e.cve && r.cvss == e.cvss && r.purl == e.purl
  }

  /** Every CVE of the rows exactly once, best score first, from its first row and with its scopes. */
  ghost predicate ListsRight(rows: seq<FindingRow>, svcOf: map<SbomId, ServiceId>, names: map<ServiceId, string>,
                             entries: seq<Entry>)
    requires svcOf.Values <= names.Keys
  {
    && (forall c :: Mentions(rows, c) <==> Listed(entries, c))
    && (forall i, j :: 0 <= i < j < |entries| ==> entries[i].cve != entries[j].cve)
    && (forall i, j :: 0 <= i < j < |entries| ==> ScoreGeq(entries[i].cvss, entries[j].cvss))
    && (forall i :: 0 <= i < |entries| ==>
          && ShowsFirst(rows, entries[i])
          && ScopesRight(rows, svcOf, names, entries[i].cve, entries[i].scopes))
  }

  /** The three loops of the page: every actionable CVE of the newest SBOMs exactly once, in the
      order of the query, each with the scopes it can be accepted in. `rows` is the query result,
      ordered by score; rows of equal score come in any order. */
  method ListVulnerabilities(rows: seq<FindingRow>, svcOf: map<SbomId, ServiceId>, names: map<ServiceId, string>)
    returns (entries: seq<Entry>)
    requires ByScore(rows)
    requires svcOf.Values <= names.Keys && forall v :: v in names ==> names[v] != ""
    ensures ListsRight(rows, svcOf, names, entries)
  {
    var buckets, firsts := CollectRows(rows, svcOf, names);
    entries := [];
    for i := 0 to |firsts|
      invariant |entries| == i
      invariant forall j :: 0 <= j < i ==> EntryFits(rows, svcOf, names, firsts[j], entries[j])
    {
      var entry := ShowEntry(rows, svcOf, names, buckets, firsts, firsts[i]);
      entries := entries + [entry];
    }
    EntriesListRight(rows, svcOf, names, entries);
  }

  lemma EntriesListRight(rows: seq<FindingRow>, svcOf: map<SbomId, ServiceId>, names: map<ServiceId, string>,
                         entries: seq<Entry>)
    requires ByScore(rows) && svcOf.Values <= names.Keys && |entries| == |Firsts(rows)|
    requires forall j :: 0 <= j < |entries| ==> EntryFits(rows, svcOf, names, Firsts(rows)[j], entries[j])
    ensures ListsRight(rows, svcOf, names, entries)
  {
    FirstsHaveAll(rows);
    FirstsAreDistinct(rows);
    FirstsByScore(rows);
    forall c {
      EntryOfCve(Firsts(rows), entries, c);
    }
  }

  /** What the page shows for the first row `e` of a CVE. */
  ghost predicate EntryFits(rows: seq<FindingRow>, svcOf: map<SbomId, ServiceId>, names: map<ServiceId, string>,
                            e: FindingRow, entry: Entry)
    requires svcOf.Values <= names.Keys
  {
    && entry.cve == e.cve && entry.cvss == e.cvss && entry.purl == e.purl
    && ShowsFirst(rows, entry)
    && ScopesRight(rows, svcOf, names, entry.cve, entry.scopes)
  }

  /** One turn of the last loop: the entry of `e` with its scopes. */
  method ShowEntry(rows: seq<FindingRow>, svcOf: map<SbomId, ServiceId>, names: map<ServiceId, string>,
                   buckets: map<CveId, map<Option<ServiceId>, string>>, ghost firsts: seq<FindingRow>, e: FindingRow)
    returns (entry: Entry)
    requires svcOf.Values <= names.Keys && forall v :: v in names ==> names[v] != ""
    requires BucketsFit(rows, svcOf, names, buckets) && firsts == Firsts(rows) && e in firsts
    ensures EntryFits(rows, svcOf, names, e, entry)
  {
    FirstsAreFirst(rows, e);
    FirstsHaveAll(rows);
    assert e.cve in CvesIn(firsts);
    var scopes := SortedScopes(buckets[e.cve]);
    BucketShown(rows, svcOf, names, e.cve, buckets[e.cve], scopes);
    entry := Entry(e.cve, e.cvss, e.purl, scopes);
  }

  lemma EntryOfCve(firsts: seq<FindingRow>, entries: seq<Entry>, c: CveId)
    requires |entries| == |firsts| && forall j :: 0 <= j < |firsts| ==> entries[j].cve == firsts[j].cve
    ensures c in CvesIn(firsts) <==> Listed(entries, c)
  {
    if c in CvesIn(firsts) {
      var r :| r in firsts && r.cve == c;
      var i :| 0 <= i < |firsts| && firsts[i] == r;
      assert entries[i].cve == c;
    }
    if Listed(entries, c) {
      var i :| 0 <= i < |entries| && entries[i].cve == c;
      assert firsts[i] in firsts;
    }
  }

  lemma FirstsGrow(rows: seq<FindingRow>, i: nat)
    requires i < |rows|
    ensures CvesIn(rows[..i + 1]) == CvesIn(rows[..i]) + {rows[i].cve}
    ensures Firsts(rows[..i + 1]) ==
            if rows[i].cve in CvesIn(rows[..i]) then Firsts(rows[..i]) else Firsts(rows[..i]) + [rows[i]]
  {
    assert rows[..i + 1][..i] == rows[..i];
    assert rows[..i + 1] == rows[..i] + [rows[i]];
    OneMoreCve(rows[..i], rows[i]);
  }

  method CollectRows(rows: seq<FindingRow>, svcOf: map<SbomId, ServiceId>, names: map<ServiceId, string>)
    returns (buckets: map<CveId, map<Option<ServiceId>, string>>, firsts: seq<FindingRow>)
    requires svcOf.Values <= names.Keys
    ensures BucketsFit(rows, svcOf, names, buckets) && firsts == Firsts(rows)
  {
    buckets, firsts := map[], [];
    var seen: set<CveId> := {};
    for i := 0 to |rows|
      invariant buckets == BucketsOf(rows[..i], svcOf, names)
      invariant firsts == Firsts(rows[..i]) && seen == CvesIn(rows[..i])
    {
      var row := rows[i];
      FirstsGrow(rows, i);
      assert rows[..i + 1][..i] == rows[..i];
      buckets := WithRow(buckets, svcOf, names, row);
      if row.cve !in seen {
        seen := seen + {row.cve};
        firsts := firsts + [row];
      }
    }
    assert rows[..|rows|] == rows;
    BucketsOfFit(rows, svcOf, names);
  }

  /* ----- against the store ----- */

  /** The service shown for each SBOM: those without one, or with a nameless one, show none. */
  function ServiceColumn(db: Db, ids: set<SbomId>): map<SbomId, ServiceId> {
    map s | s in ids && s in db.sboms && db.sboms[s].service.Some?
            && db.sboms[s].service.value in db.services && db.services[db.sboms[s].service.value].name != ""
      :: db.sboms[s].service.value
  }

  function NameColumn(db: Db): map<ServiceId, string> {
    map v | v in db.services && db.services[v].name != "" :: db.services[v].name
  }

  /** `rows` answers the query for the actionable open links of the SBOMs `ids`, ordered by score;
      joining packages may repeat a link. */
  ghost predicate AnswersQuery(db: Db, ids: set<SbomId>, rows: seq<FindingRow>) {
    && ByScore(rows)
    && (forall r :: r in rows ==>
          && LinkKey(r.sbom, r.purl, r.cve) in Actionable(db) && r.sbom in ids
          && r.cve in db.vulns && r.cvss == db.vulns[r.cve].cvss)
    && (forall k :: k in Actionable(db) && k.sbom in ids ==>
        exists r :: r in rows && LinkKey(r.sbom, r.purl, r.cve) == k)
  }

  /** CVE `c` is actionable on an SBOM of `ids` that belongs to service `v`, and `v` has a name. */
  ghost predicate ActionableIn(db: Db, ids: set<SbomId>, c: CveId, v: ServiceId) {
    && v in db.services && db.services[v].name != ""
    && exists k :: k in Actionable(db) && k.cve == c && k.sbom in ids && db.sboms[k.sbom].service == Some(v)
  }

  lemma RowsAreLinks(db: Db, ids: set<SbomId>, rows: seq<FindingRow>)
    requires AnswersQuery(db, ids, rows)
    ensures forall c :: Mentions(rows, c) <==> exists k :: k in Actionable(db) && k.sbom in ids && k.cve == c
  {
    forall r | r in rows ensures LinkKey(r.sbom, r.purl, r.cve) in Actionable(db) {
    }
    forall k | k in Actionable(db) && k.sbom in ids
      ensures k.cve in CvesIn(rows)
    {
      var r :| r in rows && LinkKey(r.sbom, r.purl, r.cve) == k;
    }
  }

  lemma CarriedIsActionable(db: Db, ids: set<SbomId>, rows: seq<FindingRow>, c: CveId, v: ServiceId)
    requires AnswersQuery(db, ids, rows)
    ensures Carries(rows, ServiceColumn(db, ids), c, v) <==> ActionableIn(db, ids, c, v)
  {
    if Carries(rows, ServiceColumn(db, ids), c, v) {
      var r :| r in rows && r.cve == c && r.sbom in ServiceColumn(db, ids) && ServiceColumn(db, ids)[r.sbom] == v;
      assert LinkKey(r.sbom, r.purl, r.cve) in Actionable(db);
    }
    if ActionableIn(db, ids, c, v) {
      var k :| k in Actionable(db) && k.cve == c && k.sbom in ids && db.sboms[k.sbom].service == Some(v);
      var r :| r in rows && LinkKey(r.sbom, r.purl, r.cve) == k;
      assert r.sbom in ServiceColumn(db, ids);
    }
  }

  /** The page shows the actionable CVEs of the SBOMs `ids`, each exactly once, best score first, each
      with the whole-project scope and then exactly the services it is actionable in. */
  ghost predicate Displays(db: Db, ids: set<SbomId>, entries: seq<Entry>) {
    && (forall c :: Listed(entries, c) <==> exists k :: k in Actionable(db) && k.sbom in ids && k.cve == c)
    && (forall i, j :: 0 <= i < j < |entries| ==> entries[i].cve != entries[j].cve)
    && (forall i, j :: 0 <= i < j < |entries| ==>
          || entries[j].cvss.None?
          || (entries[i].cvss.Some? && entries[i].cvss.value >= entries[j].cvss.value))
    && (forall i :: 0 <= i < |entries| ==>
          entries[i].cve in db.vulns && entries[i].cvss == db.vulns[entries[i].cve].cvss)
    && (forall i :: 0 <= i < |entries| ==> ScopesMatch(db, ids, entries[i].cve, entries[i].scopes))
  }

  ghost predicate ScopesMatch(db: Db, ids: set<SbomId>, c: CveId, scopes: seq<Scope>) {
    && scopes != [] && scopes[0] == Scope(None, "") && Sorted(scopes)
    && (forall j :: 1 <= j < |scopes| ==>
          && scopes[j].service.Some? && scopes[j].service.value in db.services
          && scopes[j].name == db.services[scopes[j].service.value].name)
    && (forall i, j :: 0 <= i < j < |scopes| ==> scopes[i].service != scopes[j].service)
    && forall v: ServiceId ::
         (exists j :: 1 <= j < |scopes| && scopes[j].service == Some(v)) <==> ActionableIn(db, ids, c, v)
  }

  method ShowVulnerabilities(db: Db, ids: set<SbomId>, rows: seq<FindingRow>) returns (entries: seq<Entry>)
    requires AnswersQuery(db, ids, rows)
    ensures Displays(db, ids, entries)
  {
    ColumnsFit(db, ids);
    entries := ListVulnerabilities(rows, ServiceColumn(db, ids), NameColumn(db));
    RightIsDisplayed(db, ids, rows, entries);
  }

  lemma RightIsDisplayed(db: Db, ids: set<SbomId>, rows: seq<FindingRow>, entries: seq<Entry>)
    requires AnswersQuery(db, ids, rows) && ServiceColumn(db, ids).Values <= NameColumn(db).Keys
    requires ListsRight(rows, ServiceColumn(db, ids), NameColumn(db), entries)
    ensures Displays(db, ids, entries)
  {
    RowsAreLinks(db, ids, rows);
    forall i | 0 <= i < |entries|
      ensures entries[i].cve in db.vulns && entries[i].cvss == db.vulns[entries[i].cve].cvss
      ensures ScopesMatch(db, ids, entries[i].cve, entries[i].scopes)
    {
      ScoreIsStored(db, ids, rows, entries[i]);
      ScopesAreStored(db, ids, rows, entries[i].cve, entries[i].scopes);
    }
  }

  lemma ScopesAreStored(db: Db, ids: set<SbomId>, rows: seq<FindingRow>, c: CveId, scopes: seq<Scope>)
    requires AnswersQuery(db, ids, rows) && ServiceColumn(db, ids).Values <= NameColumn(db).Keys
    requires ScopesRight(rows, ServiceColumn(db, ids), NameColumn(db), c, scopes)
    ensures ScopesMatch(db, ids, c, scopes)
  {
    forall v: ServiceId {
      CarriedIsActionable(db, ids, rows, c, v);
    }
    assert forall i :: 1 <= i < |scopes| ==> scopes[i].name == db.services[scopes[i].service.value].name;
  }

  lemma ScoreIsStored(db: Db, ids: set<SbomId>, rows: seq<FindingRow>, e: Entry)
    requires AnswersQuery(db, ids, rows) && ShowsFirst(rows, e)
    ensures e.cve in db.vulns && e.cvss == db.vulns[e.cve].cvss
  {
    var r :| FirstOfCve(rows, r) && r.cve == e.cve && r.cvss == e.cvss && r.purl == e.purl;
    assert r in rows;
  }

  lemma ColumnsFit(db: Db, ids: set<SbomId>)
    ensures ServiceColumn(db, ids).Values <= NameColumn(db).Keys
  {
  }

  /* ----- the page of a project ----- */

  /** The SBOMs of the project, or of one of its services when a filter is given. */
  predicate InView(db: Db, project: ProjectId, filter: Option<ServiceId>, s: SbomId) {
    s in db.sboms && db.sboms[s].project == project && (filter.None? || db.sboms[s].service == filter)
  }

  function RowOf(db: Db, s: SbomId): SbomRow
    requires s in db.sboms
  {
    SbomRow(s, db.sboms[s].service, db.sboms[s].created)
  }

  /** `rows` lists the SBOMs in view, in any order. */
  ghost predicate AnswersIds(db: Db, project: ProjectId, filter: Option<ServiceId>, rows: seq<SbomRow>) {
    && (forall r :: r in rows ==> InView(db, project, filter, r.id) && r == RowOf(db, r.id))
    && (forall s :: InView(db, project, filter, s) ==> RowOf(db, s) in rows)
  }

  /** `ids` names one SBOM for every service with an SBOM in view, and one for those without a service
      if there are any; each has the greatest creation date of its service. */
  ghost predicate NewestInView(db: Db, project: ProjectId, filter: Option<ServiceId>, ids: set<SbomId>) {
    && (forall i :: i in ids ==> InView(db, project, filter, i))
    && (forall s :: InView(db, project, filter, s) ==> exists i :: i in ids && i in db.sboms && DatedAfter(db, i, s))
    && (forall i, j :: i in ids && j in ids && i in db.sboms && j in db.sboms && SameService(db, i, j) ==> i == j)
  }

  predicate SameService(db: Db, i: SbomId, s: SbomId)
    requires i in db.sboms && s in db.sboms
  {
    db.sboms[i].service == db.sboms[s].service
  }

  predicate DatedAfter(db: Db, i: SbomId, s: SbomId)
    requires i in db.sboms && s in db.sboms
  {
    SameService(db, i, s) && db.sboms[s].created <= db.sboms[i].created
  }

  method PickInView(db: Db, project: ProjectId, filter: Option<ServiceId>, rows: seq<SbomRow>)
    returns (ids: set<SbomId>)
    requires AnswersIds(db, project, filter, rows)
    ensures NewestInView(db, project, filter, ids)
  {
    var latest := PickLatest(rows);
    PicksAreNewest(db, project, filter, rows, latest);
    ids := set s | s in latest :: latest[s].0;
  }

  /** The whole page: pick the newest SBOM of each service, ask for its actionable links, list them.
      `answer` is what the database returns for a set of SBOMs; without any SBOM it is not asked. */
  method GetProjectVulns(db: Db, project: ProjectId, filter: Option<ServiceId>, sbomRows: seq<SbomRow>,
                         answer: set<SbomId> -> seq<FindingRow>)
    returns (ids: set<SbomId>, entries: seq<Entry>)
    requires AnswersIds(db, project, filter, sbomRows)
    requires forall wanted :: AnswersQuery(db, wanted, answer(wanted))
    ensures NewestInView(db, project, filter, ids)
    ensures Displays(db, ids, entries)
  {
    ids := PickInView(db, project, filter, sbomRows);
    if ids == {} {
      NothingToShow(db);
      return ids, [];
    }
    entries := ShowVulnerabilities(db, ids, answer(ids));
  }

  lemma NothingToShow(db: Db)
    ensures Displays(db, {}, [])
  {
  }

  lemma PicksAreNewest(db: Db, project: ProjectId, filter: Option<ServiceId>, rows: seq<SbomRow>,
                       latest: map<Option<ServiceId>, (SbomId, Time)>)
    requires AnswersIds(db, project, filter, rows)
    requires forall s :: s in latest <==> exists r :: r in rows && r.service == s
    requires forall s :: s in latest ==> Newest(rows, s, latest[s].0, latest[s].1)
    ensures NewestInView(db, project, filter, set s | s in latest :: latest[s].0)
  {
    forall v | v in latest
      ensures PickOf(db, project, filter, v, latest[v].0)
    {
      assert SbomRow(latest[v].0, v, latest[v].1) in rows;
    }
    forall s | InView(db, project, filter, s)
      ensures db.sboms[s].service in latest && DatedAfter(db, latest[db.sboms[s].service].0, s)
    {
      assert RowOf(db, s) in rows;
    }
    OnePerService(db, project, filter, latest);
  }

  /** `i` is an SBOM of service `v` in view. */
  predicate PickOf(db: Db, project: ProjectId, filter: Option<ServiceId>, v: Option<ServiceId>, i: SbomId) {
    InView(db, project, filter, i) && db.sboms[i].service == v
  }

  lemma OnePerService(db: Db, project: ProjectId, filter: Option<ServiceId>,
                      latest: map<Option<ServiceId>, (SbomId, Time)>)
    requires forall v :: v in latest ==> PickOf(db, project, filter, v, latest[v].0)
    requires forall s :: InView(db, project, filter, s) ==>
        && db.sboms[s].service in latest && latest[db.sboms[s].service].0 in db.sboms
        && DatedAfter(db, latest[db.sboms[s].service].0, s)
    ensures NewestInView(db, project, filter, set s | s in latest :: latest[s].0)
  {
    var ids := set v | v in latest :: latest[v].0;
    forall s | InView(db, project, filter, s)
      ensures exists i :: i in ids && i in db.sboms && DatedAfter(db, i, s)
    {
      assert latest[db.sboms[s].service].0 in ids;
    }
  }
}
