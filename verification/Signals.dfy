/**
 The intelligence snapshot: active observations grouped by how they can be matched, and the lookup
 that collects what applies to a context. An adjustment is identified by the row it was built from,
 which is what the source's object identity does.
 */
module Signals {
  import opened Common

  datatype Scope = GlobalScope | SupplierScope | CountryScope | CommodityScope | OtherScope

  /** An observation: its scope and scope key (the source's empty and missing keys are both ""). */
  datatype Row = Row(scope: Scope, key: string, severity: int)

  datatype Adjustment = Adjustment(row: nat, severity: int)

  datatype Context = Context(
    supplier: Option<string>,
    tags: seq<string>,
    origin: string,
    includeGlobal: bool)

  /** A country as matched: its ISO-2 code when `toIso2` knows one, else the text as it is. */
  function Normal(toIso2: string -> Option<string>, country: string): string {
    match toIso2(country)
    case Some(code) => if code != "" then code else country
    case None => country
  }

  // ---------------------------------------------------------------- the direct predicate

  /** A country text that has an ISO-2 code. */
  predicate Coded(toIso2: string -> Option<string>, country: string) {
    toIso2(country).Some? && toIso2(country).value != ""
  }

  /** Two texts name the same country: by their codes as far as they have one, and else by their text. */
  predicate SameCountry(toIso2: string -> Option<string>, a: string, b: string) {
    if Coded(toIso2, a) && Coded(toIso2, b) then toIso2(a) == toIso2(b)
    else if Coded(toIso2, a) then toIso2(a) == Some(b)
    else if Coded(toIso2, b) then toIso2(b) == Some(a)
    else a == b
  }

  /** Normalising is exact: two texts are normalised alike exactly when they name the same country. */
  lemma NormalMeaning(toIso2: string -> Option<string>, a: string, b: string)
    ensures Normal(toIso2, a) == Normal(toIso2, b) <==> SameCountry(toIso2, a, b)
    ensures a != "" ==> Normal(toIso2, a) != ""
  {
  }

  /** Whether one row applies to a context, read straight off the row. */
  predicate Applies(toIso2: string -> Option<string>, countries: map<string, string>, context: Context, row: Row) {
    match row.scope
    case GlobalScope => context.includeGlobal
    case SupplierScope => row.key != "" && context.supplier == Some(row.key)
    case CountryScope =>
      && row.key != ""
      && ((context.supplier.Some? && context.supplier.value in countries
           && SameCountry(toIso2, row.key, countries[context.supplier.value]))
          || (context.origin != "" && SameCountry(toIso2, row.key, context.origin)))
    case CommodityScope => row.key != "" && row.key in context.tags
    case OtherScope => false
  }

  // ---------------------------------------------------------------- the grouped index

  type Index = map<string, seq<Adjustment>>

  function Bucket(index: Index, key: string): seq<Adjustment> {
    if key in index then index[key] else []
  }

  function AppendTo(index: Index, key: string, adjustment: Adjustment): Index {
    index[key := Bucket(index, key) + [adjustment]]
  }

  class Snapshot {
    var globals: seq<Adjustment>
    var bySupplier: Index
    var byCountry: Index
    var byCommodity: Index
    var supplierCountry: map<string, string>

    constructor ()
      ensures globals == []
      ensures bySupplier == map[]
      ensures byCountry == map[]
      ensures byCommodity == map[]
      ensures supplierCountry == map[]
    {
      globals, bySupplier, byCountry, byCommodity, supplierCountry := [], map[], map[], map[], map[];
    }
  }

  /** The bucket a row belongs to; route, port and keyless rows belong to none. */
  datatype Criterion = Everywhere | OfSupplier(key: string) | OfCountry(key: string) | OfCommodity(key: string)

  function CriterionOf(toIso2: string -> Option<string>, row: Row): Option<Criterion> {
    match row.scope
    case GlobalScope => Some(Everywhere)
    case SupplierScope => if row.key != "" then Some(OfSupplier(row.key)) else None
    case CountryScope => if row.key != "" then Some(OfCountry(Normal(toIso2, row.key))) else None
    case CommodityScope => if row.key != "" then Some(OfCommodity(row.key)) else None
    case OtherScope => None
  }

  function BucketOf(s: Snapshot, criterion: Criterion): seq<Adjustment>
    reads s
  {
    match criterion
    case Everywhere => s.globals
    case OfSupplier(key) => Bucket(s.bySupplier, key)
    case OfCountry(key) => Bucket(s.byCountry, key)
    case OfCommodity(key) => Bucket(s.byCommodity, key)
  }

  function AdjustmentOf(rows: seq<Row>, i: nat): Adjustment
    requires i < |rows|
  {
    Adjustment(i, rows[i].severity)
  }

  /** A bucket lists exactly the rows, among the first `n`, that belong to it, in their order. */
  ghost predicate Lists(bucket: seq<Adjustment>, toIso2: string -> Option<string>, rows: seq<Row>, n: nat, criterion: Criterion)
    requires n <= |rows|
  {
    && (forall k :: 0 <= k < |bucket| ==>
          && bucket[k].row < n
          && bucket[k] == AdjustmentOf(rows, bucket[k].row)
          && CriterionOf(toIso2, rows[bucket[k].row]) == Some(criterion))
    && (forall k, l :: 0 <= k < l < |bucket| ==> bucket[k].row < bucket[l].row)
    && (forall i :: 0 <= i < n && CriterionOf(toIso2, rows[i]) == Some(criterion) ==> AdjustmentOf(rows, i) in bucket)
  }

  /** The snapshot indexes the first `n` rows. */
  ghost predicate Indexes(s: Snapshot, toIso2: string -> Option<string>, rows: seq<Row>, n: nat)
    reads s
    requires n <= |rows|
  {
    forall criterion :: Lists(BucketOf(s, criterion), toIso2, rows, n, criterion)
  }

  /** One more row is appended to the bucket it belongs to, and to no other. */
  lemma ListsGrow(before: seq<Adjustment>, after: seq<Adjustment>, toIso2: string -> Option<string>, rows: seq<Row>, n: nat, criterion: Criterion)
    requires n < |rows| && Lists(before, toIso2, rows, n, criterion)
    requires after == before + if CriterionOf(toIso2, rows[n]) == Some(criterion) then [AdjustmentOf(rows, n)] else []
    ensures Lists(after, toIso2, rows, n + 1, criterion)
  {
    forall i | 0 <= i < n + 1 && CriterionOf(toIso2, rows[i]) == Some(criterion)
      ensures AdjustmentOf(rows, i) in after
    {
      if i == n {
        assert after[|before|] == AdjustmentOf(rows, n);
      } else {
        assert AdjustmentOf(rows, i) in before;
      }
    }
  }

  method AddRow(s: Snapshot, toIso2: string -> Option<string>, row: Row, adjustment: Adjustment)
    modifies s`globals, s`bySupplier, s`byCountry, s`byCommodity
    ensures forall criterion :: BucketOf(s, criterion) ==
              old(BucketOf(s, criterion)) + if CriterionOf(toIso2, row) == Some(criterion) then [adjustment] else []
  {
    if row.scope.SupplierScope? && row.key != "" {
      s.bySupplier := AppendTo(s.bySupplier, row.key, adjustment);
    } else if row.scope.CountryScope? && row.key != "" {
      s.byCountry := AppendTo(s.byCountry, Normal(toIso2, row.key), adjustment);
    } else if row.scope.CommodityScope? && row.key != "" {
      s.byCommodity := AppendTo(s.byCommodity, row.key, adjustment);
    } else if row.scope.GlobalScope? {
      s.globals := s.globals + [adjustment];
    }
  }

  lemma NothingListed(toIso2: string -> Option<string>, rows: seq<Row>)
    ensures forall criterion :: Lists([], toIso2, rows, 0, criterion)
  {
  }

  method BuildSnapshot(toIso2: string -> Option<string>, rows: seq<Row>, countries: map<string, string>) returns (s: Snapshot)
    ensures fresh(s)
    ensures Indexes(s, toIso2, rows, |rows|)
    ensures s.supplierCountry == map supplier | supplier in countries :: Normal(toIso2, countries[supplier])
  {
    hide Lists, Normal;
    NothingListed(toIso2, rows);
    s := new Snapshot();
    s.supplierCountry := map supplier | supplier in countries :: Normal(toIso2, countries[supplier]);
    var i := 0;
    while i < |rows|
      modifies s`globals, s`bySupplier, s`byCountry, s`byCommodity
      invariant 0 <= i <= |rows|
      invariant Indexes(s, toIso2, rows, i)
    {
      label L:
      AddRow(s, toIso2, rows[i], Adjustment(i, rows[i].severity));
      forall criterion ensures Lists(BucketOf(s, criterion), toIso2, rows, i + 1, criterion) {
        ListsGrow(old@L(BucketOf(s, criterion)), BucketOf(s, criterion), toIso2, rows, i, criterion);
      }
      i := i + 1;
    }
  }

  /** The position of the first occurrence. */
  function FirstAt(matched: seq<Adjustment>, a: Adjustment): nat {
    if |matched| == 0 || matched[0] == a then 0 else 1 + FirstAt(matched[1..], a)
  }

  lemma {:induction false} FirstAtMeaning(matched: seq<Adjustment>, a: Adjustment, k: nat)
    requires k < |matched| && matched[k] == a
    ensures FirstAt(matched, a) <= k
    ensures a !in matched[..k] ==> FirstAt(matched, a) == k
  {
    if matched[0] != a {
      FirstAtMeaning(matched[1..], a, k - 1);
      assert matched[..k] == [matched[0]] + matched[1..][..k - 1];
    }
  }

  /** Keep the first occurrence of each adjustment, in order. */
  method Deduplicate(matched: seq<Adjustment>) returns (deduped: seq<Adjustment>)
    ensures forall a :: a in deduped <==> a in matched
    ensures forall i, j :: 0 <= i < j < |deduped| ==> deduped[i] != deduped[j]
    ensures forall i, j :: 0 <= i < j < |deduped| ==> FirstAt(matched, deduped[i]) < FirstAt(matched, deduped[j])
  {
    deduped := [];
    var seen: set<Adjustment> := {};
    for k := 0 to |matched|
      invariant forall a :: a in seen <==> a in matched[..k]
      invariant forall a :: a in deduped <==> a in seen
      invariant forall i, j :: 0 <= i < j < |deduped| ==> deduped[i] != deduped[j]
      invariant forall i :: 0 <= i < |deduped| ==> FirstAt(matched, deduped[i]) < k
      invariant forall i, j :: 0 <= i < j < |deduped| ==> FirstAt(matched, deduped[i]) < FirstAt(matched, deduped[j])
    {
      FirstAtMeaning(matched, matched[k], k);
      assert matched[..k + 1] == matched[..k] + [matched[k]];
      if matched[k] !in seen {
        seen := seen + {matched[k]};
        deduped := deduped + [matched[k]];
      }
    }
    assert matched[..|matched|] == matched;
  }

  /** The buckets a context looks in. */
  ghost predicate LooksIn(s: Snapshot, toIso2: string -> Option<string>, context: Context, criterion: Criterion)
    reads s
  {
    match criterion
    case Everywhere => context.includeGlobal
    case OfSupplier(key) => context.supplier == Some(key)
    case OfCountry(key) =>
      || (context.supplier.Some? && context.supplier.value in s.supplierCountry
          && key == s.supplierCountry[context.supplier.value] != "")
      || (context.origin != "" && key == Normal(toIso2, context.origin))
    case OfCommodity(key) => key in context.tags
  }

  /** Exactly what is in the buckets the context looks in. */
  ghost predicate Collected(s: Snapshot, toIso2: string -> Option<string>, context: Context, found: seq<Adjustment>)
    reads s
  {
    forall a :: a in found <==>
      exists criterion :: LooksIn(s, toIso2, context, criterion) && a in BucketOf(s, criterion)
  }

  function TagBuckets(s: Snapshot, tags: seq<string>): seq<Adjustment>
    reads s
  {
    if |tags| == 0 then [] else TagBuckets(s, tags[..|tags| - 1]) + Bucket(s.byCommodity, tags[|tags| - 1])
  }

  function SupplierBuckets(s: Snapshot, supplier: Option<string>): seq<Adjustment>
    reads s
  {
    if supplier.None? then []
    else if supplier.value in s.supplierCountry && s.supplierCountry[supplier.value] != "" then
      Bucket(s.bySupplier, supplier.value) + Bucket(s.byCountry, s.supplierCountry[supplier.value])
    else Bucket(s.bySupplier, supplier.value)
  }

  function OriginBucket(s: Snapshot, toIso2: string -> Option<string>, origin: string): seq<Adjustment>
    reads s
  {
    if origin != "" then Bucket(s.byCountry, Normal(toIso2, origin)) else []
  }

  /** Global first, then the supplier, its country, the origin and the tags in their order. */
  function AxisByAxis(s: Snapshot, toIso2: string -> Option<string>, context: Context): seq<Adjustment>
    reads s
  {
    (if context.includeGlobal then s.globals else [])
    + SupplierBuckets(s, context.supplier)
    + OriginBucket(s, toIso2, context.origin)
    + TagBuckets(s, context.tags)
  }

  lemma {:induction false} TagBucketsMeaning(s: Snapshot, tags: seq<string>, a: Adjustment)
    ensures a in TagBuckets(s, tags) <==> exists tag :: tag in tags && a in Bucket(s.byCommodity, tag)
  {
    if |tags| > 0 {
      var front, last := tags[..|tags| - 1], tags[|tags| - 1];
      assert tags == front + [last];
      TagBucketsMeaning(s, front, a);
    }
  }

  /** Axis by axis is exactly the buckets looked in. */
  lemma AxisByAxisCollects(s: Snapshot, toIso2: string -> Option<string>, context: Context)
    ensures Collected(s, toIso2, context, AxisByAxis(s, toIso2, context))
  {
    forall a
      ensures a in AxisByAxis(s, toIso2, context) <==>
              exists criterion :: LooksIn(s, toIso2, context, criterion) && a in BucketOf(s, criterion)
    {
      TagBucketsMeaning(s, context.tags, a);
      if a in AxisByAxis(s, toIso2, context) {
        AxisOf(s, toIso2, context, a);
      }
      if criterion :| LooksIn(s, toIso2, context, criterion) && a in BucketOf(s, criterion) {
        assert criterion.OfCommodity? ==> criterion.key in context.tags && a in Bucket(s.byCommodity, criterion.key);
      }
    }
  }

  lemma AxisOf(s: Snapshot, toIso2: string -> Option<string>, context: Context, a: Adjustment)
    requires a in AxisByAxis(s, toIso2, context)
    ensures exists criterion :: LooksIn(s, toIso2, context, criterion) && a in BucketOf(s, criterion)
  {
    TagBucketsMeaning(s, context.tags, a);
    if tag :| tag in context.tags && a in Bucket(s.byCommodity, tag) {
      assert LooksIn(s, toIso2, context, OfCommodity(tag)) && a in BucketOf(s, OfCommodity(tag));
    } else if context.includeGlobal && a in s.globals {
      assert LooksIn(s, toIso2, context, Everywhere) && a in BucketOf(s, Everywhere);
    } else if context.origin != "" && a in Bucket(s.byCountry, Normal(toIso2, context.origin)) {
      var there := OfCountry(Normal(toIso2, context.origin));
      assert LooksIn(s, toIso2, context, there) && a in BucketOf(s, there);
    } else {
      var sid := context.supplier.value;
      if a in Bucket(s.bySupplier, sid) {
        assert LooksIn(s, toIso2, context, OfSupplier(sid)) && a in BucketOf(s, OfSupplier(sid));
      } else {
        var home := OfCountry(s.supplierCountry[sid]);
        assert LooksIn(s, toIso2, context, home) && a in BucketOf(s, home);
      }
    }
  }

  lemma NoBuckets(s: Snapshot, toIso2: string -> Option<string>)
    ensures SupplierBuckets(s, None) == [] && OriginBucket(s, toIso2, "") == []
  {
  }

  lemma SupplierParts(s: Snapshot, sid: string, part: seq<Adjustment>)
    ensures part + SupplierBuckets(s, Some(sid)) ==
              if sid in s.supplierCountry && s.supplierCountry[sid] != "" then
                (part + Bucket(s.bySupplier, sid)) + Bucket(s.byCountry, s.supplierCountry[sid])
              else part + Bucket(s.bySupplier, sid)
  {
  }

  lemma OriginPart(s: Snapshot, toIso2: string -> Option<string>, origin: string)
    ensures origin != "" ==> OriginBucket(s, toIso2, origin) == Bucket(s.byCountry, Normal(toIso2, origin))
  {
  }

  /** The buckets of the tags, one after the other. */
  method CollectTags(s: Snapshot, tags: seq<string>) returns (matched: seq<Adjustment>)
    ensures matched == TagBuckets(s, tags)
  {
    matched := [];
    for t := 0 to |tags|
      invariant matched == TagBuckets(s, tags[..t])
    {
      assert tags[..t + 1][..t] == tags[..t];
      matched := matched + Bucket(s.byCommodity, tags[t]);
    }
    assert tags[..|tags|] == tags;
  }

  /** Concatenate the buckets of a context, repeats included. */
  method Collect(s: Snapshot, toIso2: string -> Option<string>, context: Context)
    returns (matched: seq<Adjustment>)
    ensures matched == AxisByAxis(s, toIso2, context)
    ensures Collected(s, toIso2, context, matched)
  {
    AxisByAxisCollects(s, toIso2, context);
    hide LooksIn, Collected, Bucket, Normal, SupplierBuckets, OriginBucket;
    NoBuckets(s, toIso2);
    matched := [];
    if context.includeGlobal {
      matched := matched + s.globals;
    }
    ghost var part := matched;
    assert part == if context.includeGlobal then s.globals else [];
    if context.supplier.Some? {
      var sid := context.supplier.value;
      SupplierParts(s, sid, part);
      matched := matched + Bucket(s.bySupplier, sid);
      if sid in s.supplierCountry && s.supplierCountry[sid] != "" {
        matched := matched + Bucket(s.byCountry, s.supplierCountry[sid]);
      }
    }
    assert matched == part + SupplierBuckets(s, context.supplier);
    part := matched;
    if context.origin != "" {
      OriginPart(s, toIso2, context.origin);
      matched := matched + Bucket(s.byCountry, Normal(toIso2, context.origin));
    }
    assert matched == part + OriginBucket(s, toIso2, context.origin);
    var byTag := CollectTags(s, context.tags);
    matched := matched + byTag;
  }

  method MatchContext(s: Snapshot, toIso2: string -> Option<string>, context: Context) returns (found: seq<Adjustment>)
    ensures forall i, j :: 0 <= i < j < |found| ==> found[i] != found[j]
    ensures forall i, j :: 0 <= i < j < |found| ==>
      FirstAt(AxisByAxis(s, toIso2, context), found[i]) < FirstAt(AxisByAxis(s, toIso2, context), found[j])
    ensures Collected(s, toIso2, context, found)
  {
    var matched := Collect(s, toIso2, context);
    found := Deduplicate(matched);
    assert Collected(s, toIso2, context, matched);
  }

  /** A row applies to a context exactly when the context looks in the row's bucket. */
  lemma AppliesIffLookedIn(s: Snapshot, toIso2: string -> Option<string>, countries: map<string, string>, context: Context, row: Row)
    requires s.supplierCountry == map supplier | supplier in countries :: Normal(toIso2, countries[supplier])
    ensures Applies(toIso2, countries, context, row) <==>
            (CriterionOf(toIso2, row).Some? && LooksIn(s, toIso2, context, CriterionOf(toIso2, row).value))
  {
    if row.scope.CountryScope? {
      NormalMeaning(toIso2, row.key, context.origin);
      if context.supplier.Some? && context.supplier.value in countries {
        NormalMeaning(toIso2, row.key, countries[context.supplier.value]);
      }
    }
  }

  /**
   The index answers exactly like a scan: the adjustments found are those of the rows that apply to
   the context, each once, whatever axes a row matches on and however often a tag repeats.
   */
  method Answer(toIso2: string -> Option<string>, rows: seq<Row>, countries: map<string, string>, context: Context)
    returns (found: seq<Adjustment>)
    ensures forall i, j :: 0 <= i < j < |found| ==> found[i] != found[j]
    ensures forall k :: 0 <= k < |found| ==>
      && found[k].row < |rows|
      && found[k].severity == rows[found[k].row].severity
      && Applies(toIso2, countries, context, rows[found[k].row])
    ensures forall i :: 0 <= i < |rows| && Applies(toIso2, countries, context, rows[i]) ==> Adjustment(i, rows[i].severity) in found
  {
    var s := BuildSnapshot(toIso2, rows, countries);
    found := MatchContext(s, toIso2, context);
    forall k | 0 <= k < |found|
      ensures found[k].row < |rows|
      ensures found[k].severity == rows[found[k].row].severity
      ensures Applies(toIso2, countries, context, rows[found[k].row])
    {
      assert found[k] in found;
      var criterion :| LooksIn(s, toIso2, context, criterion) && found[k] in BucketOf(s, criterion);
      assert Lists(BucketOf(s, criterion), toIso2, rows, |rows|, criterion);
      AppliesIffLookedIn(s, toIso2, countries, context, rows[found[k].row]);
    }
    forall i | 0 <= i < |rows| && Applies(toIso2, countries, context, rows[i])
      ensures AdjustmentOf(rows, i) in found
    {
      AppliesIffLookedIn(s, toIso2, countries, context, rows[i]);
      var criterion := CriterionOf(toIso2, rows[i]).value;
      assert Lists(BucketOf(s, criterion), toIso2, rows, |rows|, criterion);
    }
  }
}
