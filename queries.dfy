/**
 * The query partitioner: the search strings the crawler walks through, one per
 * (language, creation year, star bucket) facet, built as a cross product with the
 * language outermost, then the year, then the bucket.
 */
module Queries {

  const Languages: seq<string> := ["Python", "JavaScript", "TypeScript", "Go", "Rust", "Java", "C++", "Ruby"]
  const Years: seq<nat> := [2020, 2021, 2022, 2023, 2024, 2025]
  /** Star ranges `s1..s2`; both ends are inclusive in the search syntax. */
  const StarBuckets: seq<(nat, nat)> := [(1, 10), (10, 50), (50, 200), (200, 1000), (1000, 10000)]

  datatype Facet = Facet(language: string, year: nat, bucket: (nat, nat))

  predicate NoDuplicates<T(==)>(s: seq<T>)
  {
    forall i, j :: 0 <= i < j < |s| ==> s[i] != s[j]
  }

  // ---------------------------------------------------------------------------
  // The cross product
  // ---------------------------------------------------------------------------

  function YearFacets(language: string, year: nat, buckets: seq<(nat, nat)>): seq<Facet>
  {
    seq(|buckets|, k requires 0 <= k < |buckets| => Facet(language, year, buckets[k]))
  }

  function LanguageFacets(language: string, years: seq<nat>, buckets: seq<(nat, nat)>): seq<Facet>
  {
    if years == [] then [] else YearFacets(language, years[0], buckets) + LanguageFacets(language, years[1..], buckets)
  }

  /** All facets, language-outermost, then year, then bucket. */
  function Facets(languages: seq<string>, years: seq<nat>, buckets: seq<(nat, nat)>): seq<Facet>
  {
    if languages == [] then [] else LanguageFacets(languages[0], years, buckets) + Facets(languages[1..], years, buckets)
  }

  lemma MulSucc(n: nat, m: nat)
    requires n >= 1
    ensures n * m == m + (n - 1) * m
  {
  }

  /** `i` blocks of `p` items: `i * p`, by repeated addition. */
  function Offset(i: nat, p: nat): nat
  {
    if i == 0 then 0 else p + Offset(i - 1, p)
  }

  lemma {:induction false} OffsetIsProduct(i: nat, p: nat)
    ensures Offset(i, p) == i * p
  {
    if i > 0 {
      OffsetIsProduct(i - 1, p);
      MulSucc(i, p);
    }
  }

  lemma {:induction false} LanguageFacetsAt(language: string, years: seq<nat>, buckets: seq<(nat, nat)>, j: nat, k: nat)
    requires j < |years| && k < |buckets|
    ensures Offset(j, |buckets|) + k < |LanguageFacets(language, years, buckets)|
    ensures LanguageFacets(language, years, buckets)[Offset(j, |buckets|) + k] == Facet(language, years[j], buckets[k])
  {
    var head, tail := YearFacets(language, years[0], buckets), LanguageFacets(language, years[1..], buckets);
    assert LanguageFacets(language, years, buckets) == head + tail;
    if j == 0 {
      assert (head + tail)[k] == head[k];
    } else {
      LanguageFacetsAt(language, years[1..], buckets, j - 1, k);
      var m := Offset(j - 1, |buckets|) + k;
      assert Offset(j, |buckets|) + k == |head| + m;
      assert (head + tail)[|head| + m] == tail[m];
    }
  }

  lemma {:induction false} LanguageFacetsLength(language: string, years: seq<nat>, buckets: seq<(nat, nat)>)
    ensures |LanguageFacets(language, years, buckets)| == |years| * |buckets|
  {
    if years != [] {
      LanguageFacetsLength(language, years[1..], buckets);
      MulSucc(|years|, |buckets|);
    }
  }

  /** Block `i` of the cross product is the facets of language `i`. */
  lemma {:induction false} FacetsBlock(languages: seq<string>, years: seq<nat>, buckets: seq<(nat, nat)>, p: nat, i: nat, r: nat)
    requires p == |years| * |buckets|
    requires i < |languages| && r < p
    ensures Offset(i, p) + r < |Facets(languages, years, buckets)|
    ensures r < |LanguageFacets(languages[i], years, buckets)|
    ensures Facets(languages, years, buckets)[Offset(i, p) + r] == LanguageFacets(languages[i], years, buckets)[r]
  {
    var head, tail := LanguageFacets(languages[0], years, buckets), Facets(languages[1..], years, buckets);
    assert Facets(languages, years, buckets) == head + tail;
    LanguageFacetsLength(languages[0], years, buckets);
    LanguageFacetsLength(languages[i], years, buckets);
    if i == 0 {
      assert (head + tail)[r] == head[r];
    } else {
      var q := Offset(i - 1, p) + r;
      FacetsBlock(languages[1..], years, buckets, p, i - 1, r);
      assert languages[1..][i - 1] == languages[i];
      assert Offset(i, p) + r == |head| + q;
      assert (head + tail)[|head| + q] == tail[q];
    }
  }

  /** The cross product has one facet per triple, in language-year-bucket order. */
  lemma FacetsAt(languages: seq<string>, years: seq<nat>, buckets: seq<(nat, nat)>, i: nat, j: nat, k: nat)
    requires i < |languages| && j < |years| && k < |buckets|
    ensures Offset(i, |years| * |buckets|) + Offset(j, |buckets|) + k < |Facets(languages, years, buckets)|
    ensures Facets(languages, years, buckets)[Offset(i, |years| * |buckets|) + Offset(j, |buckets|) + k]
         == Facet(languages[i], years[j], buckets[k])
  {
    LanguageFacetsAt(languages[i], years, buckets, j, k);
    LanguageFacetsLength(languages[i], years, buckets);
    FacetsBlock(languages, years, buckets, |years| * |buckets|, i, Offset(j, |buckets|) + k);
  }

  lemma {:induction false} FacetsLength(languages: seq<string>, years: seq<nat>, buckets: seq<(nat, nat)>)
    ensures |Facets(languages, years, buckets)| == |languages| * (|years| * |buckets|)
  {
    if languages != [] {
      LanguageFacetsLength(languages[0], years, buckets);
      FacetsLength(languages[1..], years, buckets);
      MulSucc(|languages|, |years| * |buckets|);
    }
  }

  /** A facet occurs in the cross product exactly when each of its coordinates is configured. */
  lemma {:induction false} FacetsMembership(languages: seq<string>, years: seq<nat>, buckets: seq<(nat, nat)>, f: Facet)
    ensures f in Facets(languages, years, buckets) <==> f.language in languages && f.year in years && f.bucket in buckets
  {
    if languages != [] {
      FacetsMembership(languages[1..], years, buckets, f);
      LanguageFacetsMembership(languages[0], years, buckets, f);
      assert languages == [languages[0]] + languages[1..];
    }
  }

  lemma {:induction false} LanguageFacetsMembership(language: string, years: seq<nat>, buckets: seq<(nat, nat)>, f: Facet)
    ensures f in LanguageFacets(language, years, buckets) <==> f.language == language && f.year in years && f.bucket in buckets
  {
    if years != [] {
      LanguageFacetsMembership(language, years[1..], buckets, f);
      assert years == [years[0]] + years[1..];
      if f.language == language && f.year == years[0] && f.bucket in buckets {
        var k :| 0 <= k < |buckets| && buckets[k] == f.bucket;
        assert YearFacets(language, years[0], buckets)[k] == f;
      }
    }
  }

  lemma {:induction false} LanguageFacetsDistinct(language: string, years: seq<nat>, buckets: seq<(nat, nat)>)
    requires NoDuplicates(years) && NoDuplicates(buckets)
    ensures NoDuplicates(LanguageFacets(language, years, buckets))
  {
    if years != [] {
      var head, tail := YearFacets(language, years[0], buckets), LanguageFacets(language, years[1..], buckets);
      LanguageFacetsDistinct(language, years[1..], buckets);
      forall i, j | 0 <= i < |head| && 0 <= j < |tail|
        ensures head[i] != tail[j]
      {
        LanguageFacetsMembership(language, years[1..], buckets, tail[j]);
        assert years[0] !in years[1..] by {
          forall m | 0 <= m < |years[1..]| ensures years[1..][m] != years[0] {
            assert years[1..][m] == years[m + 1];
          }
        }
      }
      DistinctConcat(head, tail);
    }
  }

  /** With duplicate-free dimensions, no facet is produced twice. */
  lemma {:induction false} FacetsDistinct(languages: seq<string>, years: seq<nat>, buckets: seq<(nat, nat)>)
    requires NoDuplicates(languages) && NoDuplicates(years) && NoDuplicates(buckets)
    ensures NoDuplicates(Facets(languages, years, buckets))
  {
    if languages != [] {
      var head, tail := LanguageFacets(languages[0], years, buckets), Facets(languages[1..], years, buckets);
      LanguageFacetsDistinct(languages[0], years, buckets);
      FacetsDistinct(languages[1..], years, buckets);
      forall i, j | 0 <= i < |head| && 0 <= j < |tail|
        ensures head[i] != tail[j]
      {
        LanguageFacetsMembership(languages[0], years, buckets, head[i]);
        FacetsMembership(languages[1..], years, buckets, tail[j]);
        assert languages[0] !in languages[1..] by {
          forall m | 0 <= m < |languages[1..]| ensures languages[1..][m] != languages[0] {
            assert languages[1..][m] == languages[m + 1];
          }
        }
      }
      DistinctConcat(head, tail);
    }
  }

  lemma DistinctConcat<T>(a: seq<T>, b: seq<T>)
    requires NoDuplicates(a) && NoDuplicates(b)
    requires forall i, j :: 0 <= i < |a| && 0 <= j < |b| ==> a[i] != b[j]
    ensures NoDuplicates(a + b)
  {
    forall i, j | 0 <= i < j < |a + b| ensures (a + b)[i] != (a + b)[j] {
      if j < |a| {
      } else if i >= |a| {
        assert (a + b)[i] == b[i - |a|] && (a + b)[j] == b[j - |a|];
      } else {
        assert (a + b)[j] == b[j - |a|];
      }
    }
  }

  // ---------------------------------------------------------------------------
  // Rendering a facet as a search string
  // ---------------------------------------------------------------------------

  function DigitChar(d: nat): char
    requires d < 10
  {
    (48 + d) as char
  }

  /** Python's `str` of a non-negative integer: decimal digits, no leading zeros. */
  function NatToString(n: nat): (s: string)
    ensures |s| >= 1 && (|s| == 1 <==> n < 10)
    ensures forall i :: 0 <= i < |s| ==> '0' <= s[i] <= '9'
  {
    if n < 10 then [DigitChar(n)] else NatToString(n / 10) + [DigitChar(n % 10)]
  }

  /** Different numbers print differently. */
  lemma {:induction false} NatToStringInjective(a: nat, b: nat)
    requires NatToString(a) == NatToString(b)
    ensures a == b
  {
    var sa, sb := NatToString(a), NatToString(b);
    if a < 10 {
      assert b < 10;
      assert sa[0] == DigitChar(a) && sb[0] == DigitChar(b);
    } else {
      assert b >= 10;
      var pa, pb := NatToString(a / 10), NatToString(b / 10);
      assert sa[|sa| - 1] == DigitChar(a % 10) && sb[|sb| - 1] == DigitChar(b % 10);
      assert pa == sa[..|sa| - 1] && pb == sb[..|sb| - 1];
      NatToStringInjective(a / 10, b / 10);
    }
  }

  /** `created:Y-01-01..Y-12-31`, preceded by the space that separates it from the stars filter. */
  function CreatedFilter(year: nat): string
  {
    " created:" + (NatToString(year) + ("-01-01.." + (NatToString(year) + "-12-31")))
  }

  /** ` stars:s1..s2`, followed by the creation filter. */
  function StarsFilter(bucket: (nat, nat), year: nat): string
  {
    " stars:" + (NatToString(bucket.0) + (".." + (NatToString(bucket.1) + CreatedFilter(year))))
  }

  /** The search string `language:L stars:s1..s2 created:Y-01-01..Y-12-31`. */
  function Render(f: Facet): string
  {
    "language:" + (f.language + StarsFilter(f.bucket, f.year))
  }

  function RenderAll(facets: seq<Facet>): (r: seq<string>)
    ensures |r| == |facets|
    ensures forall i :: 0 <= i < |facets| ==> r[i] == Render(facets[i])
  {
    if facets == [] then [] else [Render(facets[0])] + RenderAll(facets[1..])
  }

  /** The configured query list. */
  function SearchQueries(): seq<string>
  {
    RenderAll(Facets(Languages, Years, StarBuckets))
  }

  // ---------------------------------------------------------------------------
  // Injectivity of Render
  // ---------------------------------------------------------------------------

  /** Position of the first `c` in `s`. */
  function IndexOf(s: string, c: char): (k: nat)
    requires c in s
    ensures k < |s| && s[k] == c
  {
    if s[0] == c then 0 else IndexOf(s[1..], c) + 1
  }

  lemma {:induction false} IndexOfAfterToken(a: string, r: string)
    requires |r| > 0 && r[0] !in a
    ensures r[0] in a + r && IndexOf(a + r, r[0]) == |a|
  {
    assert (a + r)[|a|] == r[0];
    if a != [] {
      assert (a + r)[0] == a[0];
      assert (a + r)[1..] == a[1..] + r;
      IndexOfAfterToken(a[1..], r);
    }
  }

  /**
   * If a token free of the separator's first character is followed by that
   * separator, the split point is determined.
   */
  lemma CancelToken(a1: string, r1: string, a2: string, r2: string)
    requires |r1| > 0 && |r2| > 0 && r1[0] == r2[0]
    requires r1[0] !in a1 && r2[0] !in a2
    requires a1 + r1 == a2 + r2
    ensures a1 == a2 && r1 == r2
  {
    IndexOfAfterToken(a1, r1);
    IndexOfAfterToken(a2, r2);
    assert a1 == (a1 + r1)[..|a1|] && a2 == (a2 + r2)[..|a2|];
    assert r1 == (a1 + r1)[|a1|..] && r2 == (a2 + r2)[|a2|..];
  }

  lemma CancelPrefix(p: string, x: string, y: string)
    requires p + x == p + y
    ensures x == y
  {
    assert x == (p + x)[|p|..] && y == (p + y)[|p|..];
  }

  lemma DigitsLackSeparators(n: nat)
    ensures ' ' !in NatToString(n) && '.' !in NatToString(n) && '-' !in NatToString(n)
  {
    var s := NatToString(n);
    forall i | 0 <= i < |s| ensures s[i] != ' ' && s[i] != '.' && s[i] != '-' {
      assert '0' <= s[i] <= '9';
    }
  }

  lemma CreatedFilterInjective(y1: nat, y2: nat)
    requires CreatedFilter(y1) == CreatedFilter(y2)
    ensures y1 == y2
  {
    CancelPrefix(" created:", NatToString(y1) + ("-01-01.." + (NatToString(y1) + "-12-31")),
                 NatToString(y2) + ("-01-01.." + (NatToString(y2) + "-12-31")));
    DigitsLackSeparators(y1);
    DigitsLackSeparators(y2);
    CancelToken(NatToString(y1), "-01-01.." + (NatToString(y1) + "-12-31"),
                NatToString(y2), "-01-01.." + (NatToString(y2) + "-12-31"));
    NatToStringInjective(y1, y2);
  }

  lemma StarsFilterInjective(b1: (nat, nat), y1: nat, b2: (nat, nat), y2: nat)
    requires StarsFilter(b1, y1) == StarsFilter(b2, y2)
    ensures b1 == b2 && y1 == y2
  {
    CancelPrefix(" stars:", NatToString(b1.0) + (".." + (NatToString(b1.1) + CreatedFilter(y1))),
                 NatToString(b2.0) + (".." + (NatToString(b2.1) + CreatedFilter(y2))));
    DigitsLackSeparators(b1.0);
    DigitsLackSeparators(b2.0);
    CancelToken(NatToString(b1.0), ".." + (NatToString(b1.1) + CreatedFilter(y1)),
                NatToString(b2.0), ".." + (NatToString(b2.1) + CreatedFilter(y2)));
    NatToStringInjective(b1.0, b2.0);
    CancelPrefix("..", NatToString(b1.1) + CreatedFilter(y1), NatToString(b2.1) + CreatedFilter(y2));
    DigitsLackSeparators(b1.1);
    DigitsLackSeparators(b2.1);
    CancelToken(NatToString(b1.1), CreatedFilter(y1), NatToString(b2.1), CreatedFilter(y2));
    NatToStringInjective(b1.1, b2.1);
    CreatedFilterInjective(y1, y2);
  }

  /** Facets whose language name has no space render to different strings. */
  lemma RenderInjective(f: Facet, g: Facet)
    requires ' ' !in f.language && ' ' !in g.language
    requires Render(f) == Render(g)
    ensures f == g
  {
    CancelPrefix("language:", f.language + StarsFilter(f.bucket, f.year), g.language + StarsFilter(g.bucket, g.year));
    CancelToken(f.language, StarsFilter(f.bucket, f.year), g.language, StarsFilter(g.bucket, g.year));
    StarsFilterInjective(f.bucket, f.year, g.bucket, g.year);
  }

  // ---------------------------------------------------------------------------
  // What the configured partition promises
  // ---------------------------------------------------------------------------

  lemma ConfiguredDimensionsDistinct()
    ensures NoDuplicates(Languages) && NoDuplicates(Years) && NoDuplicates(StarBuckets)
    ensures forall l :: l in Languages ==> ' ' !in l
  {
  }

  /** 8 languages x 6 years x 5 buckets: 240 queries. */
  lemma SearchQueriesCount()
    ensures |SearchQueries()| == 240
  {
    FacetsLength(Languages, Years, StarBuckets);
  }

  /** The rendered cross product, at the index of a triple, for `p` items per language and `q` per year. */
  lemma RenderedAt(languages: seq<string>, years: seq<nat>, buckets: seq<(nat, nat)>, p: nat, q: nat, i: nat, j: nat, k: nat, idx: nat)
    requires i < |languages| && j < |years| && k < |buckets|
    requires p == |years| * |buckets| && q == |buckets| && idx == Offset(i, p) + Offset(j, q) + k
    ensures idx < |RenderAll(Facets(languages, years, buckets))|
    ensures RenderAll(Facets(languages, years, buckets))[idx] == Render(Facet(languages[i], years[j], buckets[k]))
  {
    FacetsAt(languages, years, buckets, i, j, k);
  }

  /** `(i*6 + j)*5 + k` is `i` blocks of 30 plus `j` blocks of 5 plus `k`. */
  lemma OrderIndex(i: nat, j: nat, k: nat)
    ensures (i * 6 + j) * 5 + k == Offset(i, 30) + Offset(j, 5) + k
  {
    OffsetIsProduct(i, 30);
    OffsetIsProduct(j, 5);
  }

  /** A rendered cross product of 6 years and 5 buckets, at the index of a triple. */
  lemma RenderedOrder(languages: seq<string>, years: seq<nat>, buckets: seq<(nat, nat)>, qs: seq<string>, i: nat, j: nat, k: nat)
    requires |years| == 6 && |buckets| == 5 && qs == RenderAll(Facets(languages, years, buckets))
    requires i < |languages| && j < 6 && k < 5
    ensures (i * 6 + j) * 5 + k < |qs| && qs[(i * 6 + j) * 5 + k] == Render(Facet(languages[i], years[j], buckets[k]))
  {
    OrderIndex(i, j, k);
    RenderedAt(languages, years, buckets, 30, 5, i, j, k, (i * 6 + j) * 5 + k);
  }

  /** Query number (i*6 + j)*5 + k is language i, year j, bucket k. */
  lemma SearchQueriesOrder(i: nat, j: nat, k: nat)
    requires i < |Languages| && j < |Years| && k < |StarBuckets|
    ensures (i * 6 + j) * 5 + k < |SearchQueries()|
    ensures SearchQueries()[(i * 6 + j) * 5 + k] == Render(Facet(Languages[i], Years[j], StarBuckets[k]))
  {
    RenderedOrder(Languages, Years, StarBuckets, SearchQueries(), i, j, k);
  }

  /** Distinct facets whose language names have no space render to distinct strings. */
  lemma RenderAllDistinct(fs: seq<Facet>)
    requires NoDuplicates(fs)
    requires forall i :: 0 <= i < |fs| ==> ' ' !in fs[i].language
    ensures NoDuplicates(RenderAll(fs))
  {
    forall i, j | 0 <= i < j < |fs| ensures RenderAll(fs)[i] != RenderAll(fs)[j] {
      if Render(fs[i]) == Render(fs[j]) {
        RenderInjective(fs[i], fs[j]);
      }
    }
  }

  /** Every facet of the cross product carries one of the configured language names. */
  lemma FacetLanguagesConfigured(languages: seq<string>, years: seq<nat>, buckets: seq<(nat, nat)>)
    requires forall l :: l in languages ==> ' ' !in l
    ensures forall i :: 0 <= i < |Facets(languages, years, buckets)| ==> ' ' !in Facets(languages, years, buckets)[i].language
  {
    var fs := Facets(languages, years, buckets);
    forall i | 0 <= i < |fs| ensures ' ' !in fs[i].language {
      FacetsMembership(languages, years, buckets, fs[i]);
    }
  }

  /** With duplicate-free dimensions and space-free language names, no rendered query repeats. */
  lemma RenderedDistinct(languages: seq<string>, years: seq<nat>, buckets: seq<(nat, nat)>, qs: seq<string>)
    requires NoDuplicates(languages) && NoDuplicates(years) && NoDuplicates(buckets)
    requires forall l :: l in languages ==> ' ' !in l
    requires qs == RenderAll(Facets(languages, years, buckets))
    ensures NoDuplicates(qs)
  {
    FacetsDistinct(languages, years, buckets);
    FacetLanguagesConfigured(languages, years, buckets);
    RenderAllDistinct(Facets(languages, years, buckets));
  }

  /** No search string is produced twice. */
  lemma SearchQueriesDistinct()
    ensures NoDuplicates(SearchQueries())
  {
    ConfiguredDimensionsDistinct();
    RenderedDistinct(Languages, Years, StarBuckets, SearchQueries());
  }

  /** Each star bucket starts where the previous one ends. */
  lemma BucketsShareEndpoints()
    ensures forall k :: 0 <= k < |StarBuckets| - 1 ==> StarBuckets[k].1 == StarBuckets[k + 1].0
  {
    ChainedBuckets(StarBuckets);
  }

  /** Consecutive ranges meet: each starts at the previous one's upper end. */
  predicate Chained(buckets: seq<(nat, nat)>)
  {
    |buckets| < 2 || (buckets[0].1 == buckets[1].0 && Chained(buckets[1..]))
  }

  lemma {:induction false} ChainedBuckets(buckets: seq<(nat, nat)>)
    requires Chained(buckets)
    ensures forall k :: 0 <= k < |buckets| - 1 ==> buckets[k].1 == buckets[k + 1].0
  {
    if |buckets| >= 2 {
      ChainedBuckets(buckets[1..]);
      forall k | 1 <= k < |buckets| - 1 ensures buckets[k].1 == buckets[k + 1].0 {
        assert buckets[1..][k - 1] == buckets[k] && buckets[1..][k] == buckets[k + 1];
      }
    }
  }

  /**
   * `stars:a..b` is inclusive at both ends, so a repository whose star count is
   * a shared endpoint matches two facets: the facets are not disjoint.
   */
  lemma FacetsOverlap()
    ensures exists f, g :: f in Facets(Languages, Years, StarBuckets) && g in Facets(Languages, Years, StarBuckets)
                           && f != g && f.language == g.language && f.year == g.year && f.bucket.1 == g.bucket.0
  {
    var f := Facet("Python", 2020, (1, 10));
    var g := Facet("Python", 2020, (10, 50));
    FacetsMembership(Languages, Years, StarBuckets, f);
    FacetsMembership(Languages, Years, StarBuckets, g);
  }
}
