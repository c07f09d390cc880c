/** The aggregates of the statistics routes (backend/routes/stats.js): the
    summary of GET `/` and the per-industry table of GET `/industries`, as
    functions of the stored sequence of records. */
module Stats {
  import opened JsValues
  import Seqs

  // ---------------------------------------------------------------------
  // Sums
  // ---------------------------------------------------------------------

  /** `movies.reduce((sum, m) => sum + f(m), 0)`. */
  function Total(movies: seq<Record>, f: Record -> real): real {
    if movies == [] then 0.0 else f(movies[0]) + Total(movies[1..], f)
  }

  /** Sums split over concatenation, so the order of the records does not
      matter to where a record's amount is added. */
  lemma {:induction false} TotalAppend(a: seq<Record>, b: seq<Record>, f: Record -> real)
    ensures Total(a + b, f) == Total(a, f) + Total(b, f)
  {
    if a != [] {
      assert (a + b)[0] == a[0];
      assert (a + b)[1..] == a[1..] + b;
      TotalAppend(a[1..], b, f);
    } else {
      assert a + b == b;
    }
  }

  /** `f` where `p` holds and 0 elsewhere. */
  function Only(p: Record -> bool, f: Record -> real): Record -> real {
    (m: Record) => if p(m) then f(m) else 0.0
  }

  /** Summing over the records that pass a filter is summing over all of them
      with the others counted as 0. */
  lemma {:induction false} TotalFilter(movies: seq<Record>, p: Record -> bool, f: Record -> real)
    ensures Total(Seqs.Filter(movies, p), f) == Total(movies, Only(p, f))
  {
    if movies != [] {
      TotalFilter(movies[1..], p, f);
      Seqs.FilterCons(movies[0], movies[1..], p);
      assert movies == [movies[0]] + movies[1..];
      if p(movies[0]) {
        TotalAppend([movies[0]], Seqs.Filter(movies[1..], p), f);
        assert [movies[0]][1..] == [];
      } else {
        assert Seqs.Filter(movies, p) == Seqs.Filter(movies[1..], p);
      }
    }
  }

  /** A sum of amounts each at most `hi` is at most `hi` times their number. */
  lemma {:induction false} TotalAtMost(movies: seq<Record>, f: Record -> real, hi: real)
    requires forall i :: 0 <= i < |movies| ==> f(movies[i]) <= hi
    ensures Total(movies, f) <= hi * |movies| as real
  {
    if movies != [] {
      assert forall i :: 0 <= i < |movies[1..]| ==> movies[1..][i] == movies[i + 1];
      TotalAtMost(movies[1..], f, hi);
      assert hi * |movies| as real == hi + hi * |movies[1..]| as real;
    }
  }

  /** A sum of amounts each at least `lo` is at least `lo` times their number. */
  lemma {:induction false} TotalAtLeast(movies: seq<Record>, f: Record -> real, lo: real)
    requires forall i :: 0 <= i < |movies| ==> lo <= f(movies[i])
    ensures lo * |movies| as real <= Total(movies, f)
  {
    if movies != [] {
      assert forall i :: 0 <= i < |movies[1..]| ==> movies[1..][i] == movies[i + 1];
      TotalAtLeast(movies[1..], f, lo);
      assert lo * |movies| as real == lo + lo * |movies[1..]| as real;
    }
  }

  // ---------------------------------------------------------------------
  // The per-record amounts
  // ---------------------------------------------------------------------

  function GrossUsd(m: Record): real { NumberOrZero(m, "worldwide_gross_usd") }
  function GrossInr(m: Record): real { NumberOrZero(m, "worldwide_gross_inr") }
  function Rating(m: Record): real { NumberOrZero(m, "imdb_rating") }
  function BudgetUsd(m: Record): real { NumberOrZero(m, "budget_usd") }

  /** The exchange rate the INR budget falls back on. */
  const RupeesPerDollar: real := 83.0

  /** `m.budget_inr || (m.budget_usd || 0) * 83`. */
  function BudgetInr(m: Record): real {
    var inr := Get(m, "budget_inr");
    if Truthy(inr) then AsNumber(inr) else BudgetUsd(m) * RupeesPerDollar
  }

  /** A record with no INR budget contributes its USD budget converted at 83
      rupees to the dollar, and one with neither contributes nothing. */
  lemma BudgetInrFallback(m: Record)
    ensures !Truthy(Get(m, "budget_inr")) ==> BudgetInr(m) == 83.0 * BudgetUsd(m)
    ensures !Truthy(Get(m, "budget_inr")) && !Truthy(Get(m, "budget_usd")) ==> BudgetInr(m) == 0.0
    ensures "budget_inr" in m && m["budget_inr"].Num? && m["budget_inr"].n != 0.0 ==> BudgetInr(m) == m["budget_inr"].n
  {
  }

  /** When no record has an INR budget, the INR total is the USD total
      converted at 83 rupees to the dollar. */
  lemma {:induction false} BudgetInrTotal(movies: seq<Record>)
    requires forall i :: 0 <= i < |movies| ==> !Truthy(Get(movies[i], "budget_inr"))
    ensures Total(movies, BudgetInr) == RupeesPerDollar * Total(movies, BudgetUsd)
  {
    if movies != [] {
      assert forall i :: 0 <= i < |movies[1..]| ==> movies[1..][i] == movies[i + 1];
      BudgetInrTotal(movies[1..]);
    }
  }

  // ---------------------------------------------------------------------
  // Industries
  // ---------------------------------------------------------------------

  /** The fixed industry labels, in the order both routes use. */
  const Labels: seq<string> := ["Hollywood", "Bollywood", "Tollywood"]

  /** `m.category === industry`: strict, case-sensitive equality. */
  function InIndustry(industry: string): Record -> bool {
    (m: Record) => Get(m, "category") == Some(Str(industry))
  }

  /** `movies.filter(m => m.category === industry).length`. */
  function IndustryCount(movies: seq<Record>, industry: string): nat {
    |Seqs.Filter(movies, InIndustry(industry))|
  }

  /** A record falls in at most one of the three industries, so the three
      counts add up to at most the number of records. */
  lemma {:induction false} IndustryCountsBounded(movies: seq<Record>)
    ensures IndustryCount(movies, "Hollywood") + IndustryCount(movies, "Bollywood")
            + IndustryCount(movies, "Tollywood") <= |movies|
  {
    if movies != [] {
      var m, rest := movies[0], movies[1..];
      assert movies == [m] + rest;
      IndustryCountsBounded(rest);
      Seqs.FilterCons(m, rest, InIndustry("Hollywood"));
      Seqs.FilterCons(m, rest, InIndustry("Bollywood"));
      Seqs.FilterCons(m, rest, InIndustry("Tollywood"));
      assert !(InIndustry("Hollywood")(m) && InIndustry("Bollywood")(m));
      assert !(InIndustry("Hollywood")(m) && InIndustry("Tollywood")(m));
      assert !(InIndustry("Bollywood")(m) && InIndustry("Tollywood")(m));
    }
  }

  // ---------------------------------------------------------------------
  // Year range
  // ---------------------------------------------------------------------

  predicate HasYear(m: Record) {
    Truthy(Get(m, "year"))
  }

  /** `movies.map(m => m.year).filter(y => y)`, read as numbers. */
  function Years(movies: seq<Record>): (ys: seq<real>)
    ensures |ys| <= |movies|
  {
    var dated := Seqs.Filter(movies, HasYear);
    seq(|dated|, i requires 0 <= i < |dated| => AsNumber(Get(dated[i], "year")))
  }

  /** `Math.min(...xs)`; `None` for no arguments (`Infinity`, which JSON
      writes as `null`). */
  function Least(xs: seq<real>): (r: Option<real>)
    ensures r.Some? <==> xs != []
    ensures r.Some? ==> r.value in xs && forall i :: 0 <= i < |xs| ==> r.value <= xs[i]
  {
    if xs == [] then None
    else
      match Least(xs[1..])
      case None => Some(xs[0])
      case Some(x) =>
        assert forall i :: 1 <= i < |xs| ==> xs[i] == xs[1..][i - 1];
        Some(if xs[0] < x then xs[0] else x)
  }

  /** `Math.max(...xs)`; `None` for no arguments (`-Infinity`, written as `null`). */
  function Greatest(xs: seq<real>): (r: Option<real>)
    ensures r.Some? <==> xs != []
    ensures r.Some? ==> r.value in xs && forall i :: 0 <= i < |xs| ==> xs[i] <= r.value
  {
    if xs == [] then None
    else
      match Greatest(xs[1..])
      case None => Some(xs[0])
      case Some(x) =>
        assert forall i :: 1 <= i < |xs| ==> xs[i] == xs[1..][i - 1];
        Some(if xs[0] > x then xs[0] else x)
  }

  /** Every element of `Years` is the year of a record that has one. */
  lemma YearsFrom(movies: seq<Record>, y: real)
    requires y in Years(movies)
    ensures exists m :: m in movies && HasYear(m) && AsNumber(Get(m, "year")) == y
  {
    var dated := Seqs.Filter(movies, HasYear);
    var i :| 0 <= i < |dated| && Years(movies)[i] == y;
    assert dated[i] in movies && HasYear(dated[i]);
  }

  // ---------------------------------------------------------------------
  // GET /
  // ---------------------------------------------------------------------

  /** The JSON object GET `/` answers with; `avgRating` is the number before
      `toFixed(2)`, `None` for `NaN`. */
  datatype Summary = Summary(
    totalMovies: nat,
    totalRevenueUSD: real,
    totalRevenueINR: real,
    avgRating: Option<real>,
    totalBudgetUSD: real,
    totalBudgetINR: real,
    hollywood: nat,
    bollywood: nat,
    tollywood: nat,
    minYear: Option<real>,
    maxYear: Option<real>)

  /** The rating total over the number of records: `0 / 0` is `NaN`. */
  function Average(movies: seq<Record>): Option<real> {
    if |movies| == 0 then None else Some(Total(movies, Rating) / |movies| as real)
  }

  function Summarize(movies: seq<Record>): Summary {
    Summary(
      |movies|,
      Total(movies, GrossUsd),
      Total(movies, GrossInr),
      Average(movies),
      Total(movies, BudgetUsd),
      Total(movies, BudgetInr),
      IndustryCount(movies, "Hollywood"),
      IndustryCount(movies, "Bollywood"),
      IndustryCount(movies, "Tollywood"),
      Least(Years(movies)),
      Greatest(Years(movies)))
  }

  /** The revenue totals count a record without a truthy gross as 0: they are
      the sums over just the records that have one. */
  lemma SummaryRevenue(movies: seq<Record>)
    ensures Summarize(movies).totalMovies == |movies|
    ensures Summarize(movies).totalRevenueUSD
            == Total(Seqs.Filter(movies, (m: Record) => Truthy(Get(m, "worldwide_gross_usd"))), GrossUsd)
    ensures Summarize(movies).totalRevenueINR
            == Total(Seqs.Filter(movies, (m: Record) => Truthy(Get(m, "worldwide_gross_inr"))), GrossInr)
  {
    var pu := (m: Record) => Truthy(Get(m, "worldwide_gross_usd"));
    var pi := (m: Record) => Truthy(Get(m, "worldwide_gross_inr"));
    TotalFilter(movies, pu, GrossUsd);
    TotalFilter(movies, pi, GrossInr);
    TotalSame(movies, Only(pu, GrossUsd), GrossUsd);
    TotalSame(movies, Only(pi, GrossInr), GrossInr);
  }

  /** Two amounts that agree on every record have the same total. */
  lemma {:induction false} TotalSame(movies: seq<Record>, f: Record -> real, g: Record -> real)
    requires forall i :: 0 <= i < |movies| ==> f(movies[i]) == g(movies[i])
    ensures Total(movies, f) == Total(movies, g)
  {
    if movies != [] {
      assert forall i :: 0 <= i < |movies[1..]| ==> movies[1..][i] == movies[i + 1];
      TotalSame(movies[1..], f, g);
    }
  }

  /** The average is undefined for an empty store, and lies between the
      smallest and largest possible rating when every rating does. */
  lemma SummaryRating(movies: seq<Record>, lo: real, hi: real)
    requires forall i :: 0 <= i < |movies| ==> lo <= Rating(movies[i]) <= hi
    ensures Summarize(movies).avgRating.None? <==> movies == []
    ensures Summarize(movies).avgRating.Some? ==> lo <= Summarize(movies).avgRating.value <= hi
  {
    if movies != [] {
      TotalAtMost(movies, Rating, hi);
      TotalAtLeast(movies, Rating, lo);
      QuotientBounds(Total(movies, Rating), |movies| as real, lo, hi);
    }
  }

  /** A total between `lo * n` and `hi * n` has its average between `lo` and `hi`. */
  lemma QuotientBounds(t: real, n: real, lo: real, hi: real)
    requires n > 0.0 && lo * n <= t <= hi * n
    ensures lo <= t / n <= hi
  {
    assert t / n <= (hi * n) / n == hi;
    assert lo == (lo * n) / n <= t / n;
  }

  /** The three industry counts add up to at most the number of records. */
  lemma SummaryIndustries(movies: seq<Record>)
    ensures var s := Summarize(movies);
      s.hollywood + s.bollywood + s.tollywood <= s.totalMovies
  {
    IndustryCountsBounded(movies);
  }

  /** When some record has a year, the range is defined, its minimum is at
      most its maximum, and both are years of records in the store. */
  lemma SummaryYears(movies: seq<Record>)
    ensures var s := Summarize(movies);
      s.minYear.Some? <==> exists i :: 0 <= i < |movies| && HasYear(movies[i])
    ensures var s := Summarize(movies);
      s.minYear.Some? ==> s.maxYear.Some? && s.minYear.value <= s.maxYear.value
    ensures var s := Summarize(movies);
      s.minYear.Some? ==> exists m :: m in movies && HasYear(m) && AsNumber(Get(m, "year")) == s.minYear.value
    ensures var s := Summarize(movies);
      s.maxYear.Some? ==> exists m :: m in movies && HasYear(m) && AsNumber(Get(m, "year")) == s.maxYear.value
  {
    var ys := Years(movies);
    var dated := Seqs.Filter(movies, HasYear);
    assert |ys| == |dated|;
    if exists i :: 0 <= i < |movies| && HasYear(movies[i]) {
      var i :| 0 <= i < |movies| && HasYear(movies[i]);
      Seqs.FilterMember(movies, HasYear, movies[i]);
      assert dated != [];
    }
    if ys != [] {
      YearsFrom(movies, Least(ys).value);
      YearsFrom(movies, Greatest(ys).value);
      assert Least(ys).value <= ys[0] <= Greatest(ys).value;
    }
  }

  // ---------------------------------------------------------------------
  // GET /industries
  // ---------------------------------------------------------------------

  /** One entry of the industry table; `avgRating` is the number before
      `toFixed(2)`. */
  datatype IndustryEntry = IndustryEntry(
    industry: string, count: nat, revenueUSD: real, revenueINR: real, avgRating: real)

  function Entry(movies: seq<Record>, industry: string): IndustryEntry {
    var members := Seqs.Filter(movies, InIndustry(industry));
    IndustryEntry(
      industry,
      |members|,
      Total(members, GrossUsd),
      Total(members, GrossInr),
      if |members| > 0 then Total(members, Rating) / |members| as real else 0.0)
  }

  function IndustryTable(movies: seq<Record>): seq<IndustryEntry> {
    seq(|Labels|, i requires 0 <= i < |Labels| => Entry(movies, Labels[i]))
  }

  /** Exactly three entries in the fixed label order; each counts the same
      records as the summary does, its revenues count only the records of
      that industry, and an industry with no records has average 0. */
  lemma IndustryTableFacts(movies: seq<Record>)
    ensures |IndustryTable(movies)| == 3
    ensures forall i :: 0 <= i < 3 ==> IndustryTable(movies)[i].industry == Labels[i]
    ensures IndustryTable(movies)[0].count == Summarize(movies).hollywood
    ensures IndustryTable(movies)[1].count == Summarize(movies).bollywood
    ensures IndustryTable(movies)[2].count == Summarize(movies).tollywood
    ensures forall i :: 0 <= i < 3 ==>
      IndustryTable(movies)[i].revenueUSD == Total(movies, Only(InIndustry(Labels[i]), GrossUsd))
      && IndustryTable(movies)[i].revenueINR == Total(movies, Only(InIndustry(Labels[i]), GrossInr))
    ensures forall i :: 0 <= i < 3 && IndustryTable(movies)[i].count == 0 ==> IndustryTable(movies)[i].avgRating == 0.0
  {
    forall i | 0 <= i < 3
      ensures IndustryTable(movies)[i].revenueUSD == Total(movies, Only(InIndustry(Labels[i]), GrossUsd))
      ensures IndustryTable(movies)[i].revenueINR == Total(movies, Only(InIndustry(Labels[i]), GrossInr))
    {
      TotalFilter(movies, InIndustry(Labels[i]), GrossUsd);
      TotalFilter(movies, InIndustry(Labels[i]), GrossInr);
    }
  }
}
