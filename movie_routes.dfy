/** The bodies of the movie routes (backend/routes/movies.js) as operations on
    the stored sequence of records.  The JSON file the routes read and write
    is the sequence before and after; an HTTP error status is an `Err`. */
module MovieRoutes {
  import opened JsValues
  import opened Text
  import Seqs
  import Sorting
  import CsvParser

  // ---------------------------------------------------------------------
  // parseInt(req.params.id)
  // ---------------------------------------------------------------------

  /** The value of `c` as a digit in base 16 or lower, and 16 for a character
      that is no such digit. */
  function DigitValue(c: char): (d: nat)
    ensures d <= 16
    ensures d < 10 <==> IsDigit(c)
  {
    if IsDigit(c) then c as int - '0' as int
    else if 'a' <= c <= 'f' then c as int - 'a' as int + 10
    else if 'A' <= c <= 'F' then c as int - 'A' as int + 10
    else 16
  }

  predicate IsRadixDigits(ds: string, radix: nat) {
    forall i :: 0 <= i < |ds| ==> DigitValue(ds[i]) < radix
  }

  /** The length of the run of base-`radix` digits at the front of `s`. */
  function RadixRun(s: string, radix: nat): (k: nat)
    ensures k <= |s| && IsRadixDigits(s[..k], radix)
    ensures k < |s| ==> DigitValue(s[k]) >= radix
  {
    if s != [] && DigitValue(s[0]) < radix then
      var k := 1 + RadixRun(s[1..], radix);
      assert s[..k] == [s[0]] + s[1..][..k - 1];
      k
    else 0
  }

  /** The number the digits `ds` denote in base `radix`. */
  function RadixValue(ds: string, radix: nat): nat
    requires IsRadixDigits(ds, radix)
  {
    if ds == [] then 0
    else radix * RadixValue(ds[..|ds| - 1], radix) + DigitValue(ds[|ds| - 1])
  }

  /** The unsigned part of `parseInt`: a "0x" or "0X" prefix selects base 16,
      and the longest run of digits that follows is read; `None` stands for
      `NaN`. */
  function ParseMagnitude(u: string): Option<nat> {
    var hex := |u| >= 2 && u[0] == '0' && (u[1] == 'x' || u[1] == 'X');
    var radix := if hex then 16 else 10;
    var w := if hex then u[2..] else u;
    var k := RadixRun(w, radix);
    if k == 0 then None else Some(RadixValue(w[..k], radix))
  }

  /** `parseInt(s)` with no radix: leading white space and one sign are
      skipped before the magnitude is read. */
  function ParseInt(s: string): Option<int> {
    var t := TrimStart(s);
    var negative := t != [] && t[0] == '-';
    var u := if t != [] && (t[0] == '-' || t[0] == '+') then t[1..] else t;
    match ParseMagnitude(u)
    case None => None
    case Some(n) => Some(if negative then -(n as int) else n as int)
  }

  /** Decimal digits read in base 10 give their usual value. */
  lemma {:induction false} RadixDecimal(ds: string)
    requires CsvParser.AllDigits(ds)
    ensures IsRadixDigits(ds, 10)
    ensures RadixValue(ds, 10) == CsvParser.DigitsValue(ds)
  {
    if ds != [] {
      RadixDecimal(ds[..|ds| - 1]);
    }
  }

  /** The decimal form of `n` reads back as `n`. */
  lemma MagnitudeDecimal(n: nat)
    ensures ParseMagnitude(CsvParser.DecimalString(n)) == Some(n)
  {
    var d := CsvParser.DecimalString(n);
    CsvParser.DecimalStringValue(n);
    RadixDecimal(d);
    assert RadixRun(d, 10) == |d| by {
      RadixRunAll(d, 10);
    }
    assert d[..|d|] == d;
    assert |d| >= 2 ==> d[1] != 'x' && d[1] != 'X' by {
      if |d| >= 2 {
        assert IsDigit(d[1]);
      }
    }
  }

  /** Text that starts with a digit is read as its magnitude. */
  lemma ParseIntDigits(s: string)
    requires s != [] && IsDigit(s[0])
    ensures ParseMagnitude(s).Some? ==> ParseInt(s) == Some(ParseMagnitude(s).value as int)
  {
    assert !IsSpace(s[0]) && s[0] != '-' && s[0] != '+';
    assert TrimStart(s) == s;
  }

  /** A minus sign in front of a digit negates the magnitude. */
  lemma ParseIntMinus(s: string)
    requires s != [] && IsDigit(s[0])
    ensures ParseMagnitude(s).Some? ==> ParseInt("-" + s) == Some(-(ParseMagnitude(s).value as int))
  {
    var m := "-" + s;
    assert m[0] == '-';
    assert TrimStart(m) == m;
    assert m[1..] == s;
  }

  /** Every integer written in decimal is parsed back to itself. */
  lemma ParseIntRoundTrip(n: nat)
    ensures ParseInt(CsvParser.DecimalString(n)) == Some(n)
  {
    MagnitudeDecimal(n);
    ParseIntDigits(CsvParser.DecimalString(n));
  }

  /** A minus sign in front negates it. */
  lemma ParseIntNegative(n: nat)
    ensures ParseInt("-" + CsvParser.DecimalString(n)) == Some(-(n as int))
  {
    MagnitudeDecimal(n);
    ParseIntMinus(CsvParser.DecimalString(n));
  }

  /** A run of digits that fills the whole string. */
  lemma {:induction false} RadixRunAll(s: string, radix: nat)
    requires IsRadixDigits(s, radix)
    ensures RadixRun(s, radix) == |s|
  {
    if s != [] {
      assert IsRadixDigits(s[1..], radix) by {
        forall i | 0 <= i < |s[1..]| ensures DigitValue(s[1..][i]) < radix {
          assert s[1..][i] == s[i + 1];
        }
      }
      RadixRunAll(s[1..], radix);
    }
  }

  /** Text that does not start with a digit, after white space and a sign,
      is not a number. */
  lemma ParseIntNaN(s: string)
    requires var t := TrimStart(s);
      var u := if t != [] && (t[0] == '-' || t[0] == '+') then t[1..] else t;
      u == [] || !IsDigit(u[0])
    ensures ParseInt(s) == None
  {
  }

  // ---------------------------------------------------------------------
  // Finding a record by id
  // ---------------------------------------------------------------------

  /** `m.id === id`: strict equality with the parsed number, which `NaN`
      never satisfies. */
  predicate HasId(m: Record, id: Option<int>) {
    id.Some? && Get(m, "id") == Some(Num(id.value as real))
  }

  /** `movies.findIndex(m => m.id === id)`. */
  function FindIndex(movies: seq<Record>, id: Option<int>): (r: int)
    ensures -1 <= r < |movies|
    ensures r >= 0 ==> HasId(movies[r], id) && forall j :: 0 <= j < r ==> !HasId(movies[j], id)
    ensures r == -1 <==> forall j :: 0 <= j < |movies| ==> !HasId(movies[j], id)
  {
    if movies == [] then -1
    else if HasId(movies[0], id) then 0
    else
      var k := FindIndex(movies[1..], id);
      assert forall j :: 1 <= j < |movies| ==> movies[j] == movies[1..][j - 1];
      if k == -1 then -1 else k + 1
  }

  /** Position `i` holds the first record with the id. */
  predicate FirstWithId(movies: seq<Record>, id: Option<int>, i: int) {
    0 <= i < |movies| && HasId(movies[i], id) && forall j :: 0 <= j < i ==> !HasId(movies[j], id)
  }

  /** GET `/:id`: the first record with the id, or "Movie not found". */
  function GetById(movies: seq<Record>, param: string): (r: Result<Record, string>)
    ensures r.Ok? ==> r.value in movies && HasId(r.value, ParseInt(param))
    ensures r.Ok? ==> exists i :: FirstWithId(movies, ParseInt(param), i) && movies[i] == r.value
    ensures r.Err? <==> forall m :: m in movies ==> !HasId(m, ParseInt(param))
    ensures r.Err? ==> r.error == "Movie not found"
  {
    var i := FindIndex(movies, ParseInt(param));
    if i >= 0 then Ok(movies[i]) else Err("Movie not found")
  }

  // ---------------------------------------------------------------------
  // POST /
  // ---------------------------------------------------------------------

  /** `Math.max(...movies.map(m => m.id))` for a non-empty store: `None`
      (for `NaN`) as soon as one id is not a number. */
  function MaxId(movies: seq<Record>): (r: Option<real>)
    requires movies != []
    ensures r.Some? <==> forall i :: 0 <= i < |movies| ==> "id" in movies[i] && movies[i]["id"].Num?
    ensures r.Some? ==> forall i :: 0 <= i < |movies| ==> movies[i]["id"].n <= r.value
    ensures r.Some? ==> exists i :: 0 <= i < |movies| && movies[i]["id"].n == r.value
  {
    var n := |movies| - 1;
    var last := Get(movies[n], "id");
    if !(last.Some? && last.value.Num?) then None
    else if n == 0 then Some(last.value.n)
    else
      match MaxId(movies[..n])
      case None => None
      case Some(x) => Some(if last.value.n > x then last.value.n else x)
  }

  /** The id POST computes: one more than the largest id, 1 for an empty
      store, and `null` (JSON's rendering of `NaN`) when an id is not a number. */
  function NextId(movies: seq<Record>): Value {
    if |movies| == 0 then Num(1.0)
    else
      match MaxId(movies)
      case Some(x) => Num(x + 1.0)
      case None => Null
  }

  /** A numeric next id is larger than every id in the store, and is the
      largest plus one. */
  lemma NextIdFresh(movies: seq<Record>)
    ensures NextId(movies).Num? ==> forall i :: 0 <= i < |movies| ==>
              "id" in movies[i] && movies[i]["id"].Num? && movies[i]["id"].n < NextId(movies).n
    ensures movies != [] && NextId(movies).Num? ==>
              exists i :: 0 <= i < |movies| && "id" in movies[i] && movies[i]["id"].Num? && movies[i]["id"].n + 1.0 == NextId(movies).n
    ensures movies == [] ==> NextId(movies) == Num(1.0)
  {
  }

  /** `{ id: NextId, ...body, createdAt: now }`. */
  function NewMovie(movies: seq<Record>, body: Record, now: string): Record {
    (map["id" := NextId(movies)] + body)["createdAt" := Str(now)]
  }

  /** The new record holds exactly the body's fields, an id and the creation
      time; the body's own id overrides the computed one, while the creation
      time overrides any the body has. */
  lemma NewMovieFields(movies: seq<Record>, body: Record, now: string)
    ensures NewMovie(movies, body, now).Keys == body.Keys + {"id", "createdAt"}
    ensures NewMovie(movies, body, now)["createdAt"] == Str(now)
    ensures NewMovie(movies, body, now)["id"] == if "id" in body then body["id"] else NextId(movies)
    ensures forall k :: k in body && k != "createdAt" ==> NewMovie(movies, body, now)[k] == body[k]
  {
  }

  // ---------------------------------------------------------------------
  // PUT /:id
  // ---------------------------------------------------------------------

  /** `{ ...movies[index], ...body, updatedAt: now }`. */
  function Merge(current: Record, body: Record, now: string): Record {
    (current + body)["updatedAt" := Str(now)]
  }

  /** The body's fields win over the current ones, the update time wins over
      both, and every other current field is kept. */
  lemma MergeFields(current: Record, body: Record, now: string)
    ensures Merge(current, body, now).Keys == current.Keys + body.Keys + {"updatedAt"}
    ensures Merge(current, body, now)["updatedAt"] == Str(now)
    ensures forall k :: k in body && k != "updatedAt" ==> Merge(current, body, now)[k] == body[k]
    ensures forall k :: k in current && k !in body && k != "updatedAt" ==> Merge(current, body, now)[k] == current[k]
  {
  }

  // ---------------------------------------------------------------------
  // DELETE /:id
  // ---------------------------------------------------------------------

  /** `movies.filter(m => m.id !== id)`. */
  function Remaining(movies: seq<Record>, id: Option<int>): seq<Record> {
    Seqs.Filter(movies, (m: Record) => !HasId(m, id))
  }

  /** Deleting removes every copy of the records with the id, keeps every
      copy of the others, keeps their order (cutting the store anywhere cuts
      the result at the matching place), and shortens the store exactly when
      some record had the id. */
  lemma RemainingFacts(movies: seq<Record>, id: Option<int>)
    ensures forall m :: m in Remaining(movies, id) <==> m in movies && !HasId(m, id)
    ensures forall m :: multiset(Remaining(movies, id))[m] == if HasId(m, id) then 0 else multiset(movies)[m]
    ensures forall i :: 0 <= i <= |movies| ==>
              Remaining(movies, id) == Remaining(movies[..i], id) + Remaining(movies[i..], id)
    ensures |Remaining(movies, id)| < |movies| <==> exists i :: 0 <= i < |movies| && HasId(movies[i], id)
  {
    var p := (m: Record) => !HasId(m, id);
    forall m ensures m in Remaining(movies, id) <==> m in movies && !HasId(m, id) {
      Seqs.FilterMember(movies, p, m);
    }
    Seqs.FilterCount(movies, p);
    forall i | 0 <= i <= |movies|
      ensures Remaining(movies, id) == Remaining(movies[..i], id) + Remaining(movies[i..], id)
    {
      Seqs.FilterSplit(movies, p, i);
    }
    Seqs.FilterKeepsAll(movies, p);
  }

  /** The stored movies, read and written by the routes that change them. */
  class MovieStore {
    var movies: seq<Record>

    constructor(initial: seq<Record>)
      ensures movies == initial
    {
      movies := initial;
    }

    /** POST `/`: appends the new record and answers with it. */
    method Post(body: Record, now: string) returns (created: Record)
      modifies this
      ensures created == NewMovie(old(movies), body, now)
      ensures movies == old(movies) + [created]
    {
      created := NewMovie(movies, body, now);
      movies := movies + [created];
    }

    /** PUT `/:id`: merges the body into the first record with the id. */
    method Put(param: string, body: Record, now: string) returns (r: Result<Record, string>)
      modifies this
      ensures var i := FindIndex(old(movies), ParseInt(param));
        if i >= 0 then
          movies == old(movies)[i := Merge(old(movies)[i], body, now)] && r == Ok(movies[i])
        else
          movies == old(movies) && r == Err("Movie not found")
    {
      var index := FindIndex(movies, ParseInt(param));
      if index != -1 {
        movies := movies[index := Merge(movies[index], body, now)];
        r := Ok(movies[index]);
      } else {
        r := Err("Movie not found");
      }
    }

    /** DELETE `/:id`: writes back the records without the id, unless there
        was none. */
    method Delete(param: string) returns (r: Result<string, string>)
      modifies this
      ensures var kept := Remaining(old(movies), ParseInt(param));
        if |kept| < |old(movies)| then
          movies == kept && r == Ok("Movie deleted successfully")
        else
          movies == old(movies) && r == Err("Movie not found")
    {
      var filtered := Remaining(movies, ParseInt(param));
      if |filtered| < |movies| {
        movies := filtered;
        r := Ok("Movie deleted successfully");
      } else {
        r := Err("Movie not found");
      }
    }
  }

  /** PUT changes only the record it finds, and keeps the store's length. */
  lemma PutChangesOne(movies: seq<Record>, param: string, body: Record, now: string, i: int)
    requires i == FindIndex(movies, ParseInt(param)) && i >= 0
    ensures var after := movies[i := Merge(movies[i], body, now)];
      |after| == |movies| && forall j :: 0 <= j < |movies| && j != i ==> after[j] == movies[j]
  {
  }

  // ---------------------------------------------------------------------
  // GET /top10
  // ---------------------------------------------------------------------

  /** `m.worldwide_gross_usd || m.worldwideGross`, taken as a test. */
  predicate HasGross(m: Record) {
    Truthy(Get(m, "worldwide_gross_usd")) || Truthy(Get(m, "worldwideGross"))
  }

  /** `a.worldwide_gross_usd || a.worldwideGross || 0` as the comparator's number. */
  function TopGross(m: Record): real {
    AsNumber(Or(Or(Get(m, "worldwide_gross_usd"), Get(m, "worldwideGross")), Some(Num(0.0))))
  }

  /** The records with a gross, largest first. */
  function ByGross(movies: seq<Record>): seq<Record> {
    Sorting.Sort(Seqs.Filter(movies, HasGross), Sorting.ByKeyDesc(TopGross))
  }

  /** GET `/top10`: the first ten of them. */
  function Top10(movies: seq<Record>): seq<Record> {
    var sorted := ByGross(movies);
    if |sorted| <= 10 then sorted else sorted[..10]
  }

  /** At most ten records, each with a gross and from the store, ordered by
      non-increasing gross; they are the front of the full ordering, and all
      records with a gross when there are at most ten of them. */
  lemma Top10Facts(movies: seq<Record>)
    ensures |Top10(movies)| <= 10
    ensures forall i :: 0 <= i < |Top10(movies)| ==> HasGross(Top10(movies)[i]) && Top10(movies)[i] in movies
    ensures Sorting.SortedDesc(Top10(movies), TopGross)
    ensures Top10(movies) == ByGross(movies)[..|Top10(movies)|]
    ensures |Top10(movies)| < 10 ==> multiset(Top10(movies)) == multiset(Seqs.Filter(movies, HasGross))
  {
    var filtered := Seqs.Filter(movies, HasGross);
    var sorted := ByGross(movies);
    Sorting.SortPermutes(filtered, Sorting.ByKeyDesc(TopGross));
    Sorting.SortSorted(filtered, TopGross);
    var top := Top10(movies);
    assert top == sorted[..|top|];
    forall i | 0 <= i < |top| ensures HasGross(top[i]) && top[i] in movies {
      assert top[i] == sorted[i];
      assert sorted[i] in multiset(filtered);
    }
    if |top| < 10 {
      assert top == sorted;
    }
  }

  // ---------------------------------------------------------------------
  // GET /category/:category and /categories/:category
  // ---------------------------------------------------------------------

  /** `m.category && m.category.toLowerCase() === category.toLowerCase()`;
      `None` when a truthy category that is not a string makes
      `toLowerCase` throw. */
  function CategoryTest(m: Record, category: string): Option<bool> {
    var c := Get(m, "category");
    if !Truthy(c) then Some(false)
    else if c.value.Str? then Some(ToLower(c.value.s) == ToLower(category))
    else None
  }

  predicate InCategory(m: Record, category: string) {
    CategoryTest(m, category) == Some(true)
  }

  /** The two category routes: the records of the category, ignoring case,
      or an error when the filter throws. */
  function ByCategory(movies: seq<Record>, category: string): Result<seq<Record>, string> {
    if exists i :: 0 <= i < |movies| && CategoryTest(movies[i], category).None? then Err("Internal server error")
    else Ok(Seqs.Filter(movies, (m: Record) => InCategory(m, category)))
  }

  /** The filter fails exactly when some record has a category that is not a
      string; otherwise it keeps every copy of the records whose category
      equals the parameter ignoring case, and no record without a category,
      in their order: cutting the store anywhere cuts the result at the
      matching place. */
  lemma ByCategoryFacts(movies: seq<Record>, category: string)
    ensures ByCategory(movies, category).Err? <==>
      exists i :: 0 <= i < |movies| && Truthy(Get(movies[i], "category")) && !movies[i]["category"].Str?
    ensures ByCategory(movies, category).Ok? ==> forall m: Record ::
      m in ByCategory(movies, category).value <==>
        m in movies && "category" in m && m["category"].Str? && m["category"].s != ""
        && ToLower(m["category"].s) == ToLower(category)
    ensures ByCategory(movies, category).Ok? ==> forall m: Record ::
      multiset(ByCategory(movies, category).value)[m] == if InCategory(m, category) then multiset(movies)[m] else 0
    ensures ByCategory(movies, category).Ok? ==> forall i :: 0 <= i <= |movies| ==>
      ByCategory(movies[..i], category).Ok? && ByCategory(movies[i..], category).Ok?
      && ByCategory(movies, category).value == ByCategory(movies[..i], category).value + ByCategory(movies[i..], category).value
  {
    if ByCategory(movies, category).Ok? {
      ByCategoryCopies(movies, category);
      forall i | 0 <= i <= |movies|
        ensures ByCategory(movies[..i], category).Ok? && ByCategory(movies[i..], category).Ok?
        ensures ByCategory(movies, category).value == ByCategory(movies[..i], category).value + ByCategory(movies[i..], category).value
      {
        ByCategoryCut(movies, category, i);
      }
    }
  }

  /** The records an accepted filter keeps, counted with their copies. */
  lemma ByCategoryCopies(movies: seq<Record>, category: string)
    requires ByCategory(movies, category).Ok?
    ensures forall m: Record :: m in ByCategory(movies, category).value <==>
              m in movies && "category" in m && m["category"].Str? && m["category"].s != ""
              && ToLower(m["category"].s) == ToLower(category)
    ensures forall m: Record ::
              multiset(ByCategory(movies, category).value)[m] == if InCategory(m, category) then multiset(movies)[m] else 0
  {
    var p := (m: Record) => InCategory(m, category);
    forall m ensures m in ByCategory(movies, category).value <==> m in movies && p(m) {
      Seqs.FilterMember(movies, p, m);
    }
    Seqs.FilterCount(movies, p);
  }

  /** A store the filter accepts is accepted in any two pieces, and the
      result is the two pieces' results one after the other. */
  lemma ByCategoryCut(movies: seq<Record>, category: string, i: nat)
    requires ByCategory(movies, category).Ok? && i <= |movies|
    ensures ByCategory(movies[..i], category).Ok? && ByCategory(movies[i..], category).Ok?
    ensures ByCategory(movies, category).value == ByCategory(movies[..i], category).value + ByCategory(movies[i..], category).value
  {
    var a, b := movies[..i], movies[i..];
    forall j | 0 <= j < |a| ensures CategoryTest(a[j], category).Some? {
      assert a[j] == movies[j];
    }
    forall j | 0 <= j < |b| ensures CategoryTest(b[j], category).Some? {
      assert b[j] == movies[i + j];
    }
    Seqs.FilterSplit(movies, (m: Record) => InCategory(m, category), i);
  }
}
