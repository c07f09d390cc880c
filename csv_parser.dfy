/** The CSV import pipeline of backend/utils/csvParser.js: the quote-toggling
    line tokenizer, the header table, value coercion, row assembly and the
    final renumbering of ids. */
module CsvParser {
  import opened JsValues
  import opened Text
  import Seqs

  // ---------------------------------------------------------------------
  // parseCSVLine
  // ---------------------------------------------------------------------

  /** The tokenizer's variables: the fields finished so far, the field
      being accumulated, and whether the scan is inside quotes. */
  datatype Scanner = Scanner(values: seq<string>, current: string, inQuotes: bool)

  /** One character of the scan.  A quote only toggles the flag and is never
      kept; a comma outside quotes closes the current field. */
  function Step(st: Scanner, c: char): Scanner {
    if c == '"' then st.(inQuotes := !st.inQuotes)
    else if c == ',' && !st.inQuotes then Scanner(st.values + [st.current], "", st.inQuotes)
    else st.(current := st.current + [c])
  }

  /** The tokenizer's variables after it has read all of `line`. */
  function Scan(line: string): Scanner {
    if line == [] then Scanner([], "", false)
    else Step(Scan(line[..|line| - 1]), line[|line| - 1])
  }

  /** The fields of a line: the finished ones and the last accumulator. */
  function Tokenize(line: string): seq<string> {
    Scan(line).values + [Scan(line).current]
  }

  /** Whether position `i` of `line` is preceded by an even number of quotes,
      i.e. lies outside a quoted stretch. */
  predicate OutsideQuotes(line: string, i: nat)
    requires i <= |line|
  {
    Count(line[..i], '"') % 2 == 0
  }

  /** The number of commas of `line` that lie outside quotes. */
  function SeparatorCount(line: string): nat {
    if line == [] then 0
    else
      var n := |line| - 1;
      SeparatorCount(line[..n]) + (if line[n] == ',' && OutsideQuotes(line, n) then 1 else 0)
  }

  /** The quote flag is the parity of the quotes read so far. */
  lemma {:induction false} ScanQuotes(line: string)
    ensures Scan(line).inQuotes <==> !OutsideQuotes(line, |line|)
  {
    if line != [] {
      var n := |line| - 1;
      var p := line[..n];
      ScanQuotes(p);
      assert Count(line, '"') == Count(p, '"') + (if line[n] == '"' then 1 else 0);
      assert line[..|line|] == line && p[..|p|] == p;
    }
  }

  /** One field was closed per separator, and no field holds a quote. */
  lemma {:induction false} ScanFields(line: string)
    ensures |Scan(line).values| == SeparatorCount(line)
    ensures forall i :: 0 <= i < |Scan(line).values| ==> '"' !in Scan(line).values[i]
    ensures '"' !in Scan(line).current
  {
    if line != [] {
      var n := |line| - 1;
      var p := line[..n];
      ScanFields(p);
      ScanQuotes(p);
      assert p[..|p|] == p;
    }
  }

  /** The fields joined by commas give back the line with its quotes deleted. */
  lemma {:induction false} ScanJoin(line: string)
    ensures Join(Scan(line).values + [Scan(line).current], ",") == Without(line, '"')
  {
    if line != [] {
      var n := |line| - 1;
      var p, c := line[..n], line[n];
      ScanJoin(p);
      var st := Scan(p);
      if c == '"' {
      } else if c == ',' && !st.inQuotes {
        JoinSnoc(st.values + [st.current], "", ",");
      } else if st.values != [] {
        JoinSnoc(st.values, st.current, ",");
        JoinSnoc(st.values, st.current + [c], ",");
      }
    }
  }

  /** The properties of `parseCSVLine` as the tokenizer's contract: no field
      holds a quote, joining the fields with commas recovers the line with
      its quotes deleted, and there are one more fields than separators. */
  lemma TokenizeFacts(line: string)
    ensures forall i :: 0 <= i < |Tokenize(line)| ==> '"' !in Tokenize(line)[i]
    ensures Join(Tokenize(line), ",") == Without(line, '"')
    ensures |Tokenize(line)| == 1 + SeparatorCount(line)
  {
    ScanFields(line);
    ScanJoin(line);
  }

  /** Reading one more character is one more step. */
  lemma ScanSnoc(p: string, c: char)
    ensures Scan(p + [c]) == Step(Scan(p), c)
  {
    assert (p + [c])[..|p|] == p;
  }

  /** The scan of `A,"B`: one field closed, "B" read inside quotes. */
  lemma QuotedCommaPrefix()
    ensures Scan("A,\"B") == Scanner(["A"], "B", true)
  {
    var p: string := "";
    ScanSnoc(p, 'A');
    p := p + ['A'];
    assert Scan(p) == Scanner([], "A", false);
    ScanSnoc(p, ',');
    p := p + [','];
    assert Scan(p) == Scanner(["A"], "", false);
    ScanSnoc(p, '"');
    p := p + ['"'];
    assert Scan(p) == Scanner(["A"], "", true);
    ScanSnoc(p, 'B');
    p := p + ['B'];
    assert p == "A,\"B";
  }

  /** A quoted field may hold the separator. */
  lemma QuotedCommaExample()
    ensures Tokenize("A,\"B,C\",D") == ["A", "B,C", "D"]
  {
    var p: string := "A,\"B";
    QuotedCommaPrefix();
    ScanSnoc(p, ',');
    p := p + [','];
    assert Scan(p) == Scanner(["A"], "B,", true);
    ScanSnoc(p, 'C');
    p := p + ['C'];
    assert Scan(p) == Scanner(["A"], "B,C", true);
    ScanSnoc(p, '"');
    p := p + ['"'];
    assert Scan(p) == Scanner(["A"], "B,C", false);
    ScanSnoc(p, ',');
    p := p + [','];
    assert Scan(p) == Scanner(["A", "B,C"], "", false);
    ScanSnoc(p, 'D');
    p := p + ['D'];
    assert Scan(p) == Scanner(["A", "B,C"], "D", false);
    assert p == "A,\"B,C\",D";
  }

  /** Characters other than quotes, and other than commas when outside
      quotes, only extend the current field. */
  lemma {:induction false} ScanPlain(p: string, q: string)
    requires '"' !in q
    requires !Scan(p).inQuotes ==> ',' !in q
    ensures Scan(p + q) == Scan(p).(current := Scan(p).current + q)
    decreases |q|
  {
    if q == [] {
      assert p + q == p;
    } else {
      var n := |q| - 1;
      assert q[..n] + [q[n]] == q;
      assert forall x :: x in q[..n] ==> x in q;
      ScanPlain(p, q[..n]);
      assert p + q == (p + q[..n]) + [q[n]];
      ScanSnoc(p + q[..n], q[n]);
    }
  }

  /** Fields each followed by a comma: the front of a line. */
  function Terminated(fs: seq<string>): string {
    if fs == [] then "" else Terminated(fs[..|fs| - 1]) + fs[|fs| - 1] + ","
  }

  /** A plain field and a comma, read outside quotes, close one more field. */
  lemma ScanField(p: string, vs: seq<string>, f: string)
    requires Scan(p) == Scanner(vs, "", false) && '"' !in f && ',' !in f
    ensures Scan(p + f + ",") == Scanner(vs + [f], "", false)
  {
    ScanPlain(p, f);
    assert "" + f == f;
    ScanSnoc(p + f, ',');
  }

  /** Plain fields, each closed by a comma, are read as those fields. */
  lemma {:induction false} ScanTerminated(fs: seq<string>)
    requires forall i :: 0 <= i < |fs| ==> '"' !in fs[i] && ',' !in fs[i]
    ensures Scan(Terminated(fs)) == Scanner(fs, "", false)
  {
    if fs != [] {
      var n := |fs| - 1;
      ScanTerminated(fs[..n]);
      ScanField(Terminated(fs[..n]), fs[..n], fs[n]);
      assert fs[..n] + [fs[n]] == fs;
    }
  }

  /** A joined line is its front fields, each closed by a comma, then the last. */
  lemma {:induction false} JoinTerminated(fs: seq<string>)
    requires fs != []
    ensures Join(fs, ",") == Terminated(fs[..|fs| - 1]) + fs[|fs| - 1]
  {
    var n := |fs| - 1;
    if n > 0 {
      JoinTerminated(fs[..n]);
      assert fs[..n] + [fs[n]] == fs;
      JoinSnoc(fs[..n], fs[n], ",");
      assert fs[..n][..n - 1] == fs[..n - 1];
    }
  }

  /** Fields joined by commas are read as the front fields closed and the
      last one still accumulating. */
  lemma ScanJoined(fs: seq<string>)
    requires fs != []
    requires forall i :: 0 <= i < |fs| ==> '"' !in fs[i] && ',' !in fs[i]
    ensures Scan(Join(fs, ",")) == Scanner(fs[..|fs| - 1], fs[|fs| - 1], false)
  {
    var n := |fs| - 1;
    var p := Terminated(fs[..n]);
    JoinTerminated(fs);
    ScanTerminated(fs[..n]);
    ScanPlain(p, fs[n]);
    assert "" + fs[n] == fs[n];
  }

  /** Tokenizing fields joined by commas gives the fields back, when no field
      holds a quote or a comma: the inverse direction of `TokenizeFacts`. */
  lemma TokenizeJoin(fs: seq<string>)
    requires fs != []
    requires forall i :: 0 <= i < |fs| ==> '"' !in fs[i] && ',' !in fs[i]
    ensures Tokenize(Join(fs, ",")) == fs
  {
    var n := |fs| - 1;
    var line := Join(fs, ",");
    ScanJoined(fs);
    assert Tokenize(line) == fs[..n] + [fs[n]];
    assert fs[..n] + [fs[n]] == fs;
  }

  /** A last field in quotes is read whole, commas included. */
  lemma TokenizeQuotedLast(fs: seq<string>, g: string)
    requires forall i :: 0 <= i < |fs| ==> '"' !in fs[i] && ',' !in fs[i]
    requires '"' !in g
    ensures Tokenize(Terminated(fs) + "\"" + g + "\"") == fs + [g]
  {
    var p := Terminated(fs);
    ScanTerminated(fs);
    ScanSnoc(p, '"');
    ScanPlain(p + "\"", g);
    assert "" + g == g;
    ScanSnoc(p + "\"" + g, '"');
  }

  /** `parseCSVLine`: one left-to-right pass over the characters. */
  method ParseCsvLine(line: string) returns (values: seq<string>)
    ensures values == Tokenize(line)
    ensures forall i :: 0 <= i < |values| ==> '"' !in values[i]
    ensures Join(values, ",") == Without(line, '"')
    ensures |values| == 1 + SeparatorCount(line)
  {
    values := [];
    var current := "";
    var inQuotes := false;
    for i := 0 to |line|
      invariant Scanner(values, current, inQuotes) == Scan(line[..i])
    {
      assert line[..i + 1][..i] == line[..i];
      var c := line[i];
      if c == '"' {
        inQuotes := !inQuotes;
      } else if c == ',' && !inQuotes {
        values := values + [current];
        current := "";
      } else {
        current := current + [c];
      }
    }
    assert line[..|line|] == line;
    values := values + [current];
    TokenizeFacts(line);
  }

  // ---------------------------------------------------------------------
  // mapCSVHeader
  // ---------------------------------------------------------------------

  /** The fixed table from CSV column names to canonical field names
      (`headerMap`); `None` for a name that is not in it. */
  function HeaderTable(h: string): Option<string> {
    match h
    case "ID" => Some("id")
    case "id" => Some("id")
    case "Rank" => Some("rank")
    case "rank" => Some("rank")
    case "Title" => Some("title")
    case "title" => Some("title")
    case "Year" => Some("year")
    case "year" => Some("year")
    case "Industry" => Some("category")
    case "industry" => Some("category")
    case "Category" => Some("category")
    case "category" => Some("category")
    case "Genre" => Some("genres")
    case "genre" => Some("genres")
    case "Genres" => Some("genres")
    case "IMDb_Rating" => Some("imdb_rating")
    case "imdb_rating" => Some("imdb_rating")
    case "Director" => Some("director")
    case "director" => Some("director")
    case "Cast" => Some("cast")
    case "cast" => Some("cast")
    case "Worldwide_Gross_USD" => Some("worldwide_gross_usd")
    case "worldwide_gross_usd" => Some("worldwide_gross_usd")
    case "Worldwide_Gross_INR" => Some("worldwide_gross_inr")
    case "worldwide_gross_inr" => Some("worldwide_gross_inr")
    case "Language" => Some("language")
    case "language" => Some("language")
    case "Poster_URL" => Some("poster_url")
    case "poster_url" => Some("poster_url")
    case "Trailer_URL" => Some("trailer_url")
    case "trailer_url" => Some("trailer_url")
    case "Description" => Some("description")
    case "description" => Some("description")
    case "Movie_URL" => Some("source_urls")
    case "movie_url" => Some("source_urls")
    case "Source_URL" => Some("source_urls")
    case "source_url" => Some("source_urls")
    case "Country" => Some("country")
    case "country" => Some("country")
    case "Runtime" => Some("runtime")
    case "runtime" => Some("runtime")
    case "Certificate" => Some("certificate")
    case "certificate" => Some("certificate")
    case "Budget_INR" => Some("budget_inr")
    case "budget_inr" => Some("budget_inr")
    case "Budget_USD" => Some("budget_usd")
    case "budget_usd" => Some("budget_usd")
    case "Profit_INR" => Some("profit_inr")
    case "profit_inr" => Some("profit_inr")
    case "Awards" => Some("awards")
    case "awards" => Some("awards")
    case "Release_Date" => Some("release_date")
    case "release_date" => Some("release_date")
    case "Domestic_Gross_USD" => Some("domestic_gross_usd")
    case "domestic_gross_usd" => Some("domestic_gross_usd")
    case "Domestic_Gross_INR" => Some("domestic_gross_inr")
    case "domestic_gross_inr" => Some("domestic_gross_inr")
    case _ => None
  }

  /** `s` with every maximal run of white space replaced by one underscore
      (`replace(/\s+/g, '_')`). */
  function CollapseSpaces(s: string): (r: string)
    ensures forall i :: 0 <= i < |r| ==> !IsSpace(r[i])
    decreases |s|
  {
    if s == [] then []
    else if IsSpace(s[0]) then
      var rest := TrimStart(s);
      assert rest != [] ==> rest[0] == s[|s| - |rest|];
      assert forall i :: 0 <= i < |rest| ==> rest[i] == s[|s| - |rest| + i];
      "_" + CollapseSpaces(rest)
    else
      assert forall i :: 0 <= i < |s| - 1 ==> s[1..][i] == s[i + 1];
      [s[0]] + CollapseSpaces(s[1..])
  }

  /** Text free of white space is kept as it is, and a run `w` of white space
      after it becomes a single underscore. */
  lemma CollapseSpacesRun(a: string, w: string, b: string)
    requires forall i :: 0 <= i < |a| ==> !IsSpace(a[i])
    requires w != [] && forall i :: 0 <= i < |w| ==> IsSpace(w[i])
    requires b == [] || !IsSpace(b[0])
    ensures CollapseSpaces(a + w + b) == a + "_" + CollapseSpaces(b)
  {
    var x, cb := w + b, CollapseSpaces(b);
    assert a + w + b == a + x;
    CollapsePrefix(a, x);
    CollapseRun(w, b);
    assert a + ("_" + cb) == a + "_" + cb;
  }

  /** A prefix free of white space is kept as it is. */
  lemma {:induction false} CollapsePrefix(a: string, x: string)
    requires forall i :: 0 <= i < |a| ==> !IsSpace(a[i])
    ensures CollapseSpaces(a + x) == a + CollapseSpaces(x)
    decreases |a|
  {
    if a == [] {
      assert a + x == x;
    } else {
      var c, t := a[0], a[1..] + x;
      assert a + x == [c] + t;
      CollapsePrefix(a[1..], x);
      CollapseKeep(c, t);
      assert [c] + (a[1..] + CollapseSpaces(x)) == a + CollapseSpaces(x);
    }
  }

  /** A run of white space in front of `b` becomes one underscore. */
  lemma CollapseRun(w: string, b: string)
    requires w != [] && forall i :: 0 <= i < |w| ==> IsSpace(w[i])
    requires b == [] || !IsSpace(b[0])
    ensures CollapseSpaces(w + b) == "_" + CollapseSpaces(b)
  {
    TrimStartSkip(w, b);
    assert (w + b)[0] == w[0];
  }

  /** Text without white space is left as it is. */
  lemma {:induction false} CollapseSpacesNone(s: string)
    ensures (forall i :: 0 <= i < |s| ==> !IsSpace(s[i])) ==> CollapseSpaces(s) == s
    decreases |s|
  {
    if s != [] && forall i :: 0 <= i < |s| ==> !IsSpace(s[i]) {
      CollapseSpacesNone(s[1..]);
      assert forall i :: 0 <= i < |s| - 1 ==> s[1..][i] == s[i + 1];
      assert [s[0]] + s[1..] == s;
    }
  }

  /** Collapsing white space adds no capital letter. */
  lemma {:induction false} CollapseSpacesLower(s: string)
    requires forall i :: 0 <= i < |s| ==> !IsUpper(s[i])
    ensures forall i :: 0 <= i < |CollapseSpaces(s)| ==> !IsUpper(CollapseSpaces(s)[i])
    decreases |s|
  {
    if s != [] {
      if IsSpace(s[0]) {
        var rest := TrimStart(s);
        assert forall i :: 0 <= i < |rest| ==> rest[i] == s[|s| - |rest| + i];
        CollapseSpacesLower(rest);
      } else {
        assert forall i :: 0 <= i < |s| - 1 ==> s[1..][i] == s[i + 1];
        CollapseSpacesLower(s[1..]);
      }
    }
  }

  /** A first character that is not white space is kept. */
  lemma CollapseKeep(c: char, t: string)
    requires !IsSpace(c)
    ensures CollapseSpaces([c] + t) == [c] + CollapseSpaces(t)
  {
    assert ([c] + t)[1..] == t;
  }

  /** The canonical name of a column that is not in the table. */
  function FallbackName(h: string): (r: string)
    ensures forall i :: 0 <= i < |r| ==> !IsSpace(r[i]) && !IsUpper(r[i])
  {
    CollapseSpacesLower(ToLower(h));
    CollapseSpaces(ToLower(h))
  }

  /** A name that is already lower-case and free of white space is its own
      fallback name. */
  lemma FallbackNameFixed(h: string)
    requires forall i :: 0 <= i < |h| ==> !IsSpace(h[i]) && !IsUpper(h[i])
    ensures FallbackName(h) == h
  {
    assert ToLower(h) == h;
    CollapseSpacesNone(h);
  }

  /** The fallback is idempotent. */
  lemma FallbackNameIdempotent(h: string)
    ensures FallbackName(FallbackName(h)) == FallbackName(h)
  {
    FallbackNameFixed(FallbackName(h));
  }

  /** `mapCSVHeader`: the table entry for a known column, otherwise the
      lower-cased name with white space runs turned into underscores. */
  function MapHeader(h: string): (r: string)
    ensures HeaderTable(h).Some? ==> r == HeaderTable(h).value
    ensures HeaderTable(h).None? ==> forall i :: 0 <= i < |r| ==> !IsSpace(r[i]) && !IsUpper(r[i])
    ensures HeaderTable(h).None? && (forall i :: 0 <= i < |h| ==> !IsSpace(h[i])) ==> r == ToLower(h)
  {
    match HeaderTable(h)
    case Some(name) => name
    case None =>
      ToLowerSpaces(h);
      CollapseSpacesNone(ToLower(h));
      FallbackName(h)
  }

  /** Two words separated by white space are normalised to both words
      lower-cased and joined by one underscore, however much white space
      separates them. */
  lemma FallbackNameWords(a: string, w: string, b: string)
    requires forall i :: 0 <= i < |a| ==> !IsSpace(a[i])
    requires w != [] && forall i :: 0 <= i < |w| ==> IsSpace(w[i])
    requires forall i :: 0 <= i < |b| ==> !IsSpace(b[i])
    ensures FallbackName(a + w + b) == ToLower(a) + "_" + ToLower(b)
  {
    var la, lw, lb := ToLower(a), ToLower(w), ToLower(b);
    ToLowerAppend(a + w, b);
    ToLowerAppend(a, w);
    assert ToLower(a + w + b) == la + lw + lb;
    ToLowerSpaces(a);
    ToLowerSpaces(w);
    ToLowerSpaces(b);
    CollapseSpacesRun(la, lw, lb);
    CollapseSpacesNone(lb);
  }

  /** A two-word column outside the table is named by its normalised words. */
  lemma MapHeaderWords(a: string, w: string, b: string)
    requires HeaderTable(a + w + b).None?
    requires forall i :: 0 <= i < |a| ==> !IsSpace(a[i])
    requires w != [] && forall i :: 0 <= i < |w| ==> IsSpace(w[i])
    requires forall i :: 0 <= i < |b| ==> !IsSpace(b[i])
    ensures MapHeader(a + w + b) == ToLower(a) + "_" + ToLower(b)
  {
    FallbackNameWords(a, w, b);
  }

  // ---------------------------------------------------------------------
  // mapCSVField: numbers
  // ---------------------------------------------------------------------

  /** The length of the run of digits at the front of `s`. */
  function DigitRun(s: string): (k: nat)
    ensures k <= |s|
    ensures forall i :: 0 <= i < k ==> IsDigit(s[i])
    ensures k < |s| ==> !IsDigit(s[k])
  {
    if s != [] && IsDigit(s[0]) then 1 + DigitRun(s[1..]) else 0
  }

  predicate AllDigits(ds: string) {
    forall i :: 0 <= i < |ds| ==> IsDigit(ds[i])
  }

  /** The number a string of decimal digits denotes. */
  function DigitsValue(ds: string): nat
    requires AllDigits(ds)
  {
    if ds == [] then 0
    else 10 * DigitsValue(ds[..|ds| - 1]) + (ds[|ds| - 1] as int - '0' as int)
  }

  /** Three digits written after others shift them up by a thousand: the
      value of a thousands group. */
  lemma DigitsValueThousands(ds: string, gs: string)
    requires AllDigits(ds) && AllDigits(gs) && |gs| == 3
    ensures AllDigits(ds + gs)
    ensures DigitsValue(ds + gs) == 1000 * DigitsValue(ds) + DigitsValue(gs)
  {
    var s := ds + gs;
    var n := |ds|;
    var g0, g1, g2 := gs[0] as int - '0' as int, gs[1] as int - '0' as int, gs[2] as int - '0' as int;
    var s2 := s[..n + 2];
    var s1 := s2[..n + 1];
    assert s1[..n] == ds && s1[n] == gs[0];
    assert DigitsValue(s1) == 10 * DigitsValue(ds) + g0;
    assert s2[n + 1] == gs[1];
    assert DigitsValue(s2) == 10 * DigitsValue(s1) + g1;
    assert s[n + 2] == gs[2];
    assert DigitsValue(s) == 10 * DigitsValue(s2) + g2;
    assert gs[..1][..0] == [] && gs[..1][0] == gs[0];
    assert DigitsValue(gs[..1]) == g0;
    assert gs[..2][..1] == gs[..1] && gs[..2][1] == gs[1];
    assert DigitsValue(gs[..2]) == 10 * g0 + g1;
    assert DigitsValue(gs) == 10 * DigitsValue(gs[..2]) + g2;
  }

  /** The value of the digits after a decimal point, read from the last digit
      back: ".d" followed by the rest is (d + .rest) / 10. */
  function Fraction(ds: string): (r: real)
    requires AllDigits(ds)
    ensures 0.0 <= r < 1.0
  {
    if ds == [] then 0.0
    else ((ds[0] as int - '0' as int) as real + Fraction(ds[1..])) / 10.0
  }

  /** The number written with integer digits `ds` and fraction digits `fs`. */
  function DecimalValue(ds: string, fs: string): real
    requires AllDigits(ds) && AllDigits(fs)
  {
    DigitsValue(ds) as real + Fraction(fs)
  }

  /** The value of a fraction part ".ddd" at the front of `rest`, or 0 when
      `rest` does not start with a point. */
  function FractionAt(rest: string): real {
    if rest != [] && rest[0] == '.' then
      var u := rest[1..];
      Fraction(u[..DigitRun(u)])
    else 0.0
  }

  /** The unsigned decimal number at the front of `s` ("12", "12.", "12.5"
      or ".5"), or `None` when `s` does not start with one. */
  function ParseUnsigned(s: string): Option<real> {
    var k := DigitRun(s);
    if k > 0 then
      Some(DigitsValue(s[..k]) as real + FractionAt(s[k..]))
    else if |s| > 0 && s[0] == '.' && DigitRun(s[1..]) > 0 then
      Some(FractionAt(s))
    else
      None
  }

  /** `parseFloat` on a string made of digits, points and signs: the
      longest leading decimal number, `None` standing for `NaN`. */
  function ParseFloat(s: string): Option<real> {
    if s != [] && s[0] == '-' then
      match ParseUnsigned(s[1..])
      case Some(x) => Some(-x)
      case None => None
    else if s != [] && s[0] == '+' then ParseUnsigned(s[1..])
    else ParseUnsigned(s)
  }

  /** An integer part followed by something that does not continue a number. */
  lemma ParseUnsignedInteger(ds: string, tail: string)
    requires ds != [] && AllDigits(ds)
    requires tail == [] || (!IsDigit(tail[0]) && tail[0] != '.')
    ensures ParseUnsigned(ds + tail) == Some(DigitsValue(ds) as real)
  {
    DigitRunOf(ds, tail);
    assert (ds + tail)[..|ds|] == ds;
    assert (ds + tail)[|ds|..] == tail;
  }

  /** A fraction part followed by something that is not a digit. */
  lemma FractionAtDigits(fs: string, tail: string)
    requires AllDigits(fs)
    requires tail == [] || !IsDigit(tail[0])
    ensures FractionAt("." + fs + tail) == Fraction(fs)
  {
    var u := ("." + fs + tail)[1..];
    assert u == fs + tail;
    DigitRunOf(fs, tail);
    assert u[..DigitRun(u)] == fs;
  }

  /** An integer part, a point, a fraction and a tail that does not continue it. */
  lemma ParseUnsignedFraction(ds: string, fs: string, tail: string)
    requires ds != [] && AllDigits(ds) && AllDigits(fs)
    requires tail == [] || !IsDigit(tail[0])
    ensures ParseUnsigned(ds + "." + fs + tail) == Some(DecimalValue(ds, fs))
  {
    var t := "." + fs + tail;
    var s := ds + t;
    assert ds + "." + fs + tail == s;
    assert DigitRun(s) == |ds| by {
      DigitRunOf(ds, t);
    }
    assert s[..|ds|] == ds && s[|ds|..] == t;
    assert FractionAt(t) == Fraction(fs) by {
      FractionAtDigits(fs, tail);
    }
  }


  /** A leading minus negates the unsigned number after it. */
  lemma ParseFloatNegative(u: string)
    requires u != [] && IsDigit(u[0])
    ensures ParseFloat("-" + u) == match ParseUnsigned(u) case Some(x) => Some(-x) case None => None
  {
    assert ("-" + u)[1..] == u;
  }

  /** Without a sign the number is read as it is. */
  lemma ParseFloatUnsigned(u: string)
    requires u != [] && IsDigit(u[0])
    ensures ParseFloat(u) == ParseUnsigned(u)
  {
  }

  /** Reading a number back: an integer part, an optional fraction and any
      tail that does not continue the number parse to exactly the value
      they spell (a leading minus negates it, by `ParseFloatNegative`). */
  lemma ParseFloatDecimal(ds: string, fs: string, tail: string)
    requires ds != [] && AllDigits(ds) && AllDigits(fs)
    requires tail == [] || (!IsDigit(tail[0]) && tail[0] != '.')
    ensures ParseFloat(ds + tail) == Some(DigitsValue(ds) as real)
    ensures ParseFloat(ds + "." + fs + tail) == Some(DecimalValue(ds, fs))
  {
    ParseUnsignedInteger(ds, tail);
    ParseUnsignedFraction(ds, fs, tail);
    var a, b := ds + tail, ds + "." + fs + tail;
    assert a[0] == ds[0] && b[0] == ds[0];
    ParseFloatUnsigned(a);
    ParseFloatUnsigned(b);
  }

  /** The digit run of digits followed by a non-digit is exactly those digits. */
  lemma {:induction false} DigitRunOf(ds: string, tail: string)
    requires AllDigits(ds)
    requires tail == [] || !IsDigit(tail[0])
    ensures DigitRun(ds + tail) == |ds|
  {
    if ds != [] {
      assert (ds + tail)[1..] == ds[1..] + tail;
      DigitRunOf(ds[1..], tail);
    } else {
      assert ds + tail == tail;
    }
  }

  /** The decimal digits of `n`, without leading zeros. */
  function DecimalString(n: nat): (r: string)
    ensures r != [] && AllDigits(r)
  {
    var d := [('0' as int + n % 10) as char];
    if n < 10 then d else DecimalString(n / 10) + d
  }

  /** `DigitsValue` inverts `DecimalString`. */
  lemma {:induction false} DecimalStringValue(n: nat)
    ensures DigitsValue(DecimalString(n)) == n
  {
    var r := DecimalString(n);
    if n >= 10 {
      DecimalStringValue(n / 10);
      assert r[..|r| - 1] == DecimalString(n / 10);
    }
  }

  /** Every integer, written in decimal, parses back to itself. */
  lemma ParseFloatRoundTrip(n: nat)
    ensures ParseFloat(DecimalString(n)) == Some(n as real)
    ensures ParseFloat("-" + DecimalString(n)) == Some(-(n as real))
  {
    var d := DecimalString(n);
    DecimalStringValue(n);
    ParseFloatDecimal(d, "", "");
    assert d + "" == d;
    ParseUnsignedInteger(d, "");
    ParseFloatNegative(d);
  }

  // ---------------------------------------------------------------------
  // mapCSVField
  // ---------------------------------------------------------------------

  /** The values that mean "no value", whatever the column. */
  predicate IsBlank(value: string) {
    value == "" || Trim(value) == "" || value == "N/A" || value == "NA"
  }

  /** The canonical names whose values are coerced to numbers. */
  predicate IsNumericName(name: string) {
    Contains(name, "gross") || Contains(name, "budget") || Contains(name, "profit")
    || name == "id" || name == "rank" || name == "year" || name == "imdb_rating"
  }

  /** The canonical names whose values become lists of strings. */
  predicate IsListName(name: string) {
    name == "genres" || name == "source_urls"
  }

  predicate IsNumberChar(c: char) {
    IsDigit(c) || c == '.' || c == '-'
  }

  /** `value.replace(/[^0-9.-]/g, '')`. */
  function KeepNumeric(value: string): (r: string)
    ensures |r| <= |value|
    ensures forall i :: 0 <= i < |r| ==> IsNumberChar(r[i])
  {
    if value == [] then []
    else (if IsNumberChar(value[0]) then [value[0]] else []) + KeepNumeric(value[1..])
  }

  /** A string made only of digits, points and minus signs is kept whole,
      and one without any of them is emptied. */
  lemma {:induction false} KeepNumericExtremes(value: string)
    ensures (forall i :: 0 <= i < |value| ==> IsNumberChar(value[i])) ==> KeepNumeric(value) == value
    ensures (forall i :: 0 <= i < |value| ==> !IsNumberChar(value[i])) ==> KeepNumeric(value) == []
  {
    if value != [] {
      KeepNumericExtremes(value[1..]);
      assert [value[0]] + value[1..] == value;
    }
  }

  /** The numeric characters of a concatenation are those of its parts. */
  lemma {:induction false} KeepNumericAppend(a: string, b: string)
    ensures KeepNumeric(a + b) == KeepNumeric(a) + KeepNumeric(b)
  {
    if a == [] {
      assert a + b == b;
    } else {
      assert (a + b)[1..] == a[1..] + b;
      KeepNumericAppend(a[1..], b);
    }
  }

  /** Each piece trimmed. */
  function TrimAll(pieces: seq<string>): (r: seq<string>)
    ensures |r| == |pieces|
    ensures forall i :: 0 <= i < |r| ==> r[i] == Trim(pieces[i])
  {
    if pieces == [] then [] else [Trim(pieces[0])] + TrimAll(pieces[1..])
  }

  predicate NonEmpty(piece: string) {
    piece != ""
  }

  /** The trimmed, non-empty comma-separated pieces of `value`. */
  function ListPieces(value: string): (r: seq<string>)
    ensures forall i :: 0 <= i < |r| ==> r[i] != "" && ',' !in r[i]
    ensures forall i :: 0 <= i < |r| ==> !IsSpace(r[i][0]) && !IsSpace(r[i][|r[i]| - 1])
  {
    var pieces := Split(value, ',');
    var trimmed := TrimAll(pieces);
    assert forall i :: 0 <= i < |trimmed| ==> ',' !in trimmed[i] by {
      forall i | 0 <= i < |trimmed| ensures ',' !in trimmed[i] {
        assert ',' !in pieces[i];
      }
    }
    Seqs.Filter(trimmed, NonEmpty)
  }

  /** A parsed number as a field value; `NaN` omits the field. */
  function NumberValue(x: Option<real>): Option<Value> {
    match x
    case Some(n) => Some(Num(n))
    case None => None
  }

  /** The coercion `mapCSVField` applies to a non-blank cell of the column
      whose canonical name is `name`. */
  function Coerce(name: string, value: string): Option<Value> {
    if IsNumericName(name) then NumberValue(ParseFloat(KeepNumeric(value)))
    else if IsListName(name) then
      if ',' in value then Some(List(ListPieces(value))) else Some(List([value]))
    else if name == "release_date" then Some(Str(value))
    else if ToLower(value) == "true" then Some(Bool(true))
    else if ToLower(value) == "false" then Some(Bool(false))
    else Some(Str(value))
  }

  /** `mapCSVField`: the coerced value of one cell, `None` meaning that the
      field is omitted.  The coercion is chosen by the canonical name. */
  function MapField(header: string, value: string): Option<Value> {
    if IsBlank(value) then None else Coerce(MapHeader(header), value)
  }

  /** Only a number column can drop a non-blank cell, and only when the cell
      holds no number. */
  lemma CoerceOmitted(name: string, value: string)
    ensures Coerce(name, value) == None <==> IsNumericName(name) && ParseFloat(KeepNumeric(value)) == None
  {
  }

  /** Outside the numeric columns a cell is omitted exactly when it is blank;
      a numeric cell is omitted exactly when it is blank or holds no number. */
  lemma MapFieldOmitted(header: string, value: string)
    ensures !IsNumericName(MapHeader(header)) ==> (MapField(header, value) == None <==> IsBlank(value))
    ensures IsNumericName(MapHeader(header)) ==>
      (MapField(header, value) == None <==> IsBlank(value) || ParseFloat(KeepNumeric(value)) == None)
  {
    CoerceOmitted(MapHeader(header), value);
  }

  /** A cell that starts with neither white space nor "N" is not blank. */
  lemma NotBlankStart(value: string)
    requires value != [] && !IsSpace(value[0]) && value[0] != 'N'
    ensures !IsBlank(value)
  {
    TrimEmpty(value);
  }

  /** A numeric cell whose numeric characters read as `x` holds `x`. */
  lemma NumericCell(header: string, value: string, x: real)
    requires IsNumericName(MapHeader(header)) && !IsBlank(value)
    requires ParseFloat(KeepNumeric(value)) == Some(x)
    ensures MapField(header, value) == Some(Num(x))
  {
  }

  /** A currency sign in front of digits is dropped. */
  lemma KeepNumericSign(ds: string)
    requires AllDigits(ds)
    ensures KeepNumeric("$" + ds) == ds
  {
    KeepNumericAppend("$", ds);
    KeepNumericExtremes(ds);
  }

  /** A thousands separator in front of digits is dropped. */
  lemma KeepNumericGroup(x: string, gs: string)
    requires AllDigits(gs)
    ensures KeepNumeric(x + "," + gs) == KeepNumeric(x) + gs
  {
    var y := x + ",";
    assert KeepNumeric(y) == KeepNumeric(x) by {
      KeepNumericAppend(x, ",");
      KeepNumericExtremes(",");
      assert KeepNumeric(x) + [] == KeepNumeric(x);
    }
    assert KeepNumeric(gs) == gs by {
      KeepNumericExtremes(gs);
    }
    KeepNumericAppend(y, gs);
  }

  /** A decimal point in front of digits is kept. */
  lemma KeepNumericPoint(x: string, fs: string)
    requires AllDigits(fs)
    ensures KeepNumeric(x + "." + fs) == KeepNumeric(x) + "." + fs
  {
    var y := x + ".";
    assert KeepNumeric(y) == KeepNumeric(x) + "." by {
      KeepNumericAppend(x, ".");
      KeepNumericExtremes(".");
    }
    assert KeepNumeric(fs) == fs by {
      KeepNumericExtremes(fs);
    }
    KeepNumericAppend(y, fs);
  }

  /** Digits, a point and a fraction read as the number they spell. */
  lemma ParseFloatGrouped(ds: string, gs: string, fs: string)
    requires ds != [] && AllDigits(ds) && AllDigits(gs) && AllDigits(fs)
    ensures AllDigits(ds + gs)
    ensures ParseFloat(ds + gs + "." + fs) == Some(DecimalValue(ds + gs, fs))
  {
    assert AllDigits(ds + gs);
    ParseFloatDecimal(ds + gs, fs, "");
    assert ds + gs + "." + fs + "" == ds + gs + "." + fs;
  }

  /** A currency amount with a thousands separator and a fraction, such as "$1,234.50". */
  function CurrencyText(ds: string, gs: string, fs: string): string {
    "$" + ds + "," + gs + "." + fs
  }

  /** The numeric characters of a currency amount are its digits and its point. */
  lemma KeepNumericCurrency(ds: string, gs: string, fs: string)
    requires AllDigits(ds) && AllDigits(gs) && AllDigits(fs)
    ensures KeepNumeric(CurrencyText(ds, gs, fs)) == ds + gs + "." + fs
  {
    var x := "$" + ds;
    var y := x + "," + gs;
    assert CurrencyText(ds, gs, fs) == y + "." + fs;
    KeepNumericSign(ds);
    KeepNumericGroup(x, gs);
    KeepNumericPoint(y, fs);
  }

  /** A currency amount in a numeric column is the number its digits spell,
      read without the separator (so a three-digit group after it counts in
      thousands, by `DigitsValueThousands`). */
  lemma MapFieldCurrency(header: string, ds: string, gs: string, fs: string)
    requires IsNumericName(MapHeader(header))
    requires ds != [] && AllDigits(ds) && AllDigits(gs) && AllDigits(fs)
    ensures AllDigits(ds + gs)
    ensures MapField(header, CurrencyText(ds, gs, fs)) == Some(Num(DecimalValue(ds + gs, fs)))
  {
    var value := CurrencyText(ds, gs, fs);
    assert AllDigits(ds + gs);
    var x := DecimalValue(ds + gs, fs);
    assert !IsBlank(value) by {
      NotBlankStart(value);
    }
    assert ParseFloat(KeepNumeric(value)) == Some(x) by {
      KeepNumericCurrency(ds, gs, fs);
      ParseFloatGrouped(ds, gs, fs);
    }
    NumericCell(header, value, x);
  }

  /** In a number column an integer written in decimal, with or without a
      minus sign, is coerced to itself. */
  lemma CoerceInteger(name: string, n: nat)
    requires IsNumericName(name)
    ensures Coerce(name, DecimalString(n)) == Some(Num(n as real))
    ensures Coerce(name, "-" + DecimalString(n)) == Some(Num(-(n as real)))
  {
    var d := DecimalString(n);
    KeepNumericExtremes(d);
    KeepNumericExtremes("-" + d);
    ParseFloatRoundTrip(n);
  }

  /** An integer written in decimal, with or without a minus sign, is read
      back as itself. */
  lemma MapFieldInteger(header: string, n: nat)
    requires IsNumericName(MapHeader(header))
    ensures MapField(header, DecimalString(n)) == Some(Num(n as real))
    ensures MapField(header, "-" + DecimalString(n)) == Some(Num(-(n as real)))
  {
    NotBlankStart(DecimalString(n));
    NotBlankStart("-" + DecimalString(n));
    CoerceInteger(MapHeader(header), n);
  }

  /** Outside the number and list columns a non-blank cell is kept as the
      text it holds, unless it reads "true" or "false" ignoring case. */
  lemma MapFieldText(header: string, value: string)
    requires !IsNumericName(MapHeader(header)) && !IsListName(MapHeader(header)) && !IsBlank(value)
    requires ToLower(value) != "true" && ToLower(value) != "false"
    ensures MapField(header, value) == Some(Str(value))
  {
  }

  /** Outside the number columns a non-blank cell is always kept: as a list
      in a list column, verbatim in `release_date`, and elsewhere as a
      boolean exactly when it reads "true" or "false" ignoring case. */
  lemma MapFieldNonNumeric(header: string, value: string)
    requires !IsBlank(value) && !IsNumericName(MapHeader(header))
    ensures MapField(header, value).Some?
    ensures IsListName(MapHeader(header)) ==>
      MapField(header, value) == Some(List(if ',' in value then ListPieces(value) else [value]))
    ensures MapHeader(header) == "release_date" ==> MapField(header, value) == Some(Str(value))
    ensures !IsListName(MapHeader(header)) && MapHeader(header) != "release_date" ==>
      (MapField(header, value) == Some(Bool(true)) <==> ToLower(value) == "true")
      && (MapField(header, value) == Some(Bool(false)) <==> ToLower(value) == "false")
  {
  }

  /** A numeric cell without a digit, a point or a minus sign is omitted
      rather than read as zero. */
  lemma MapFieldNoNumber(header: string, value: string)
    requires IsNumericName(MapHeader(header))
    requires forall i :: 0 <= i < |value| ==> !IsNumberChar(value[i])
    ensures MapField(header, value) == None
  {
    KeepNumericExtremes(value);
  }

  /** Comma-free entries joined by commas come back as their trimmed forms,
      in order, with the blank ones dropped. */
  lemma ListPiecesJoin(xs: seq<string>)
    requires xs != []
    requires forall i :: 0 <= i < |xs| ==> ',' !in xs[i]
    ensures ListPieces(Join(xs, ",")) == Seqs.Filter(TrimAll(xs), NonEmpty)
  {
    SplitJoin(xs, ',');
    assert Split(Join(xs, [',']), ',') == xs;
  }

  /** Two comma-separated entries become the list of both, trimmed. */
  lemma ListPiecesTwo(a: string, b: string)
    requires ',' !in a && ',' !in b
    requires Trim(a) != "" && Trim(b) != ""
    ensures ListPieces(a + "," + b) == [Trim(a), Trim(b)]
  {
    SplitAt(a, b, ',');
    SplitNone(b, ',');
    assert a + "," + b == a + [','] + b;
    var pieces := [a, b];
    assert Split(a + "," + b, ',') == pieces;
    assert TrimAll(pieces) == [Trim(a), Trim(b)] by {
      assert pieces[1..] == [b];
      assert TrimAll([b]) == [Trim(b)];
    }
    Seqs.FilterCons(Trim(a), [Trim(b)], NonEmpty);
    Seqs.FilterCons(Trim(b), [], NonEmpty);
  }

  // ---------------------------------------------------------------------
  // parseCSV
  // ---------------------------------------------------------------------

  /** A header cell: trimmed, with every quote deleted. */
  function HeaderName(cell: string): (r: string)
    ensures '"' !in r
    ensures forall x :: x in r ==> x in cell
  {
    Without(Trim(cell), '"')
  }

  /** The header row, split on every comma: unlike a data row, a quoted
      header cell is not protected from splitting. */
  function HeaderNames(line: string): (r: seq<string>)
    ensures |r| == 1 + Count(line, ',')
    ensures forall i :: 0 <= i < |r| ==> '"' !in r[i] && ',' !in r[i]
  {
    SplitCount(line, ',');
    var pieces := Split(line, ',');
    seq(|pieces|, i requires 0 <= i < |pieces| => HeaderName(pieces[i]))
  }

  /** `value.trim().replace(/^"|"$/g, '')`: trimmed, then one quote dropped
      at the front and one at the end. */
  function CleanValue(value: string): (r: string)
    ensures |r| <= |Trim(value)|
  {
    var t := Trim(value);
    var u := if t != [] && t[0] == '"' then t[1..] else t;
    if u != [] && u[|u| - 1] == '"' then u[..|u| - 1] else u
  }

  /** The tokenizer leaves no quote in a field, so the quote removal of the
      row loop never changes a field: cleaning a field is trimming it. */
  lemma CleanValueUnquoted(value: string)
    requires '"' !in value
    ensures CleanValue(value) == Trim(value)
  {
    var t := Trim(value);
    assert forall i :: 0 <= i < |t| ==> t[i] in value;
  }

  /** One cell of a row after mapping: the field it names and the value it
      stores, `None` when the value is omitted. */
  datatype Cell = Cell(key: string, value: Option<Value>)

  /** Cell `c` sets field `k`. */
  predicate Sets(c: Cell, k: string) {
    c.value.Some? && c.key == k
  }

  /** The index of the last cell that sets `k`, or -1 when none does. */
  function LastSetter(cells: seq<Cell>, k: string): (r: int)
    ensures -1 <= r < |cells|
    ensures r >= 0 ==> Sets(cells[r], k)
    ensures forall j :: r < j < |cells| ==> !Sets(cells[j], k)
  {
    if cells == [] then -1
    else if Sets(cells[|cells| - 1], k) then |cells| - 1
    else LastSetter(cells[..|cells| - 1], k)
  }

  /** The object built by assigning the cells in order. */
  function Assemble(cells: seq<Cell>): Record {
    if cells == [] then map[]
    else
      var n := |cells| - 1;
      var m := Assemble(cells[..n]);
      if cells[n].value.Some? then m[cells[n].key := cells[n].value.value] else m
  }

  /** One more cell is one more assignment, made when the cell has a value. */
  lemma AssembleStep(cells: seq<Cell>, j: nat)
    requires j < |cells|
    ensures Assemble(cells[..j + 1])
            == if cells[j].value.Some? then Assemble(cells[..j])[cells[j].key := cells[j].value.value] else Assemble(cells[..j])
  {
    assert cells[..j + 1][..j] == cells[..j];
  }

  /** A field is present exactly when some cell sets it, and then holds the
      value of the last cell that does: later assignments win. */
  lemma {:induction false} AssembleField(cells: seq<Cell>, k: string)
    ensures k in Assemble(cells) <==> LastSetter(cells, k) >= 0
    ensures k in Assemble(cells) ==> Assemble(cells)[k] == cells[LastSetter(cells, k)].value.value
  {
    if cells != [] {
      var n := |cells| - 1;
      AssembleField(cells[..n], k);
      var i := LastSetter(cells[..n], k);
      if i >= 0 {
        assert cells[..n][i] == cells[i];
      }
    }
  }

  /** The mapped cells of a row: `movie[mapCSVHeader(header)] = mapCSVField(header, value)`
      for each header and its cleaned value. */
  function Cells(headers: seq<string>, values: seq<string>): (r: seq<Cell>)
    requires |headers| == |values|
    ensures |r| == |headers|
    ensures forall i :: 0 <= i < |r| ==>
              r[i] == Cell(MapHeader(headers[i]), MapField(headers[i], CleanValue(values[i])))
  {
    seq(|headers|, i requires 0 <= i < |headers| =>
      Cell(MapHeader(headers[i]), MapField(headers[i], CleanValue(values[i]))))
  }

  /** The record the row loop builds from one row. */
  function BuildRecord(headers: seq<string>, values: seq<string>): Record
    requires |headers| == |values|
  {
    Assemble(Cells(headers, values))
  }

  /** `movie.id && movie.title`: the row loop keeps a record only when both
      fields are truthy. */
  predicate Kept(m: Record) {
    Truthy(Get(m, "id")) && Truthy(Get(m, "title"))
  }

  /** `validateMovie`: both required fields are present and not null. */
  predicate ValidateMovie(m: Record) {
    "id" in m && m["id"] != Null && "title" in m && m["title"] != Null
  }

  /** Every record the import keeps is valid. */
  lemma KeptIsValid(m: Record)
    requires Kept(m)
    ensures ValidateMovie(m)
  {
  }

  /** The converse fails: a record with id 0 is valid but the import drops it. */
  lemma ValidNotKept()
    ensures ValidateMovie(map["id" := Num(0.0), "title" := Str("Untitled")])
    ensures !Kept(map["id" := Num(0.0), "title" := Str("Untitled")])
  {
    var m := map["id" := Num(0.0), "title" := Str("Untitled")];
    assert Get(m, "id") == Some(Num(0.0));
  }

  /** The record a data line contributes, if any: `None` when its field count
      differs from the header's or when the built record is not kept. */
  function RowOf(headers: seq<string>, line: string): (r: Option<Record>)
    ensures r.Some? <==> |Tokenize(line)| == |headers| && Kept(BuildRecord(headers, Tokenize(line)))
    ensures r.Some? ==> Kept(r.value) && r.value == BuildRecord(headers, Tokenize(line))
  {
    var values := Tokenize(line);
    if |values| != |headers| then None
    else
      var m := BuildRecord(headers, values);
      if Kept(m) then Some(m) else None
  }

  /** The records `read` yields for `lines`, in line order: one for each line
      it accepts, none for a line it rejects. */
  function Collect(read: string -> Option<Record>, lines: seq<string>): seq<Record> {
    if lines == [] then []
    else
      var n := |lines| - 1;
      var rest := Collect(read, lines[..n]);
      var row := read(lines[n]);
      if row.Some? then rest + [row.value] else rest
  }

  /** The row loop's reading of one data line under `headers`. */
  function Reader(headers: seq<string>): string -> Option<Record> {
    line => RowOf(headers, line)
  }

  /** The records the data lines contribute, in order. */
  function Rows(headers: seq<string>, lines: seq<string>): seq<Record> {
    Collect(Reader(headers), lines)
  }

  lemma CollectStep(read: string -> Option<Record>, lines: seq<string>, line: string)
    ensures Collect(read, lines + [line])
            == Collect(read, lines) + (var row := read(line); if row.Some? then [row.value] else [])
  {
    assert (lines + [line])[..|lines|] == lines;
  }

  /** Each line yields at most one record, and only one `read` accepts. */
  lemma {:induction false} CollectAccepted(read: string -> Option<Record>, lines: seq<string>)
    ensures |Collect(read, lines)| <= |lines|
    ensures forall i :: 0 <= i < |Collect(read, lines)| ==> exists line :: line in lines && read(line) == Some(Collect(read, lines)[i])
  {
    if lines != [] {
      var n := |lines| - 1;
      CollectAccepted(read, lines[..n]);
      var rest := Collect(read, lines[..n]);
      forall i | 0 <= i < |rest|
        ensures exists line :: line in lines && read(line) == Some(rest[i])
      {
        var line :| line in lines[..n] && read(line) == Some(rest[i]);
        assert line in lines;
      }
      assert lines[n] in lines;
    }
  }

  lemma {:induction false} CollectAppend(read: string -> Option<Record>, a: seq<string>, b: seq<string>)
    ensures Collect(read, a + b) == Collect(read, a) + Collect(read, b)
  {
    if b == [] {
      assert a + b == a;
    } else {
      var n := |b| - 1;
      var front, line := b[..n], b[n];
      assert b == front + [line];
      assert a + b == (a + front) + [line];
      CollectAppend(read, a, front);
      CollectStep(read, a + front, line);
      CollectStep(read, front, line);
    }
  }

  lemma {:induction false} CollectNone(read: string -> Option<Record>, lines: seq<string>)
    requires forall i :: 0 <= i < |lines| ==> read(lines[i]).None?
    ensures Collect(read, lines) == []
  {
    if lines != [] {
      CollectNone(read, lines[..|lines| - 1]);
    }
  }

  /** One more data line adds its record, if it yields one, at the end. */
  lemma RowsStep(headers: seq<string>, lines: seq<string>, line: string)
    ensures Rows(headers, lines + [line])
            == Rows(headers, lines) + (var row := RowOf(headers, line); if row.Some? then [row.value] else [])
  {
    CollectStep(Reader(headers), lines, line);
    assert Reader(headers)(line) == RowOf(headers, line);
  }

  /** `m` is the record built from `line`, whose field count matches the header's. */
  predicate BuiltFrom(headers: seq<string>, line: string, m: Record) {
    |Tokenize(line)| == |headers| && m == BuildRecord(headers, Tokenize(line))
  }

  /** `m` is the record built from one of `lines`. */
  predicate FromSomeLine(headers: seq<string>, lines: seq<string>, m: Record) {
    exists line :: line in lines && BuiltFrom(headers, line, m)
  }

  /** Each data line yields at most one record, and only a kept one. */
  lemma RowsKept(headers: seq<string>, lines: seq<string>)
    ensures |Rows(headers, lines)| <= |lines|
    ensures forall i :: 0 <= i < |Rows(headers, lines)| ==> Kept(Rows(headers, lines)[i])
  {
    var read := Reader(headers);
    var r := Rows(headers, lines);
    CollectAccepted(read, lines);
    forall i | 0 <= i < |r|
      ensures Kept(r[i])
    {
      var line :| line in lines && read(line) == Some(r[i]);
      assert RowOf(headers, line) == Some(r[i]);
    }
  }

  /** Every record is the one built from some data line whose field count
      equals the header's. */
  lemma RowsBuilt(headers: seq<string>, lines: seq<string>)
    ensures forall i :: 0 <= i < |Rows(headers, lines)| ==> FromSomeLine(headers, lines, Rows(headers, lines)[i])
  {
    var read := Reader(headers);
    var r := Rows(headers, lines);
    CollectAccepted(read, lines);
    forall i | 0 <= i < |r|
      ensures FromSomeLine(headers, lines, r[i])
    {
      var line :| line in lines && read(line) == Some(r[i]);
      RowBuilt(headers, line, r[i]);
    }
  }

  /** A record a line yields is kept and built from that line. */
  lemma RowBuilt(headers: seq<string>, line: string, m: Record)
    requires Reader(headers)(line) == Some(m)
    ensures Kept(m) && BuiltFrom(headers, line, m)
  {
    assert RowOf(headers, line) == Some(m);
  }

  /** Rows are produced line by line, so the kept rows keep their input order. */
  lemma RowsAppend(headers: seq<string>, a: seq<string>, b: seq<string>)
    ensures Rows(headers, a + b) == Rows(headers, a) + Rows(headers, b)
  {
    CollectAppend(Reader(headers), a, b);
  }

  /** Every field of a built record is named by some column. */
  lemma BuildRecordKeys(headers: seq<string>, values: seq<string>, k: string)
    requires |headers| == |values|
    requires k in BuildRecord(headers, values)
    ensures exists i :: 0 <= i < |headers| && MapHeader(headers[i]) == k
  {
    var cells := Cells(headers, values);
    AssembleField(cells, k);
    var i := LastSetter(cells, k);
    assert cells[i].key == MapHeader(headers[i]);
  }

  /** Without a column mapped to `id` no record passes the `movie.id` test. */
  lemma RowNoId(headers: seq<string>, line: string)
    requires forall i :: 0 <= i < |headers| ==> MapHeader(headers[i]) != "id"
    ensures RowOf(headers, line) == None
  {
    var values := Tokenize(line);
    if |values| == |headers| {
      var m := BuildRecord(headers, values);
      if "id" in m {
        BuildRecordKeys(headers, values, "id");
      }
      assert !Kept(m);
    }
  }

  /** A file whose columns do not include one mapped to `id` imports no row:
      the `movie.id && movie.title` test drops every record before the
      renumbering could supply ids. */
  lemma RowsWithoutId(headers: seq<string>, lines: seq<string>)
    requires forall i :: 0 <= i < |headers| ==> MapHeader(headers[i]) != "id"
    ensures Rows(headers, lines) == []
  {
    var read := Reader(headers);
    forall i | 0 <= i < |lines|
      ensures read(lines[i]).None?
    {
      RowNoId(headers, lines[i]);
    }
    CollectNone(read, lines);
  }

  /** A line is blank when nothing but white space is on it. */
  predicate NonBlank(line: string) {
    Trim(line) != ""
  }

  /** `csvContent.split('\n').filter(line => line.trim())`. */
  function Lines(text: string): (r: seq<string>)
    ensures forall i :: 0 <= i < |r| ==> NonBlank(r[i]) && '\n' !in r[i]
  {
    Seqs.Filter(Split(text, '\n'), NonBlank)
  }

  /** `parseCSV` on the file's text: an error for a file with no non-blank
      line, otherwise the kept rows under the first line's headers. */
  function ParseCsvText(text: string): Result<seq<Record>, string> {
    var lines := Lines(text);
    if |lines| == 0 then Err("CSV file is empty")
    else Ok(Rows(HeaderNames(lines[0]), lines[1..]))
  }

  /** The file is rejected as empty exactly when every line is blank. */
  lemma ParseCsvEmpty(text: string)
    ensures ParseCsvText(text).Err? <==> forall line :: line in Split(text, '\n') ==> !NonBlank(line)
  {
    var pieces := Split(text, '\n');
    forall line | line in pieces
      ensures line in Lines(text) <==> NonBlank(line)
    {
      Seqs.FilterMember(pieces, NonBlank, line);
    }
    if |Lines(text)| > 0 {
      Seqs.FilterMember(pieces, NonBlank, Lines(text)[0]);
    }
  }

  /** The `headers.forEach` loop that fills one record. */
  method AssembleRow(headers: seq<string>, values: seq<string>) returns (movie: Record)
    requires |headers| == |values|
    ensures movie == BuildRecord(headers, values)
  {
    var cells := Cells(headers, values);
    movie := map[];
    for j := 0 to |headers|
      invariant movie == Assemble(cells[..j])
    {
      AssembleStep(cells, j);
      var value := CleanValue(values[j]);
      var mapped := MapField(headers[j], value);
      if mapped.Some? {
        movie := movie[MapHeader(headers[j]) := mapped.value];
      }
    }
    assert cells[..|headers|] == cells;
  }

  /** The body of `parseCSV`'s row loop for one data line. */
  method ParseRow(headers: seq<string>, line: string) returns (row: Option<Record>)
    ensures row == RowOf(headers, line)
  {
    var values := ParseCsvLine(line);
    if |values| != |headers| {
      return None;
    }
    var movie := AssembleRow(headers, values);
    if Truthy(Get(movie, "id")) && Truthy(Get(movie, "title")) {
      return Some(movie);
    }
    return None;
  }

  /** `parseCSV`'s row loop over the data lines. */
  method ParseRows(headers: seq<string>, data: seq<string>) returns (movies: seq<Record>)
    ensures movies == Rows(headers, data)
  {
    movies := [];
    for i := 0 to |data|
      invariant movies == Rows(headers, data[..i])
    {
      assert data[..i + 1] == data[..i] + [data[i]];
      RowsStep(headers, data[..i], data[i]);
      var row := ParseRow(headers, data[i]);
      if row.Some? {
        movies := movies + [row.value];
      }
    }
    assert data[..|data|] == data;
  }

  /** `parseCSV` on the file's text. */
  method ParseCsv(text: string) returns (r: Result<seq<Record>, string>)
    ensures r == ParseCsvText(text)
  {
    var lines := Lines(text);
    if |lines| == 0 {
      return Err("CSV file is empty");
    }
    var headers := HeaderNames(lines[0]);
    var movies := ParseRows(headers, lines[1..]);
    return Ok(movies);
  }

  // ---------------------------------------------------------------------
  // importCSVToJSON
  // ---------------------------------------------------------------------

  /** The records after `movies.forEach((movie, index) => movie.id = index + 1)`. */
  function Renumbered(movies: seq<Record>): (r: seq<Record>)
    ensures |r| == |movies|
  {
    seq(|movies|, i requires 0 <= i < |movies| => movies[i]["id" := Num((i + 1) as real)])
  }

  /** Renumbering gives the records the ids 1, 2, ..., n in order, changes no
      other field, and keeps every kept record kept. */
  lemma RenumberedFacts(movies: seq<Record>)
    ensures forall i :: 0 <= i < |movies| ==> Get(Renumbered(movies)[i], "id") == Some(Num((i + 1) as real))
    ensures forall i, k :: 0 <= i < |movies| && k != "id" ==> Get(Renumbered(movies)[i], k) == Get(movies[i], k)
    ensures forall i :: 0 <= i < |movies| && Kept(movies[i]) ==> Kept(Renumbered(movies)[i])
  {
  }

  /** No two renumbered records share an id. */
  lemma RenumberedDistinct(movies: seq<Record>, i: int, j: int)
    requires 0 <= i < j < |movies|
    ensures Renumbered(movies)[i]["id"] != Renumbered(movies)[j]["id"]
  {
  }

  /** The renumbering loop, updating each record of the array in place. */
  method RenumberIds(a: array<Record>)
    modifies a
    ensures a[..] == Renumbered(old(a[..]))
  {
    for i := 0 to a.Length
      invariant a[..i] == Renumbered(old(a[..]))[..i]
      invariant a[i..] == old(a[..])[i..]
    {
      a[i] := a[i]["id" := Num((i + 1) as real)];
    }
  }

  /** `importCSVToJSON` without its file output: the parsed records renumbered,
      or the parse error. */
  function ImportText(text: string): Result<seq<Record>, string> {
    match ParseCsvText(text)
    case Err(e) => Err(e)
    case Ok(movies) => Ok(Renumbered(movies))
  }

  /** Every imported record is kept and carries its position plus one as id. */
  lemma ImportFacts(text: string)
    ensures ImportText(text).Err? <==> ParseCsvText(text).Err?
    ensures ImportText(text).Ok? ==>
      var movies := ImportText(text).value;
      |movies| == |ParseCsvText(text).value| &&
      forall i :: 0 <= i < |movies| ==> Kept(movies[i]) && Get(movies[i], "id") == Some(Num((i + 1) as real))
  {
    var parsed := ParseCsvText(text);
    if parsed.Ok? {
      var lines := Lines(text);
      var headers := HeaderNames(lines[0]);
      assert parsed.value == Rows(headers, lines[1..]);
      RowsKept(headers, lines[1..]);
      RenumberedFacts(parsed.value);
    }
  }

  /** `ImportText` in terms of the parse result. */
  lemma ImportParsed(text: string, parsed: Result<seq<Record>, string>)
    requires parsed == ParseCsvText(text)
    ensures ImportText(text) == if parsed.Err? then Err(parsed.error) else Ok(Renumbered(parsed.value))
  {
  }

  /** `importCSVToJSON`: parse, then renumber the records in place. */
  method ImportCsv(text: string) returns (r: Result<seq<Record>, string>)
    ensures r == ImportText(text)
  {
    var parsed := ParseCsv(text);
    ImportParsed(text, parsed);
    if parsed.Err? {
      return Err(parsed.error);
    }
    var movies := Renumber(parsed.value);
    return Ok(movies);
  }

  /** The parsed records placed in an array and renumbered there. */
  method Renumber(movies: seq<Record>) returns (r: seq<Record>)
    ensures r == Renumbered(movies)
  {
    var a := new Record[|movies|](i requires 0 <= i < |movies| => movies[i]);
    assert a[..] == movies;
    RenumberIds(a);
    r := a[..];
  }
}
