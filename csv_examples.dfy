/** Worked examples of the CSV import: single cells coerced by their column,
    and a small file taken through every stage of `importCSVToJSON`. */
module CsvExamples {
  import opened JsValues
  import opened Text
  import Seqs
  import opened CsvParser

  // ---------------------------------------------------------------------
  // Single cells
  // ---------------------------------------------------------------------

  /** The table lookup on its own: evaluating the literal match in a small
      context keeps its callers cheap. */
  lemma GrossTable()
    ensures HeaderTable("Worldwide_Gross_USD") == Some("worldwide_gross_usd")
  {
  }

  /** "Worldwide_Gross_USD" is a table entry, mapped to its lower-cased form. */
  lemma GrossHeader()
    ensures MapHeader("Worldwide_Gross_USD") == "worldwide_gross_usd"
  {
    GrossTable();
  }

  /** That name holds "gross", so its column is numeric. */
  lemma GrossName()
    ensures Contains("worldwide_gross_usd", "gross")
  {
    var name := "worldwide_gross_usd";
    assert name[10..15] == "gross";
    assert OccursAt(name, "gross", 10);
    ContainsAt(name, "gross");
  }

  lemma AmountValue()
    ensures AllDigits("1" + "234") && AllDigits("50")
    ensures DecimalValue("1" + "234", "50") == 1234.5
  {
    DigitsValueThousands("1", "234");
    assert DigitsValue("1") == 1 by {
      assert "1"[..0] == [];
    }
    assert DigitsValue("234") == 234 by {
      assert "234"[..2] == "23";
      assert "23"[..1] == "2";
      assert "2"[..0] == [];
    }
    assert Fraction("50") == 0.5 by {
      assert "50"[1..] == "0";
      assert "0"[1..] == [];
    }
  }

  /** A dollar amount with a thousands separator in a gross column. */
  lemma CurrencyExample()
    ensures MapField("Worldwide_Gross_USD", "$1,234.50") == Some(Num(1234.5))
  {
    GrossHeader();
    GrossName();
    AmountValue();
    assert CurrencyText("1", "234", "50") == "$1,234.50";
    MapFieldCurrency("Worldwide_Gross_USD", "1", "234", "50");
  }

  /** A year cell without a digit is omitted, not stored as 0. */
  lemma NoNumberExample()
    ensures MapField("Year", "abc") == None
  {
    assert IsNumericName(MapHeader("Year")) by {
      assert MapHeader("Year") == "year";
    }
    assert forall i :: 0 <= i < |"abc"| ==> !IsNumberChar("abc"[i]);
    MapFieldNoNumber("Year", "abc");
  }

  // ---------------------------------------------------------------------
  // A whole file
  // ---------------------------------------------------------------------

  /** The sample file: the header line `ID,Title,Worldwide_Gross_USD` and
      the data line `7,Up,"1,000"`, whose gross is quoted because it holds
      a thousands separator. */
  const Columns: seq<string> := ["ID", "Title", "Worldwide_Gross_USD"]
  const Fields: seq<string> := ["7", "Up", "1,000"]
  const Header: string := Join(Columns, ",")
  const Row: string := Terminated(Fields[..2]) + "\"" + Fields[2] + "\""
  const Sample: string := Header + "\n" + Row

  /** The record the data line becomes before renumbering. */
  const Movie: Record := map["id" := Num(7.0), "title" := Str("Up"), "worldwide_gross_usd" := Num(1000.0)]

  /** The quoted comma does not split the last field. */
  lemma TokenizeRow()
    ensures Tokenize(Row) == Fields
  {
    assert Fields[..2] == ["7", "Up"];
    TokenizeQuotedLast(Fields[..2], Fields[2]);
  }

  lemma HeaderNameOf(c: string)
    requires c != [] && !IsSpace(c[0]) && !IsSpace(c[|c| - 1]) && '"' !in c
    ensures HeaderName(c) == c
  {
    TrimNoop(c);
    WithoutAbsent(c, '"');
  }

  lemma NameId()
    ensures HeaderName("ID") == "ID"
  {
    HeaderNameOf("ID");
  }

  lemma NameTitle()
    ensures HeaderName("Title") == "Title"
  {
    HeaderNameOf("Title");
  }

  lemma NameGross()
    ensures HeaderName("Worldwide_Gross_USD") == "Worldwide_Gross_USD"
  {
    HeaderNameOf("Worldwide_Gross_USD");
  }

  lemma SplitHeader()
    ensures Split(Header, ',') == Columns
  {
    assert forall i :: 0 <= i < |Columns| ==> ',' !in Columns[i];
    SplitJoin(Columns, ',');
  }

  /** A header line of three columns names them in order. */
  lemma HeaderNamesThree(line: string, a: string, b: string, c: string)
    requires Split(line, ',') == [a, b, c]
    ensures HeaderNames(line) == [HeaderName(a), HeaderName(b), HeaderName(c)]
  {
  }

  /** The header line gives the three column names unchanged. */
  lemma HeaderRow()
    ensures HeaderNames(Header) == Columns
  {
    SplitHeader();
    NameId();
    NameTitle();
    NameGross();
    HeaderNamesThree(Header, "ID", "Title", "Worldwide_Gross_USD");
  }

  lemma {:induction false} TerminatedLacks(fs: seq<string>, c: char)
    requires c != ','
    requires forall i :: 0 <= i < |fs| ==> c !in fs[i]
    ensures c !in Terminated(fs)
  {
    if fs != [] {
      TerminatedLacks(fs[..|fs| - 1], c);
    }
  }

  lemma {:induction false} TerminatedHead(fs: seq<string>)
    requires fs != [] && fs[0] != []
    ensures Terminated(fs) != [] && Terminated(fs)[0] == fs[0][0]
  {
    var n := |fs| - 1;
    if n > 0 {
      TerminatedHead(fs[..n]);
    }
  }

  lemma SampleNewlines()
    ensures '\n' !in Header && '\n' !in Row
  {
    JoinLacks(Columns, ",", '\n');
    TerminatedLacks(Fields[..2], '\n');
  }

  lemma HeaderNonBlank()
    ensures NonBlank(Header)
  {
    TrimEmpty(Header);
    assert Header[0] == 'I';
  }

  lemma RowNonBlank()
    ensures NonBlank(Row)
  {
    TrimEmpty(Row);
    TerminatedHead(Fields[..2]);
    assert Row[0] == '7';
  }

  /** The file has exactly two non-blank lines, the header and the row. */
  lemma SampleLines()
    ensures Lines(Sample) == [Header, Row]
  {
    SampleNewlines();
    assert Sample == Header + ['\n'] + Row;
    SplitAt(Header, Row, '\n');
    SplitNone(Row, '\n');
    HeaderNonBlank();
    RowNonBlank();
    Seqs.FilterCons(Header, [Row], NonBlank);
    Seqs.FilterCons(Row, [], NonBlank);
  }

  lemma CleanPlain(v: string)
    requires v != [] && !IsSpace(v[0]) && !IsSpace(v[|v| - 1]) && '"' !in v
    ensures CleanValue(v) == v
  {
    CleanValueUnquoted(v);
    TrimNoop(v);
  }

  /** The id cell is read as a number. */
  lemma IdCell()
    ensures MapHeader("ID") == "id"
    ensures MapField("ID", CleanValue("7")) == Some(Num(7.0))
  {
    assert MapHeader("ID") == "id";
    assert IsNumericName("id");
    assert DecimalString(7) == "7";
    CleanValueUnquoted("7");
    TrimNoop("7");
    MapFieldInteger("ID", 7);
  }

  lemma TitleName()
    ensures !IsNumericName("title") && !IsListName("title")
  {
    NotContains("title", "gross", 'g');
    NotContains("title", "budget", 'b');
    NotContains("title", "profit", 'p');
  }

  /** The title cell is kept as text. */
  lemma TitleCell(h: string, v: string)
    requires h == "Title" && v == "Up"
    ensures MapHeader(h) == "title"
    ensures MapField(h, CleanValue(v)) == Some(Str(v))
  {
    assert MapHeader("Title") == "title";
    CleanPlain(v);
    NotBlankStart(v);
    TitleName();
    assert ToLower(v) != "true" && ToLower(v) != "false";
    MapFieldText(h, v);
  }

  /** The decimal text of one thousand, evaluated on its own. */
  lemma ThousandDigits()
    ensures DecimalString(1000) == "1000"
  {
  }

  lemma ThousandText()
    ensures KeepNumeric("1,000") == "1000"
  {
    KeepNumericExtremes("1");
    KeepNumericGroup("1", "000");
  }

  /** The gross cell loses its separator and is read as one thousand. */
  lemma GrossCell(h: string, v: string)
    requires h == "Worldwide_Gross_USD" && v == "1,000"
    ensures MapHeader(h) == "worldwide_gross_usd"
    ensures MapField(h, CleanValue(v)) == Some(Num(1000.0))
  {
    CleanPlain(v);
    NotBlankStart(v);
    GrossHeader();
    GrossName();
    ThousandText();
    ThousandDigits();
    ParseFloatRoundTrip(1000);
    NumericCell(h, v, 1000.0);
  }

  lemma AssembleThree(cells: seq<Cell>)
    requires |cells| == 3
    requires cells[0].value.Some? && cells[1].value.Some? && cells[2].value.Some?
    ensures Assemble(cells)
            == map[][cells[0].key := cells[0].value.value][cells[1].key := cells[1].value.value][cells[2].key := cells[2].value.value]
  {
    AssembleStep(cells, 0);
    AssembleStep(cells, 1);
    AssembleStep(cells, 2);
    assert cells[..0] == [] && cells[..3] == cells;
  }

  lemma RecordThree(h0: string, h1: string, h2: string, v0: string, v1: string, v2: string,
                    k0: string, k1: string, k2: string, x0: Value, x1: Value, x2: Value)
    requires MapHeader(h0) == k0 && MapField(h0, CleanValue(v0)) == Some(x0)
    requires MapHeader(h1) == k1 && MapField(h1, CleanValue(v1)) == Some(x1)
    requires MapHeader(h2) == k2 && MapField(h2, CleanValue(v2)) == Some(x2)
    ensures BuildRecord([h0, h1, h2], [v0, v1, v2]) == map[][k0 := x0][k1 := x1][k2 := x2]
  {
    var hs, vs := [h0, h1, h2], [v0, v1, v2];
    var cells := Cells(hs, vs);
    assert hs[0] == h0 && vs[0] == v0 && cells[0] == Cell(k0, Some(x0));
    assert hs[1] == h1 && vs[1] == v1 && cells[1] == Cell(k1, Some(x1));
    assert hs[2] == h2 && vs[2] == v2 && cells[2] == Cell(k2, Some(x2));
    AssembleThree(cells);
  }

  /** The data line's cells assemble into `Movie`. */
  lemma SampleRecord()
    ensures BuildRecord(Columns, Fields) == Movie
  {
    IdCell();
    TitleCell("Title", "Up");
    GrossCell("Worldwide_Gross_USD", "1,000");
    RecordThree("ID", "Title", "Worldwide_Gross_USD", "7", "Up", "1,000",
                "id", "title", "worldwide_gross_usd", Num(7.0), Str("Up"), Num(1000.0));
  }

  lemma RowsOne(headers: seq<string>, line: string, m: Record)
    requires |Tokenize(line)| == |headers| && BuildRecord(headers, Tokenize(line)) == m && Kept(m)
    ensures Rows(headers, [line]) == [m]
  {
    RowsStep(headers, [], line);
    assert [] + [line] == [line];
  }

  lemma MovieKept()
    ensures Kept(Movie)
  {
    assert Get(Movie, "id") == Some(Num(7.0)) && Get(Movie, "title") == Some(Str("Up"));
  }

  lemma SampleRows()
    ensures Rows(Columns, [Row]) == [Movie]
  {
    TokenizeRow();
    SampleRecord();
    MovieKept();
    RowsOne(Columns, Row, Movie);
  }

  /** The sample file parses to the one record of its data line. */
  lemma ParseSample()
    ensures ParseCsvText(Sample) == Ok([Movie])
  {
    SampleLines();
    HeaderRow();
    assert [Header, Row][1..] == [Row];
    SampleRows();
  }

  /** Importing the sample gives that record with its id 7 replaced by 1,
      its position in the file. */
  lemma ImportSample()
    ensures ImportText(Sample) == Ok([Movie["id" := Num(1.0)]])
  {
    ParseSample();
    assert Renumbered([Movie]) == [Movie["id" := Num(1.0)]];
  }
}
