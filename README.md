# CineVerse movie catalogue — a Dafny model

CineVerse is a small movie catalogue: an Express backend keeps the films as a JSON array of records, imports them from a CSV file, and answers list, lookup, statistics and edit requests; a browser front end pages, searches, sorts and bookmarks them. This project models the logic of that system in Dafny and proves what it promises:

- **CSV import** (`backend/utils/csvParser.js`), in module `CsvParser`:
  - the quote-toggling line tokenizer `parseCSVLine`, as a `method` with its loop;
  - the header table and its fallback (`mapCSVHeader`);
  - the cell coercion (`mapCSVField`): absent, number, string list, boolean or text;
  - the row loop of `parseCSV`, split into the per-row `forEach` (`AssembleRow`), one row (`ParseRow`) and the loop over the data lines (`ParseRows`);
  - the in-place renumbering of `importCSVToJSON`, on an `array`;
  - `validateMovie`.

  Module `CsvExamples` works through concrete cells and a whole two-line file.
- **Movie routes** (`backend/routes/movies.js`), in module `MovieRoutes`:
  - POST, PUT and DELETE change a `MovieStore` object whose field `movies` is the stored array;
  - GET `/:id`, `/top10` and the two category routes are functions of that sequence;
  - JavaScript's `parseInt` is modelled for the id parameter.
- **Statistics** (`backend/routes/stats.js`), in module `Stats`: the summary object of GET `/` and the three-entry industry table of GET `/industries`.
- **Listing page** (`public/js/movies.js`), in module `Listing`:
  - the page slice;
  - the page count and the button/ellipsis rule of `setupPagination`, as a method with its loop;
  - the `currentPage` update of `displayMovies` (class `ListingView`);
  - search, category filter and sort modes shared by `applyFilters` and `getFilteredMovies`;
  - the favourites list (class `Favorites`, whose `IsFavorite` is `isMovieFavorite`).
- **Helpers** (module `ClientHelpers`): `getGrossAmount` (`public/js/api.js`) and `getGenresString` (`public/js/main.js`).
- **Support modules:**
  - `JsValues`: records as `map<string, Value>`, JavaScript truthiness and `||`;
  - `Text`: ASCII `trim`, `toLowerCase`, `split`, `join` and `includes`;
  - `Seqs`: `filter`;
  - `Sorting`: an insertion sort standing for `Array.prototype.sort` with a comparator, proved to permute, to order by a key, and to be stable.

A record is `map<string, Value>` with `Value = Null | Num(real) | Str | Bool | List(seq<string>)`. A key that is not in the map is an absent (undefined) field. Numbers are exact reals. Reading the JSON file becomes "the store before" and writing it "the store after". The clock value in `createdAt`/`updatedAt` is a parameter `now`. `localeCompare` is a parameter `collate`.

## Model

| member | source | states |
|---|---|---|
| CsvParser.ScanQuotes | backend/utils/csvParser.js:73-84 | after scanning a line the in-quotes flag is set exactly when an odd number of `"` have been seen |
| CsvParser.TokenizeFacts | backend/utils/csvParser.js:68-88 | no field contains `"`; the fields joined with `,` give the line with every `"` removed; there is one field more than commas outside quotes |
| CsvParser.ParseCsvLine | backend/utils/csvParser.js:68-88 | the character loop returns the tokenizer's fields, with the same three facts |
| CsvParser.QuotedCommaExample | backend/utils/csvParser.js:73-87 | `A,"B,C",D` yields the three fields `A`, `B,C`, `D` |
| CsvParser.TokenizeJoin | backend/utils/csvParser.js:73-87 | fields free of `"` and `,`, joined with commas, tokenize back to the same fields |
| CsvParser.TokenizeQuotedLast | backend/utils/csvParser.js:76-83 | a quoted last field keeps its commas and loses its quotes, the fields before it being unchanged |
| CsvParser.CollapseSpaces | backend/utils/csvParser.js:156 | the result has no white space |
| CsvParser.CollapseSpacesRun | backend/utils/csvParser.js:156 | a prefix without white space is kept character for character, and the white space run after it becomes exactly one `_` |
| CsvParser.CollapseSpacesNone | backend/utils/csvParser.js:156 | a text without white space is left unchanged |
| CsvParser.CollapseSpacesLower | backend/utils/csvParser.js:156 | collapsing adds no capital letter |
| CsvParser.FallbackNameWords | backend/utils/csvParser.js:156 | two words separated by any white space become both words lower-cased, joined by one `_` |
| CsvParser.FallbackNameIdempotent | backend/utils/csvParser.js:156 | applying the fallback normaliser twice gives the same name as once |
| CsvParser.MapHeader | backend/utils/csvParser.js:95-157 | a table key maps to its entry; any other header maps to a name with no white space and no capital, and one without white space maps to its lower-cased text |
| CsvParser.MapHeaderWords | backend/utils/csvParser.js:95-157 | a two-word header outside the table maps to both words lower-cased and joined by one `_` |
| CsvParser.ParseUnsignedInteger | backend/utils/csvParser.js:180 | `parseFloat` reads a leading digit run up to a non-digit, non-point character as that integer |
| CsvParser.ParseUnsignedFraction | backend/utils/csvParser.js:180 | `parseFloat` reads digits, a point and digits as the decimal value, ignoring what follows |
| CsvParser.ParseFloatRoundTrip | backend/utils/csvParser.js:180 | the decimal text of a natural number, with or without a minus sign, reads back as that number |
| CsvParser.KeepNumericExtremes | backend/utils/csvParser.js:180 | deleting characters other than digits, `.` and `-` keeps a text made only of them and empties a text with none of them |
| CsvParser.KeepNumericAppend | backend/utils/csvParser.js:180 | that deletion works piecewise on a concatenation |
| CsvParser.ListPieces | backend/utils/csvParser.js:187 | every list piece is non-empty, comma-free and trimmed at both ends |
| CsvParser.ListPiecesJoin | backend/utils/csvParser.js:186-187 | comma-free entries joined by commas come back as their trimmed forms, in order, with the blank ones dropped |
| CsvParser.ListPiecesTwo | backend/utils/csvParser.js:186-187 | `a,b` with non-blank comma-free parts gives exactly their trimmed forms, in order |
| CsvParser.CoerceOmitted | backend/utils/csvParser.js:173-202 | coercion of a non-blank cell omits it exactly when the column is numeric and no number can be parsed |
| CsvParser.MapFieldOmitted | backend/utils/csvParser.js:165-182 | outside number columns a cell is omitted exactly when it is empty, white space, `N/A` or `NA`; in number columns it is also omitted when no number parses, so a 0 or `false` is kept |
| CsvParser.NumericCell | backend/utils/csvParser.js:173-181 | in a number column a non-blank cell becomes the number parsed from its numeric characters |
| CsvParser.MapFieldCurrency | backend/utils/csvParser.js:180-181 | `$d,ggg.ff` in a number column becomes the number `dggg.ff` |
| CsvParser.MapFieldInteger | backend/utils/csvParser.js:180-181 | a decimal integer, signed or not, in a number column is read as itself |
| CsvParser.MapFieldNoNumber | backend/utils/csvParser.js:180-181 | a number-column cell with no digit, point or minus sign is omitted, not stored as 0 |
| CsvParser.MapFieldText | backend/utils/csvParser.js:198-202 | outside number and list columns a non-blank cell other than true/false is kept as its text |
| CsvParser.MapFieldNonNumeric | backend/utils/csvParser.js:185-202 | outside number columns a non-blank cell is always kept: a list column gives the comma pieces or a one-element list, `release_date` keeps the text, and elsewhere the cell is a boolean exactly when it reads true or false ignoring case |
| CsvParser.HeaderName | backend/utils/csvParser.js:24 | a header cell loses all quotes and gains no character |
| CsvParser.HeaderNames | backend/utils/csvParser.js:24 | the header row gives one name per comma plus one, none holding a quote or a comma (the split is not quote-aware) |
| CsvParser.CleanValueUnquoted | backend/utils/csvParser.js:41 | a value without quotes is only trimmed |
| CsvParser.AssembleField | backend/utils/csvParser.js:37-48 | a key is in the assembled record exactly when some column maps to it with a value present, and it holds the value of the last such column |
| CsvParser.KeptIsValid | backend/utils/csvParser.js:244-249 | every record the row loop keeps passes `validateMovie` |
| CsvParser.ValidNotKept | backend/utils/csvParser.js:51-53 | a record with id 0 passes `validateMovie` but is dropped by the `movie.id && movie.title` test |
| CsvParser.RowOf | backend/utils/csvParser.js:29-53 | a data line yields a record exactly when its field count equals the header count and the record built from its fields has a truthy id and title; the record is then that built record |
| CsvParser.RowsStep | backend/utils/csvParser.js:28-54 | one more data line appends its record, or nothing, to the rows so far |
| CsvParser.RowsKept | backend/utils/csvParser.js:28-54 | at most one record per data line, and every record is kept |
| CsvParser.RowsBuilt | backend/utils/csvParser.js:28-54 | every record is the one built from some data line whose field count equals the header count |
| CsvParser.RowsAppend | backend/utils/csvParser.js:28-54 | the rows of two blocks of lines are the rows of each, in input order |
| CsvParser.BuildRecordKeys | backend/utils/csvParser.js:36-48 | every field of a built record is the canonical name of some column |
| CsvParser.RowNoId | backend/utils/csvParser.js:44-53 | with no column mapped to `id`, no data line yields a record |
| CsvParser.RowsWithoutId | backend/utils/csvParser.js:46-53 | a file without an id column imports no row at all |
| CsvParser.Lines | backend/utils/csvParser.js:17 | every kept line is non-blank and holds no newline |
| CsvParser.ParseCsvEmpty | backend/utils/csvParser.js:17-21 | parsing fails with "CSV file is empty" exactly when every line of the text is blank |
| CsvParser.AssembleRow | backend/utils/csvParser.js:36-48 | the `headers.forEach` loop builds the record of the row's cells |
| CsvParser.ParseRow | backend/utils/csvParser.js:29-53 | the loop body yields the line's record or nothing |
| CsvParser.ParseRows | backend/utils/csvParser.js:27-56 | the row loop returns the kept records of the data lines, in order |
| CsvParser.ParseCsv | backend/utils/csvParser.js:14-61 | `parseCSV` on the text: the empty-file error or the rows under the first line's header names |
| CsvParser.RenumberedFacts | backend/utils/csvParser.js:218-220 | after renumbering, record i has id i+1, every other field is unchanged, and kept records stay kept |
| CsvParser.RenumberedDistinct | backend/utils/csvParser.js:218-220 | no two renumbered records share an id |
| CsvParser.RenumberIds | backend/utils/csvParser.js:218-220 | the in-place loop over the array leaves the renumbered sequence |
| CsvParser.Renumber | backend/utils/csvParser.js:215-220 | copying the parsed records into an array and renumbering there gives the renumbered sequence |
| CsvParser.ImportFacts | backend/utils/csvParser.js:215-220 | the import fails exactly when parsing fails; otherwise it has as many records as the parse, all kept, record i having id i+1 |
| CsvParser.ImportCsv | backend/utils/csvParser.js:211-237 | `importCSVToJSON` returns the parse error or the renumbered records |
| CsvExamples.CurrencyExample | backend/utils/csvParser.js:173-182 | `$1,234.50` in the `Worldwide_Gross_USD` column becomes 1234.5 |
| CsvExamples.NoNumberExample | backend/utils/csvParser.js:180-181 | `abc` in the `Year` column is omitted |
| CsvExamples.GrossHeader | backend/utils/csvParser.js:118 | `Worldwide_Gross_USD` maps to `worldwide_gross_usd` |
| CsvExamples.IdCell | backend/utils/csvParser.js:176-181 | the cell `7` under `ID` becomes the number 7 |
| CsvExamples.TitleCell | backend/utils/csvParser.js:198-202 | the cell `Up` under `Title` stays the text `Up` |
| CsvExamples.GrossCell | backend/utils/csvParser.js:173-181 | the cell `1,000` under `Worldwide_Gross_USD` becomes 1000 |
| CsvExamples.TokenizeRow | backend/utils/csvParser.js:68-88 | the line `7,Up,"1,000"` gives the three fields `7`, `Up`, `1,000` |
| CsvExamples.HeaderRow | backend/utils/csvParser.js:24 | the header line `ID,Title,Worldwide_Gross_USD` gives those three names |
| CsvExamples.SampleLines | backend/utils/csvParser.js:17 | the sample text splits into exactly its header line and its data line |
| CsvExamples.SampleRecord | backend/utils/csvParser.js:36-48 | the data line becomes the record {id: 7, title: "Up", worldwide_gross_usd: 1000} |
| CsvExamples.ParseSample | backend/utils/csvParser.js:14-61 | the sample file parses to that single record |
| CsvExamples.ImportSample | backend/utils/csvParser.js:211-232 | importing the sample gives that record with id 1 |
| MovieRoutes.ParseIntRoundTrip | backend/routes/movies.js:74 | `parseInt` reads the decimal text of a natural number as that number |
| MovieRoutes.ParseIntNegative | backend/routes/movies.js:74 | `parseInt` reads a minus sign followed by decimal text as the negated number |
| MovieRoutes.ParseIntNaN | backend/routes/movies.js:74 | a parameter whose first non-space, non-sign character is not a digit gives `NaN`, which matches no id |
| MovieRoutes.FindIndex | backend/routes/movies.js:98 | `findIndex` gives the first matching position, or -1 exactly when no record matches |
| MovieRoutes.GetById | backend/routes/movies.js:72-80 | GET `/:id` answers the first stored record with the parsed id, or "Movie not found" exactly when none has it |
| MovieRoutes.MaxId | backend/routes/movies.js:86 | `Math.max` over the ids is a number only when every id is a number, and then it is the largest id, taken by some record |
| MovieRoutes.NextIdFresh | backend/routes/movies.js:86 | a numeric new id exceeds every stored id and is one more than some stored id; an empty store gives id 1 |
| MovieRoutes.NewMovieFields | backend/routes/movies.js:85-89 | the new record has the body's keys plus `id` and `createdAt`; a body id overrides the computed one, and `createdAt` overrides the body |
| MovieRoutes.MergeFields | backend/routes/movies.js:100 | the merge has the keys of both plus `updatedAt`; body fields win over stored ones, and other stored fields are kept |
| MovieRoutes.RemainingFacts | backend/routes/movies.js:111-112 | the delete filter keeps every copy of the records without that id and none with it, in their order (cutting the store anywhere cuts the result at the same place), and it shrinks the store exactly when some record had the id |
| MovieRoutes.MovieStore.Post | backend/routes/movies.js:83-93 | the new record is appended to the store and returned; earlier records are unchanged |
| MovieRoutes.MovieStore.Put | backend/routes/movies.js:96-106 | a found id replaces the first match with the merge and returns it; an unknown id leaves the store unchanged and answers "Movie not found" |
| MovieRoutes.PutChangesOne | backend/routes/movies.js:99-100 | an update keeps the length and every other entry |
| MovieRoutes.MovieStore.Delete | backend/routes/movies.js:109-118 | the store becomes the remaining records when one was removed; otherwise it is unchanged and the answer is "Movie not found" |
| MovieRoutes.Top10Facts | backend/routes/movies.js:36-43 | at most ten stored records, each with a gross, in non-increasing gross order; they are the front of the full ordering, and all records with a gross when fewer than ten have one |
| MovieRoutes.ByCategoryFacts | backend/routes/movies.js:55-57 | both category routes fail exactly when a truthy category is not a string; otherwise they keep every copy of the records whose category equals the parameter ignoring case, and none without a category, in their order (cutting the store anywhere cuts the result at the same place) |
| Sorting.SortPermutes | backend/routes/movies.js:38-42 | sorting with any comparator is a permutation |
| Sorting.SortSorted | backend/routes/movies.js:38-42 | sorting with `key(b) - key(a)` orders by non-increasing key |
| Sorting.SortStable | backend/routes/movies.js:38-42 | records with equal keys keep their relative order |
| Stats.TotalFilter | backend/routes/stats.js:24-25 | a sum over the records that pass a test equals the sum over all records of the value counted only for those |
| Stats.BudgetInrFallback | backend/routes/stats.js:28 | a record without a truthy INR budget adds 83 times its USD budget, and 0 without either; a non-zero INR budget is added as it is |
| Stats.BudgetInrTotal | backend/routes/stats.js:28 | when no record has an INR budget the INR total is 83 times the USD total |
| Stats.IndustryCountsBounded | backend/routes/stats.js:31-35 | the three industry counts sum to at most the number of records |
| Stats.Least | backend/routes/stats.js:39 | the minimum exists exactly for a non-empty list and is a member no larger than any other |
| Stats.Greatest | backend/routes/stats.js:40 | the maximum exists exactly for a non-empty list and is a member no smaller than any other |
| Stats.YearsFrom | backend/routes/stats.js:38 | every listed year is the truthy year of some record |
| Stats.SummaryRevenue | backend/routes/stats.js:23-25 | `totalMovies` is the store length, and each revenue total is the sum over the records with a truthy gross |
| Stats.SummaryRating | backend/routes/stats.js:26 | the average rating is undefined exactly for an empty store and otherwise lies within any bounds of the ratings |
| Stats.SummaryIndustries | backend/routes/stats.js:31-35 | Hollywood, Bollywood and Tollywood counts together are at most `totalMovies` |
| Stats.SummaryYears | backend/routes/stats.js:38-40 | a year range exists exactly when some record has a truthy year; then min is at most max and both are years of stored records |
| Stats.IndustryTableFacts | backend/routes/stats.js:63-79 | three entries in the fixed label order; their counts agree with the summary, their revenues sum only that industry's records, and an industry without records averages 0 |
| Listing.PageSliceBound | public/js/movies.js:56-58 | a page never holds more than 12 movies |
| Listing.PageSliceItems | public/js/movies.js:56-58 | page p holds the movies from index (p-1)*12 on, clipped to the list |
| Listing.PageOfMovie | public/js/movies.js:56-58 | movie k shows on page k/12+1 at position k mod 12 |
| Listing.TotalPagesCeil | public/js/movies.js:186 | the page count is the ceiling of n/12, and 0 only for no movies |
| Listing.PageSliceNonEmpty | public/js/movies.js:63-66 | a page is non-empty exactly when it is at most the page count |
| Listing.SetupPagination | public/js/movies.js:182-223 | the button loop builds the pagination items |
| Listing.PaginationButtons | public/js/movies.js:203-209 | page button i appears exactly for 1 ≤ i ≤ total when i is 1, the last page or within two of the current page, and it is active exactly on the current page |
| Listing.PaginationEllipses | public/js/movies.js:210-211 | an ellipsis appears for current−3 and current+3 exactly when that page exists and is not shown as a button |
| Listing.PaginationEnds | public/js/movies.js:188-220 | no pagination for at most one page; otherwise Previous comes first, disabled exactly on page 1, and Next comes last, disabled exactly on the last page |
| Listing.ListingView.DisplayMovies | public/js/movies.js:43-96 | an empty list or empty page shows its message and changes nothing else; otherwise the page's cards are shown, `currentPage` becomes the page and the pagination is rebuilt |
| Listing.SearchMatchFacts | public/js/movies.js:130-135 | the search keeps a movie exactly when the lower-cased title, director, cast or genre string contains the term |
| Listing.SearchNeedsTitle | public/js/movies.js:131 | a movie without a string title makes the search throw |
| Listing.SearchStepFacts | public/js/movies.js:129-136 | the search step fails exactly when some movie makes the test throw; otherwise it keeps every copy of the matching movies and no other, in their order (cutting the list anywhere cuts the result at the same place) |
| Listing.CategoryStepFacts | public/js/movies.js:139-142 | an empty category keeps everything; otherwise every copy of the movies with that category, compared exactly, and no other, in their order (cutting the list anywhere cuts the result at the same place) |
| Listing.SortStepFacts | public/js/movies.js:145-168 | every sort mode permutes the movies; gross, year and rating modes order by non-increasing key, a missing rating counting as 0 |
| Listing.ApplyFiltersSelection | public/js/movies.js:124-171 | the result holds, up to order, the category-filtered search results, and only stored movies |
| Listing.FilteredMatchesApply | public/js/movies.js:233-284 | with all three controls present `getFilteredMovies` equals `applyFilters`; with none it returns the list unchanged |
| Listing.IndexOf | public/js/movies.js:294 | `indexOf` gives the first position of the id, or -1 exactly when it is absent |
| Listing.ToggledFacts | public/js/movies.js:292-310 | toggling flips the id's membership, leaves every other id as it was, and keeps the list free of duplicates |
| Listing.ToggledTwice | public/js/movies.js:292-310 | adding an absent id and toggling it again restores the list |
| Listing.Favorites.Empty | public/js/movies.js:293 | nothing stored reads as the empty list, which has no duplicates |
| Listing.Favorites.Load | public/js/movies.js:293 | a stored list is read back unchanged |
| Listing.Favorites.Toggle | public/js/movies.js:292-314 | the stored list becomes the toggled list, and the notice says whether the id was removed or added; on a list without duplicates, the id's favourite status flips, every other id keeps its status, and the list stays without duplicates |
| ClientHelpers.GrossAmountChoice | public/js/api.js:38-44 | the currency is USD when `"USD"` is given, or when none is given and the page's is `"USD"`, otherwise INR; the gross is that currency's field if truthy, else the legacy `worldwideGross` if truthy, else 0 |
| ClientHelpers.GrossAmountTruthy | public/js/api.js:38-44 | the amount is always defined, and truthy exactly when one of the two fields is |
| ClientHelpers.GenresStringList | public/js/main.js:223-228 | a two-element genre list is joined with ", " |
| ClientHelpers.GenresStringHasEach | public/js/main.js:223-228 | a genre list of any length gives a string in which every genre occurs |
| ClientHelpers.GenresStringFallback | public/js/main.js:223-228 | a non-list `genres` falls back to itself if truthy, else `genre` if truthy, else "N/A" |
| JsValues.Or | backend/routes/movies.js:39 | `a || b` is truthy exactly when either side is, and is `a` when `a` is truthy |
| JsValues.NumberOrZero | backend/routes/stats.js:24 | `m.k || 0` is 0 for a falsy field and the number itself for a numeric one |

## Left out

- File I/O is not modelled: reading and writing `movies.json`, the `readMovies` fallback to `[]`, the output directory and file written by `importCSVToJSON`. The store is a value before and after each operation.
- Express routing, HTTP status codes and JSON bodies are left out. A route's error answer is an `Err` value with the route's message.
- Clock values are not computed: `createdAt`/`updatedAt` come from a parameter `now`.
- Console output is not modelled, including the "column count mismatch" warning.
- CsvParser.ParseFloat models `parseFloat` on the cleaned cell over exact decimals. It reads the longest leading signed decimal number and gives `None` for `NaN`. IEEE rounding is not modelled. Exponents and `Infinity` cannot occur, because the cleaning has already removed their letters.
- Whitespace is the ASCII set, and case folding is ASCII only. JavaScript's Unicode-wide `\s`, `trim` and `toLowerCase` are not modelled.
- Prototype-inherited keys of the header table (a header named `constructor`) are not modelled.
- JsValues.AsNumber simplifies the arithmetic on values: a number is itself, a boolean is 1 or 0, and everything else (a string, `null`, a list, a missing field) is 0. JavaScript's `-`, `*`, `Math.min` and `Math.max` convert a numeric string to its number (`"500" - "300"` is 200 in the top-ten comparator of backend/routes/movies.js:39-41, `"10" * 83` is 830 at backend/routes/stats.js:28, `Math.min("2020")` is 2020 at backend/routes/stats.js:39), convert `null` and the empty list to 0 (as the model does), and give `NaN` for other strings, for a non-empty list that is not one number, and for a missing field. The `+` of the `reduce` sums (backend/routes/stats.js:24-28) concatenates as soon as a string takes part. The model captures none of the string cases and no `NaN`.
- Stats.Summarize and Stats.IndustryTable keep no `toFixed(2)` rounding, where the routes send a two-decimal string. `Stats.IndustryEntry.avgRating` is the exact real. The `avgRating` of Summarize is the exact quotient, with `None` for an empty store, where JavaScript gives `NaN`. `Math.min`/`Math.max` over no years give `None` rather than ±Infinity.
- MovieRoutes.MaxId yields no number as soon as some stored id is not a number; the new id is then `Null`, the JSON rendering of `NaN + 1`. JavaScript's `Math.max` gives a number in more cases: it converts `null` to 0, `true` and `false` to 1 and 0, and a numeric string to its number, and gives `NaN` only for a missing id or a non-numeric string. So after a POST whose body holds `"id": null`, the next POST gets the largest other id (or 0) plus 1 in JavaScript but `null` in the model.
- MovieRoutes.ByCategory models a category that makes `toLowerCase` throw as `Err("Internal server error")`. Express's default error page is not modelled.
- The `m &&` guard in the top-10 filter is not modelled, because a stored record is never `null` here.
- Sorting.Sort stands for `Array.prototype.sort` as a stable insertion sort. Order and stability are proved only for comparators of the form key(b) − key(a). For the title mode, `localeCompare` is the parameter `collate`, and only the permutation is proved. A record whose title is not a string makes `localeCompare` throw; the model compares it as `""` (Listing.TitleOf).
- Listing works on the data of the page, not on the DOM:
  - `displayMovies` renders an abstract `Cards` value;
  - event wiring, `setTimeout`, animations and `showNotification` are left out;
  - `localStorage` is the `Favorites.ids` field;
  - a missing container or pagination element is not modelled.
- Listing.SortStepFacts does not model a comparator that returns `NaN` (a non-numeric year).
- CsvParser.HeaderNames follows `parseCSV`: the header row is split on every comma, with no quote protection.
- CsvExamples uses a three-column sample. The five-column sample with `"1,000,000"` is not worked through, because its literals are too costly for the verifier. The general lemmas (RowsStep, RenumberedFacts, ImportFacts) cover the renumbering to id 1.
- The routes for the whole list, upload, auth, contact and the server bootstrap are not part of this model. The browser scripts other than the listing page and the two helpers are not part of it either.
