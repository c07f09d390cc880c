/** The two display helpers the listing and the top-ten ordering share:
    `getGrossAmount` (public/js/api.js) and `getGenresString`
    (public/js/main.js). */
module ClientHelpers {
  import opened JsValues
  import opened Text

  /** `currency || currentCurrency`: the explicit choice, or the page's
      current one when none is given (`""` stands for a missing argument). */
  function Currency(currency: string, current: string): string {
    if currency != "" then currency else current
  }

  /** `getGrossAmount`: the gross in the chosen currency, falling back to the
      legacy `worldwideGross` field and then to 0. */
  function GrossAmount(movie: Record, currency: string, current: string): Option<Value> {
    var field := if Currency(currency, current) == "USD" then "worldwide_gross_usd" else "worldwide_gross_inr";
    Or(Or(Get(movie, field), Get(movie, "worldwideGross")), Some(Num(0.0)))
  }

  /** The amount is the currency's own field when that is truthy, otherwise
      the legacy field when that is truthy, and 0 when neither is; USD is
      chosen only by the exact name "USD", given explicitly or, when no
      currency is given, as the page's current one; every other name means
      INR. */
  lemma GrossAmountChoice(movie: Record, currency: string, current: string)
    ensures var field := if currency == "USD" || (currency == "" && current == "USD") then "worldwide_gross_usd" else "worldwide_gross_inr";
      && (Truthy(Get(movie, field)) ==> GrossAmount(movie, currency, current) == Get(movie, field))
      && (!Truthy(Get(movie, field)) && Truthy(Get(movie, "worldwideGross")) ==>
            GrossAmount(movie, currency, current) == Get(movie, "worldwideGross"))
      && (!Truthy(Get(movie, field)) && !Truthy(Get(movie, "worldwideGross")) ==>
            GrossAmount(movie, currency, current) == Some(Num(0.0)))
  {
    var field := if currency == "USD" || (currency == "" && current == "USD") then "worldwide_gross_usd" else "worldwide_gross_inr";
    var a := Or(Get(movie, field), Get(movie, "worldwideGross"));
    assert Truthy(a) <==> Truthy(Get(movie, field)) || Truthy(Get(movie, "worldwideGross"));
  }

  /** The amount is always present and is truthy exactly when one of the two
      fields it reads is. */
  lemma GrossAmountTruthy(movie: Record, currency: string, current: string)
    ensures GrossAmount(movie, currency, current).Some?
    ensures var field := if currency == "USD" || (currency == "" && current == "USD") then "worldwide_gross_usd" else "worldwide_gross_inr";
      Truthy(GrossAmount(movie, currency, current)) <==> Truthy(Get(movie, field)) || Truthy(Get(movie, "worldwideGross"))
  {
    GrossAmountChoice(movie, currency, current);
  }

  /** `getGenresString`: an array of genres joined with ", ", otherwise the
      first truthy of `genres` and `genre`, otherwise "N/A".  The result is
      whatever value those fields hold, so it need not be a string. */
  function GenresString(movie: Record): Value {
    match Get(movie, "genres")
    case Some(List(items)) => Str(Join(items, ", "))
    case _ => Or(Or(Get(movie, "genres"), Get(movie, "genre")), Some(Str("N/A"))).value
  }

  /** A list of genres is joined in order; a two-genre list shows both. */
  lemma GenresStringList(movie: Record, a: string, b: string)
    requires Get(movie, "genres") == Some(List([a, b]))
    ensures GenresString(movie) == Str(a + ", " + b)
  {
    assert [a, b][1..] == [b];
    assert Join([a, b], ", ") == a + ", " + Join([b], ", ");
  }

  /** A list of genres gives a string in which every genre occurs, so the
      search finds a movie by any one of its genres. */
  lemma GenresStringHasEach(movie: Record, items: seq<string>)
    requires Get(movie, "genres") == Some(List(items))
    ensures GenresString(movie).Str?
    ensures forall i :: 0 <= i < |items| ==> Contains(GenresString(movie).s, items[i])
  {
    forall i | 0 <= i < |items| ensures Contains(Join(items, ", "), items[i]) {
      JoinContains(items, ", ", i);
    }
  }

  /** Without a list, the first truthy field wins and "N/A" stands in for a
      movie with neither. */
  lemma GenresStringFallback(movie: Record)
    requires !(Get(movie, "genres").Some? && Get(movie, "genres").value.List?)
    ensures Truthy(Get(movie, "genres")) ==> GenresString(movie) == movie["genres"]
    ensures !Truthy(Get(movie, "genres")) && Truthy(Get(movie, "genre")) ==> GenresString(movie) == movie["genre"]
    ensures !Truthy(Get(movie, "genres")) && !Truthy(Get(movie, "genre")) ==> GenresString(movie) == Str("N/A")
  {
  }
}
