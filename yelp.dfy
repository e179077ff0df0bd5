/** The Yelp data pipeline: one search per (coordinate row, category), each
    response flattened into a table of validated rows with no repeated phone,
    the tables concatenated per coordinate row and then over all rows, and
    the result deduplicated by phone.

    The search client is the parameter `search`: it maps the query the
    script builds to the decoded JSON response. Python's `str()` of a JSON
    value is the parameter `str`. */
module Yelp {
  import opened PyJson
  import opened Frames

  /** The price tiers restaurant searches are restricted to ($ and $$). */
  const Price: string := "1,2"

  /** The parameters of one `search_query` call, with the API key the client is built with. */
  datatype Query = Query(
    apiKey: string,
    categories: string,
    price: Option<string>,
    latitude: real,
    longitude: real,
    limit: int,
    sortBy: string)

  /** The query issued for one category at one location. */
  function QueryFor(category: string, lat: real, longt: real, limit: int, sortBy: string, apiKey: string): (q: Query)
    ensures q.price.Some? <==> category == "restaurants"
    ensures q.price.Some? ==> q.price.value == Price
    ensures q.categories == category && q.apiKey == apiKey
    ensures q.latitude == lat && q.longitude == longt && q.limit == limit && q.sortBy == sortBy
  {
    if category == "restaurants" then
      Query(apiKey, category, Some(Price), lat, longt, limit, sortBy)
    else
      Query(apiKey, category, None, lat, longt, limit, sortBy)
  }

  /** The eight values read from one business entry. */
  datatype Fields = Fields(
    name: Json,
    latitude: Json,
    longitude: Json,
    phone: Json,
    rating: Json,
    reviewCount: Json,
    address: Json,
    url: Json)

  /** The reads inside the `try` block, in the order the script performs
      them; the first failing subscription decides the exception. */
  function ReadFields(b: Json): (r: Result<Fields>)
    ensures r.Raise? ==> r.error == KeyError || r.error == TypeError
  {
    var name :- Subscript(b, "name");
    var coordinates :- Subscript(b, "coordinates");
    var latitude :- Subscript(coordinates, "latitude");
    var longitude :- Subscript(coordinates, "longitude");
    var phone :- Subscript(b, "phone");
    var rating :- Subscript(b, "rating");
    var reviewCount :- Subscript(b, "review_count");
    var location :- Subscript(b, "location");
    var address :- Subscript(location, "address1");
    var url :- Subscript(b, "url");
    Ok(Fields(name, latitude, longitude, phone, rating, reviewCount, address, url))
  }

  /** The entry is a dict holding every key the reads name, with dicts
      under `coordinates` and `location` holding the nested keys. */
  predicate HasAllFields(b: Json) {
    && b.JObj?
    && "name" in b.fields && "phone" in b.fields && "rating" in b.fields
    && "review_count" in b.fields && "url" in b.fields
    && "coordinates" in b.fields && b.fields["coordinates"].JObj?
    && "latitude" in b.fields["coordinates"].fields && "longitude" in b.fields["coordinates"].fields
    && "location" in b.fields && b.fields["location"].JObj?
    && "address1" in b.fields["location"].fields
  }

  /** Every subscription the reads can reach is on a dict: the entry is a
      dict, and so are its `coordinates` and `location` values where present. */
  predicate DictShaped(b: Json) {
    && b.JObj?
    && ("coordinates" in b.fields ==> b.fields["coordinates"].JObj?)
    && ("location" in b.fields ==> b.fields["location"].JObj?)
  }

  /** The reads succeed exactly for an entry holding every key, and then
      take each value from the key the script names: name, phone, rating,
      review_count and url at the top level, latitude and longitude under
      coordinates, address1 under location. A dict-shaped entry lacking a
      key raises KeyError, which the script catches. A non-dict entry
      raises TypeError, which it does not. */
  lemma ReadFieldsKeys(b: Json)
    ensures ReadFields(b).Ok? <==> HasAllFields(b)
    ensures DictShaped(b) && !HasAllFields(b) ==> ReadFields(b) == Raise(KeyError)
    ensures !b.JObj? ==> ReadFields(b) == Raise(TypeError)
    ensures ReadFields(b).Ok? ==>
      && ReadFields(b).value.name == b.fields["name"]
      && ReadFields(b).value.phone == b.fields["phone"]
      && ReadFields(b).value.rating == b.fields["rating"]
      && ReadFields(b).value.reviewCount == b.fields["review_count"]
      && ReadFields(b).value.url == b.fields["url"]
      && ReadFields(b).value.latitude == b.fields["coordinates"].fields["latitude"]
      && ReadFields(b).value.longitude == b.fields["coordinates"].fields["longitude"]
      && ReadFields(b).value.address == b.fields["location"].fields["address1"]
  {
  }

  /** The acceptance test: six values differ from the empty string and both
      coordinates are not None. In Python a JSON value differs from "" unless
      it is the empty string itself. */
  predicate Complete(f: Fields) {
    && f.name != JStr("")
    && f.phone != JStr("")
    && f.rating != JStr("")
    && f.reviewCount != JStr("")
    && f.address != JStr("")
    && f.url != JStr("")
    && f.latitude != JNull
    && f.longitude != JNull
  }

  /** The `addtional_info` text for a rating and a review count. */
  function Info(rating: Json, reviewCount: Json, str: Json -> string): string {
    "Yelp Rating: " + str(rating) + " Reviews: " + str(reviewCount)
  }

  /** The row an accepted entry contributes to a table of the given category. */
  function RowOf(f: Fields, category: string, str: Json -> string): Row {
    Row(f.name, f.phone, f.latitude, f.longitude, Info(f.rating, f.reviewCount, str), category, f.address, f.url)
  }

  /** Reading the entry raises an exception the `except KeyError` clause does not catch. */
  predicate Escapes(b: Json) {
    ReadFields(b).Raise? && ReadFields(b).error != KeyError
  }

  /** Some entry of the list raises an uncaught exception. */
  predicate SomeEscapes(bs: seq<Json>) {
    exists j :: 0 <= j < |bs| && Escapes(bs[j])
  }

  /** The entry has every key and passes the acceptance test. */
  predicate Acceptable(b: Json) {
    ReadFields(b).Ok? && Complete(ReadFields(b).value)
  }

  /** The rows of the acceptable entries, in response order, before any
      phone is compared. */
  function ValidRows(category: string, bs: seq<Json>, str: Json -> string): seq<Row> {
    if bs == [] then []
    else
      var n := |bs| - 1;
      ValidRows(category, bs[..n], str)
        + (if Acceptable(bs[n]) then [RowOf(ReadFields(bs[n]).value, category, str)] else [])
  }

  /** The positions of the acceptable entries. */
  ghost function ValidIndexes(bs: seq<Json>): seq<int> {
    if bs == [] then []
    else
      var n := |bs| - 1;
      ValidIndexes(bs[..n]) + (if Acceptable(bs[n]) then [n] else [])
  }

  /** One more entry extends the deduplicated valid rows exactly as one
      turn of the extraction loop extends its columns: by the entry's row
      when it is acceptable and its phone is not among those kept so far. */
  lemma ExtractStep(category: string, bs: seq<Json>, k: nat, str: Json -> string)
    requires k < |bs|
    ensures Dedup(ValidRows(category, bs[..k + 1], str))
         == Dedup(ValidRows(category, bs[..k], str))
            + (if Acceptable(bs[k]) && ReadFields(bs[k]).value.phone !in PhonesOf(Dedup(ValidRows(category, bs[..k], str)))
               then [RowOf(ReadFields(bs[k]).value, category, str)] else [])
  {
    assert bs[..k + 1][..k] == bs[..k];
    assert ValidRows(category, bs[..k + 1], str)
        == ValidRows(category, bs[..k], str)
           + (if Acceptable(bs[k]) then [RowOf(ReadFields(bs[k]).value, category, str)] else []);
    var earlier := ValidRows(category, bs[..k], str);
    if Acceptable(bs[k]) {
      DedupSnoc(earlier, RowOf(ReadFields(bs[k]).value, category, str));
    } else {
      assert earlier + [] == earlier;
    }
  }

  /** What the loop over the business entries produces: the first uncaught
      exception, or else the acceptable entries' rows with each phone kept
      only at its first occurrence. */
  function ExtractRows(category: string, bs: seq<Json>, str: Json -> string): Result<seq<Row>> {
    if SomeEscapes(bs) then Raise(TypeError)
    else Ok(Dedup(ValidRows(category, bs, str)))
  }

  /** Whether some entry escapes does not depend on how the list is split. */
  lemma SomeEscapesAppend(a: seq<Json>, c: seq<Json>)
    ensures SomeEscapes(a + c) <==> SomeEscapes(a) || SomeEscapes(c)
  {
    if SomeEscapes(a + c) {
      var j :| 0 <= j < |a + c| && Escapes((a + c)[j]);
      if j >= |a| {
        assert c[j - |a|] == (a + c)[j];
      }
    }
    if SomeEscapes(a) {
      var j :| 0 <= j < |a| && Escapes(a[j]);
      assert (a + c)[j] == a[j];
    }
    if SomeEscapes(c) {
      var j :| 0 <= j < |c| && Escapes(c[j]);
      assert (a + c)[|a| + j] == c[j];
    }
  }

  /** A prefix of the entries with no escaping entry stays so when the next entry does not escape. */
  lemma NoEscapeStep(bs: seq<Json>, k: nat)
    requires k < |bs|
    requires !SomeEscapes(bs[..k]) && !Escapes(bs[k])
    ensures !SomeEscapes(bs[..k + 1])
  {
    assert bs[..k + 1] == bs[..k] + [bs[k]];
    SomeEscapesAppend(bs[..k], [bs[k]]);
    assert [bs[k]][0] == bs[k];
  }

  /** For a truthy response whose `businesses` value can be iterated, the
      result is that of the loop over the entries. */
  lemma FromResponseOfEntries(category: string, response: Json, str: Json -> string)
    requires Truthy(response)
    requires Subscript(response, "businesses").Ok?
    requires Iterate(Subscript(response, "businesses").value).Ok?
    ensures var rows := ExtractRows(category, Iterate(Subscript(response, "businesses").value).value, str);
            FromResponse(category, response, str) == if rows.Raise? then Raise(rows.error) else Ok(Some(rows.value))
  {
  }

  /** What `extract_yelp_data` returns for a response: None (`Ok(None)`)
      for a falsy response, otherwise the table or the uncaught exception. */
  function FromResponse(category: string, response: Json, str: Json -> string): (r: Result<Option<seq<Row>>>)
    ensures r == Ok(None) <==> !Truthy(response)
    ensures Truthy(response) && response.JObj? && "businesses" !in response.fields ==> r == Raise(KeyError)
    ensures Truthy(response) && !response.JObj? ==> r == Raise(TypeError)
  {
    if !Truthy(response) then Ok(None)
    else
      var listing :- Subscript(response, "businesses");
      var bs :- Iterate(listing);
      var rows :- ExtractRows(category, bs, str);
      Ok(Some(rows))
  }

  /** `extract_yelp_data` as a function of its arguments and the search client. */
  function Extracted(category: string, lat: real, longt: real, limit: int, sortBy: string, apiKey: string,
                     search: Query -> Json, str: Json -> string): Result<Option<seq<Row>>>
  {
    FromResponse(category, search(QueryFor(category, lat, longt, limit, sortBy, apiKey)), str)
  }

  /** Issues one search and flattens its business entries into a table,
      skipping entries with a missing key, entries that fail the acceptance
      test, and entries whose phone an earlier accepted entry already has. */
  method ExtractYelpData(categories: string, lat: real, longt: real, limit: int, sortBy: string, yelpApiKey: string,
                         search: Query -> Json, str: Json -> string)
    returns (r: Result<Option<seq<Row>>>)
    ensures r == Extracted(categories, lat, longt, limit, sortBy, yelpApiKey, search, str)
  {
    var searchResults := search(QueryFor(categories, lat, longt, limit, sortBy, yelpApiKey));
    if !Truthy(searchResults) {
      return Ok(None);
    }

    var names: seq<Json> := [];
    var latitudes: seq<Json> := [];
    var longitudes: seq<Json> := [];
    var phones: seq<Json> := [];
    var ratings: seq<string> := [];
    var addresses: seq<Json> := [];
    var urls: seq<Json> := [];

    var listing := Subscript(searchResults, "businesses");
    if listing.Raise? {
      return Raise(listing.error);
    }
    var items := Iterate(listing.value);
    if items.Raise? {
      return Raise(items.error);
    }
    var businesses := items.value;
    ghost var kept: seq<Row> := [];
    for k := 0 to |businesses|
      invariant !SomeEscapes(businesses[..k])
      invariant |phones| == |latitudes| == |longitudes| == |ratings| == |addresses| == |urls| == |names|
      invariant kept == Dedup(ValidRows(categories, businesses[..k], str))
      invariant Frame(names, phones, latitudes, longitudes, ratings, categories, addresses, urls) == kept
      invariant phones == PhonesOf(kept)
    {
      var i := businesses[k];
      ExtractStep(categories, businesses, k, str);
      match ReadFields(i) {
        case Raise(e) =>
          if e != KeyError {
            assert Escapes(businesses[k]);
            FromResponseOfEntries(categories, searchResults, str);
            return Raise(e);
          }
        case Ok(f) =>
          if f.phone !in phones {
            if Complete(f) {
              var rateStr := Info(f.rating, f.reviewCount, str);
              FrameSnoc(names, phones, latitudes, longitudes, ratings, categories, addresses, urls,
                        f.name, f.phone, f.latitude, f.longitude, rateStr, f.address, f.url);
              PhonesOfAppend(kept, [RowOf(f, categories, str)]);
              names := names + [f.name];
              latitudes := latitudes + [f.latitude];
              longitudes := longitudes + [f.longitude];
              phones := phones + [f.phone];
              addresses := addresses + [f.address];
              urls := urls + [f.url];
              ratings := ratings + [rateStr];
            }
          }
      }
      NoEscapeStep(businesses, k);
      kept := Dedup(ValidRows(categories, businesses[..k + 1], str));
    }
    assert businesses[..|businesses|] == businesses;
    FromResponseOfEntries(categories, searchResults, str);
    r := Ok(Some(Frame(names, phones, latitudes, longitudes, ratings, categories, addresses, urls)));
  }

  /** The per-category results at one location, in category order, up to
      the first uncaught exception. */
  function Extractions(categoriesList: seq<string>, lat: real, longt: real, limit: int, sortBy: string, apiKey: string,
                       search: Query -> Json, str: Json -> string): Result<seq<Option<seq<Row>>>>
  {
    if categoriesList == [] then Ok([])
    else
      var n := |categoriesList| - 1;
      var earlier :- Extractions(categoriesList[..n], lat, longt, limit, sortBy, apiKey, search, str);
      var df :- Extracted(categoriesList[n], lat, longt, limit, sortBy, apiKey, search, str);
      Ok(earlier + [df])
  }

  /** `get_yelp_df` as a function: the per-category tables concatenated, with no deduplication. */
  function Aggregated(categoriesList: seq<string>, lat: real, longt: real, limit: int, sortBy: string, apiKey: string,
                      search: Query -> Json, str: Json -> string): Result<seq<Row>>
  {
    var dfs :- Extractions(categoriesList, lat, longt, limit, sortBy, apiKey, search, str);
    Concat(dfs)
  }

  /** A location's table, when there is one, is the concatenation of the category loop's tables. */
  lemma AggregatedFlatten(categoriesList: seq<string>, lat: real, longt: real, limit: int, sortBy: string, apiKey: string,
                          search: Query -> Json, str: Json -> string, rows: seq<Row>)
    requires Aggregated(categoriesList, lat, longt, limit, sortBy, apiKey, search, str) == Ok(rows)
    ensures Extractions(categoriesList, lat, longt, limit, sortBy, apiKey, search, str).Ok?
    ensures rows == Flatten(Extractions(categoriesList, lat, longt, limit, sortBy, apiKey, search, str).value)
  {
  }

  /** A successful category loop is the loop over all but the last
      category followed by the last category's result. */
  lemma ExtractionsLast(categoriesList: seq<string>, lat: real, longt: real, limit: int, sortBy: string, apiKey: string,
                        search: Query -> Json, str: Json -> string, dfs: seq<Option<seq<Row>>>)
    requires categoriesList != []
    requires Extractions(categoriesList, lat, longt, limit, sortBy, apiKey, search, str) == Ok(dfs)
    ensures var n := |categoriesList| - 1;
            && Extractions(categoriesList[..n], lat, longt, limit, sortBy, apiKey, search, str).Ok?
            && Extracted(categoriesList[n], lat, longt, limit, sortBy, apiKey, search, str).Ok?
            && dfs == Extractions(categoriesList[..n], lat, longt, limit, sortBy, apiKey, search, str).value
                      + [Extracted(categoriesList[n], lat, longt, limit, sortBy, apiKey, search, str).value]
  {
  }

  /** A category loop whose prefix raised raises the same exception. */
  lemma ExtractionsRaiseStep(categoriesList: seq<string>, lat: real, longt: real, limit: int, sortBy: string,
                             apiKey: string, search: Query -> Json, str: Json -> string)
    requires categoriesList != []
    requires Extractions(categoriesList[..|categoriesList| - 1], lat, longt, limit, sortBy, apiKey, search, str).Raise?
    ensures Extractions(categoriesList, lat, longt, limit, sortBy, apiKey, search, str)
         == Extractions(categoriesList[..|categoriesList| - 1], lat, longt, limit, sortBy, apiKey, search, str)
  {
  }

  /** Once a prefix of the category list raises, the whole list raises the same exception. */
  lemma {:induction false} ExtractionsRaisePrefix(categoriesList: seq<string>, k: nat, lat: real, longt: real, limit: int,
                                                  sortBy: string, apiKey: string, search: Query -> Json, str: Json -> string)
    requires k <= |categoriesList|
    requires Extractions(categoriesList[..k], lat, longt, limit, sortBy, apiKey, search, str).Raise?
    ensures Extractions(categoriesList, lat, longt, limit, sortBy, apiKey, search, str)
         == Extractions(categoriesList[..k], lat, longt, limit, sortBy, apiKey, search, str)
    decreases |categoriesList| - k
  {
    if k < |categoriesList| {
      var next := categoriesList[..k + 1];
      assert next[..|next| - 1] == categoriesList[..k];
      ExtractionsRaiseStep(next, lat, longt, limit, sortBy, apiKey, search, str);
      ExtractionsRaisePrefix(categoriesList, k + 1, lat, longt, limit, sortBy, apiKey, search, str);
    } else {
      assert categoriesList[..k] == categoriesList;
    }
  }

  /** Runs one extraction per category, in list order, and concatenates the tables. */
  method GetYelpDf(categoriesList: seq<string>, lat: real, longt: real, limit: int, sortBy: string, yelpApiKey: string,
                   search: Query -> Json, str: Json -> string)
    returns (r: Result<seq<Row>>)
    ensures r == Aggregated(categoriesList, lat, longt, limit, sortBy, yelpApiKey, search, str)
  {
    var dfList: seq<Option<seq<Row>>> := [];
    for k := 0 to |categoriesList|
      invariant Extractions(categoriesList[..k], lat, longt, limit, sortBy, yelpApiKey, search, str) == Ok(dfList)
    {
      var category := categoriesList[k];
      assert categoriesList[..k + 1][..k] == categoriesList[..k];
      var df := ExtractYelpData(category, lat, longt, limit, sortBy, yelpApiKey, search, str);
      if df.Raise? {
        ExtractionsRaisePrefix(categoriesList, k + 1, lat, longt, limit, sortBy, yelpApiKey, search, str);
        return Raise(df.error);
      }
      dfList := dfList + [df.value];
    }
    assert categoriesList[..|categoriesList|] == categoriesList;
    r := Concat(dfList);
  }

  /** One row of the neighbourhood file: its community area name and centroid. */
  datatype CoordinateRow = CoordinateRow(communityArea: string, latitude: real, longitude: real)

  /** The per-neighbourhood tables, in file order, up to the first uncaught exception. */
  function Neighbourhoods(coordinates: seq<CoordinateRow>, categoriesList: seq<string>, limit: int, sortBy: string,
                          apiKey: string, search: Query -> Json, str: Json -> string): Result<seq<Option<seq<Row>>>>
  {
    if coordinates == [] then Ok([])
    else
      var n := |coordinates| - 1;
      var earlier :- Neighbourhoods(coordinates[..n], categoriesList, limit, sortBy, apiKey, search, str);
      var df :- Aggregated(categoriesList, coordinates[n].latitude, coordinates[n].longitude, limit, sortBy, apiKey, search, str);
      Ok(earlier + [Some(df)])
  }

  /** `build_chicago_yelp_df` as a function: all tables concatenated, then
      only the first row for each phone kept. */
  function Built(coordinates: seq<CoordinateRow>, categoriesList: seq<string>, limit: int, sortBy: string,
                 apiKey: string, search: Query -> Json, str: Json -> string): Result<seq<Row>>
  {
    var dfs :- Neighbourhoods(coordinates, categoriesList, limit, sortBy, apiKey, search, str);
    var chicago :- Concat(dfs);
    Ok(Dedup(chicago))
  }

  /** A successful coordinate loop is the loop over all but the last row
      followed by the last row's present table. */
  lemma NeighbourhoodsLast(coordinates: seq<CoordinateRow>, categoriesList: seq<string>,
                           limit: int, sortBy: string, apiKey: string,
                           search: Query -> Json, str: Json -> string, dfs: seq<Option<seq<Row>>>)
    requires coordinates != []
    requires Neighbourhoods(coordinates, categoriesList, limit, sortBy, apiKey, search, str) == Ok(dfs)
    ensures var n := |coordinates| - 1;
            && Neighbourhoods(coordinates[..n], categoriesList, limit, sortBy, apiKey, search, str).Ok?
            && Aggregated(categoriesList, coordinates[n].latitude, coordinates[n].longitude,
                          limit, sortBy, apiKey, search, str).Ok?
            && dfs == Neighbourhoods(coordinates[..n], categoriesList, limit, sortBy, apiKey, search, str).value
                      + [Some(Aggregated(categoriesList, coordinates[n].latitude, coordinates[n].longitude,
                                         limit, sortBy, apiKey, search, str).value)]
  {
  }

  /** A coordinate loop whose prefix raised raises the same exception. */
  lemma NeighbourhoodsRaiseStep(coordinates: seq<CoordinateRow>, categoriesList: seq<string>,
                                limit: int, sortBy: string, apiKey: string,
                                search: Query -> Json, str: Json -> string)
    requires coordinates != []
    requires Neighbourhoods(coordinates[..|coordinates| - 1], categoriesList, limit, sortBy, apiKey, search, str).Raise?
    ensures Neighbourhoods(coordinates, categoriesList, limit, sortBy, apiKey, search, str)
         == Neighbourhoods(coordinates[..|coordinates| - 1], categoriesList, limit, sortBy, apiKey, search, str)
  {
  }

  /** Once a prefix of the coordinate rows raises, the whole file raises the same exception. */
  lemma {:induction false} NeighbourhoodsRaisePrefix(coordinates: seq<CoordinateRow>, k: nat, categoriesList: seq<string>,
                                                     limit: int, sortBy: string, apiKey: string,
                                                     search: Query -> Json, str: Json -> string)
    requires k <= |coordinates|
    requires Neighbourhoods(coordinates[..k], categoriesList, limit, sortBy, apiKey, search, str).Raise?
    ensures Neighbourhoods(coordinates, categoriesList, limit, sortBy, apiKey, search, str)
         == Neighbourhoods(coordinates[..k], categoriesList, limit, sortBy, apiKey, search, str)
    decreases |coordinates| - k
  {
    if k < |coordinates| {
      var next := coordinates[..k + 1];
      assert next[..|next| - 1] == coordinates[..k];
      NeighbourhoodsRaiseStep(next, categoriesList, limit, sortBy, apiKey, search, str);
      NeighbourhoodsRaisePrefix(coordinates, k + 1, categoriesList, limit, sortBy, apiKey, search, str);
    } else {
      assert coordinates[..k] == coordinates;
    }
  }

  /** Aggregates every neighbourhood in file order, concatenates the
      tables and drops rows whose phone an earlier row has. */
  method BuildChicagoYelpDf(coordinates: seq<CoordinateRow>, categoriesList: seq<string>, limit: int, sortBy: string,
                            yelpApiKey: string, search: Query -> Json, str: Json -> string)
    returns (r: Result<seq<Row>>)
    ensures r == Built(coordinates, categoriesList, limit, sortBy, yelpApiKey, search, str)
  {
    var dfList: seq<Option<seq<Row>>> := [];
    for k := 0 to |coordinates|
      invariant Neighbourhoods(coordinates[..k], categoriesList, limit, sortBy, yelpApiKey, search, str) == Ok(dfList)
    {
      var n := coordinates[k];
      assert coordinates[..k + 1][..k] == coordinates[..k];
      var df := GetYelpDf(categoriesList, n.latitude, n.longitude, limit, sortBy, yelpApiKey, search, str);
      if df.Raise? {
        NeighbourhoodsRaisePrefix(coordinates, k + 1, categoriesList, limit, sortBy, yelpApiKey, search, str);
        return Raise(df.error);
      }
      dfList := dfList + [Some(df.value)];
    }
    assert coordinates[..|coordinates|] == coordinates;
    var chicago := Concat(dfList);
    if chicago.Raise? {
      return Raise(chicago.error);
    }
    var chicagoDf := Dedup(chicago.value);
    r := Ok(chicagoDf);
  }
}
