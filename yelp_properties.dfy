/** What the pipeline guarantees about its tables: every row comes from an
    acceptable entry and keeps that entry's values, the rows of one search
    are in response order with distinct phones, the entry kept for a phone
    is the first acceptable one, skipped entries change nothing, and the
    final dataset has globally distinct phones and is unchanged by a second
    deduplication. */
module YelpProperties {
  import opened PyJson
  import opened Frames
  import opened Yelp

  /** The columns the acceptance test guards in a row: name, phone, address
      and url differ from "" and both coordinates are not None. */
  ghost predicate RowComplete(row: Row) {
    && row.name != JStr("")
    && row.phone != JStr("")
    && row.address != JStr("")
    && row.url != JStr("")
    && row.latitude != JNull
    && row.longitude != JNull
  }

  /** `row` is what the entry `b` contributes to a table of `category`:
      the entry's own values and the info text built from its rating and
      review count. */
  ghost predicate RowFrom(row: Row, b: Json, category: string, str: Json -> string)
    requires ReadFields(b).Ok?
  {
    var f := ReadFields(b).value;
    && row.name == f.name
    && row.phone == f.phone
    && row.latitude == f.latitude
    && row.longitude == f.longitude
    && row.info == "Yelp Rating: " + str(f.rating) + " Reviews: " + str(f.reviewCount)
    && row.category == category
    && row.address == f.address
    && row.url == f.url
  }

  /** The phone of an entry whose keys are all present. */
  function PhoneOf(b: Json): Json
    requires ReadFields(b).Ok?
  {
    ReadFields(b).value.phone
  }

  /** The positions of the acceptable entries are increasing, one per
      valid row, and hold exactly the acceptable entries. */
  lemma {:induction false} ValidRowsIndexed(category: string, bs: seq<Json>, str: Json -> string)
    ensures |ValidIndexes(bs)| == |ValidRows(category, bs, str)|
    ensures Increasing(ValidIndexes(bs), |bs|)
    ensures forall i :: i in ValidIndexes(bs) <==> 0 <= i < |bs| && Acceptable(bs[i])
  {
    if bs != [] {
      var n := |bs| - 1;
      ValidRowsIndexed(category, bs[..n], str);
      forall i | 0 <= i < n
        ensures bs[..n][i] == bs[i]
      {
      }
    }
  }

  /** The m-th valid row is the row of the entry at the m-th acceptable position. */
  lemma {:induction false} ValidRowAt(category: string, bs: seq<Json>, str: Json -> string, m: int)
    requires 0 <= m < |ValidIndexes(bs)|
    ensures |ValidIndexes(bs)| == |ValidRows(category, bs, str)|
    ensures 0 <= ValidIndexes(bs)[m] < |bs|
    ensures Acceptable(bs[ValidIndexes(bs)[m]])
    ensures ValidRows(category, bs, str)[m] == RowOf(ReadFields(bs[ValidIndexes(bs)[m]]).value, category, str)
  {
    var n := |bs| - 1;
    ValidRowsIndexed(category, bs[..n], str);
    if m < |ValidIndexes(bs[..n])| {
      ValidRowAt(category, bs[..n], str, m);
    }
  }

  /** One more entry adds the rows it contributes on its own. */
  lemma ValidRowsSnoc(category: string, bs: seq<Json>, b: Json, str: Json -> string)
    ensures ValidRows(category, bs + [b], str)
         == ValidRows(category, bs, str) + (if Acceptable(b) then [RowOf(ReadFields(b).value, category, str)] else [])
  {
    assert (bs + [b])[..|bs|] == bs;
  }

  /** The valid rows of two pieces of a response are those of the whole. */
  lemma {:induction false} ValidRowsAppend(category: string, a: seq<Json>, c: seq<Json>, str: Json -> string)
    ensures ValidRows(category, a + c, str) == ValidRows(category, a, str) + ValidRows(category, c, str)
  {
    if c == [] {
      assert a + c == a;
    } else {
      var n := |c| - 1;
      ValidRowsAppend(category, a, c[..n], str);
      assert a + c == (a + c[..n]) + [c[n]];
      assert c == c[..n] + [c[n]];
      ValidRowsSnoc(category, a + c[..n], c[n], str);
      ValidRowsSnoc(category, c[..n], c[n], str);
    }
  }

  /** The positions in the response of the rows an extraction emits. */
  ghost function ExtractedIndexes(category: string, bs: seq<Json>, str: Json -> string): seq<int> {
    var valid := ValidIndexes(bs);
    var kept := KeptIndexes(ValidRows(category, bs, str));
    seq(|kept|, k requires 0 <= k < |kept| => if 0 <= kept[k] < |valid| then valid[kept[k]] else -1)
  }

  /** The k-th emitted row comes from the k-th kept valid row. */
  lemma EmittedAt(category: string, bs: seq<Json>, str: Json -> string, k: int)
    requires 0 <= k < |KeptIndexes(ValidRows(category, bs, str))|
    ensures |ValidIndexes(bs)| == |ValidRows(category, bs, str)|
    ensures |Dedup(ValidRows(category, bs, str))| == |KeptIndexes(ValidRows(category, bs, str))|
    ensures 0 <= KeptIndexes(ValidRows(category, bs, str))[k] < |ValidIndexes(bs)|
    ensures ExtractedIndexes(category, bs, str)[k] == ValidIndexes(bs)[KeptIndexes(ValidRows(category, bs, str))[k]]
    ensures Dedup(ValidRows(category, bs, str))[k] == ValidRows(category, bs, str)[KeptIndexes(ValidRows(category, bs, str))[k]]
  {
    ValidRowsIndexed(category, bs, str);
    DedupSubsequence(ValidRows(category, bs, str));
  }

  /** Each emitted row is the row of an acceptable entry, the entries are
      taken in response order, and each row carries its entry's name, phone,
      coordinates, address, url and rating text, and the queried category. */
  lemma ExtractRowsFromSource(category: string, bs: seq<Json>, str: Json -> string, rows: seq<Row>)
    requires ExtractRows(category, bs, str) == Ok(rows)
    ensures |ExtractedIndexes(category, bs, str)| == |rows|
    ensures Increasing(ExtractedIndexes(category, bs, str), |bs|)
    ensures forall k :: 0 <= k < |rows| ==>
              var b := bs[ExtractedIndexes(category, bs, str)[k]];
              Acceptable(b) && Complete(ReadFields(b).value) && RowFrom(rows[k], b, category, str)
  {
    var valid := ValidIndexes(bs);
    var vrows := ValidRows(category, bs, str);
    var kept := KeptIndexes(vrows);
    var idx := ExtractedIndexes(category, bs, str);
    ValidRowsIndexed(category, bs, str);
    DedupSubsequence(vrows);
    forall k | 0 <= k < |kept|
      ensures idx[k] == valid[kept[k]]
    {
      EmittedAt(category, bs, str, k);
    }
    forall k | 0 <= k < |rows|
      ensures var b := bs[idx[k]];
              Acceptable(b) && Complete(ReadFields(b).value) && RowFrom(rows[k], b, category, str)
    {
      EmittedAt(category, bs, str, k);
      ValidRowAt(category, bs, str, kept[k]);
    }
  }

  /** The entry at position `i` is acceptable and no earlier acceptable entry has its phone. */
  ghost predicate FirstValid(bs: seq<Json>, i: int) {
    && 0 <= i < |bs|
    && Acceptable(bs[i])
    && forall j :: 0 <= j < i && Acceptable(bs[j]) ==> PhoneOf(bs[j]) != PhoneOf(bs[i])
  }

  /** Two acceptable positions compare as their ranks among the acceptable positions do. */
  lemma ValidRank(bs: seq<Json>, category: string, str: Json -> string, m: int, m': int)
    requires 0 <= m < |ValidIndexes(bs)| && 0 <= m' < |ValidIndexes(bs)|
    ensures ValidIndexes(bs)[m'] < ValidIndexes(bs)[m] <==> m' < m
  {
    ValidRowsIndexed(category, bs, str);
  }

  /** The phone of the m-th valid row is that of the entry it comes from. */
  lemma ValidRowPhone(category: string, bs: seq<Json>, str: Json -> string, m: int)
    requires 0 <= m < |ValidIndexes(bs)|
    ensures |ValidIndexes(bs)| == |ValidRows(category, bs, str)|
    ensures 0 <= ValidIndexes(bs)[m] < |bs|
    ensures Acceptable(bs[ValidIndexes(bs)[m]])
    ensures ValidRows(category, bs, str)[m].phone == PhoneOf(bs[ValidIndexes(bs)[m]])
  {
    ValidRowAt(category, bs, str, m);
  }

  /** The m-th valid row is the first row with its phone exactly when its
      entry is the first acceptable entry with that phone. */
  lemma FirstOccurrenceIsFirstValid(category: string, bs: seq<Json>, str: Json -> string, m: int)
    requires 0 <= m < |ValidIndexes(bs)|
    ensures |ValidIndexes(bs)| == |ValidRows(category, bs, str)|
    ensures FirstOccurrence(ValidRows(category, bs, str), m) <==> FirstValid(bs, ValidIndexes(bs)[m])
  {
    var valid := ValidIndexes(bs);
    var vrows := ValidRows(category, bs, str);
    ValidRowsIndexed(category, bs, str);
    ValidRowPhone(category, bs, str, m);
    var i := valid[m];
    if FirstOccurrence(vrows, m) {
      forall j | 0 <= j < i && Acceptable(bs[j])
        ensures PhoneOf(bs[j]) != PhoneOf(bs[i])
      {
        assert j in valid;
        var m' :| 0 <= m' < |valid| && valid[m'] == j;
        ValidRank(bs, category, str, m, m');
        ValidRowPhone(category, bs, str, m');
      }
    }
    if FirstValid(bs, i) {
      forall m' | 0 <= m' < m
        ensures vrows[m'].phone != vrows[m].phone
      {
        ValidRank(bs, category, str, m, m');
        ValidRowPhone(category, bs, str, m');
      }
    }
  }

  /** First acceptable entry wins: an entry produces a row exactly when it
      is acceptable and no earlier acceptable entry has its phone. An entry
      that has all keys but fails the acceptance test therefore does not
      block a later acceptable entry with the same phone. */
  lemma ExtractRowsFirstValidWins(category: string, bs: seq<Json>, str: Json -> string, rows: seq<Row>)
    requires ExtractRows(category, bs, str) == Ok(rows)
    ensures forall i :: i in ExtractedIndexes(category, bs, str) <==> FirstValid(bs, i)
  {
    var valid := ValidIndexes(bs);
    var vrows := ValidRows(category, bs, str);
    var kept := KeptIndexes(vrows);
    var idx := ExtractedIndexes(category, bs, str);
    ValidRowsIndexed(category, bs, str);
    DedupKeepsFirstOccurrences(vrows);
    forall i
      ensures i in idx <==> FirstValid(bs, i)
    {
      if i in idx {
        var k :| 0 <= k < |idx| && idx[k] == i;
        EmittedAt(category, bs, str, k);
        assert kept[k] in kept;
        FirstOccurrenceIsFirstValid(category, bs, str, kept[k]);
      }
      if FirstValid(bs, i) {
        assert i in valid;
        var m :| 0 <= m < |valid| && valid[m] == i;
        FirstOccurrenceIsFirstValid(category, bs, str, m);
        assert m in kept;
        var k :| 0 <= k < |kept| && kept[k] == m;
        EmittedAt(category, bs, str, k);
        assert idx[k] == i;
      }
    }
  }

  /** The rows of one search have pairwise distinct phones. */
  lemma ExtractRowsUniquePhones(category: string, bs: seq<Json>, str: Json -> string, rows: seq<Row>)
    requires ExtractRows(category, bs, str) == Ok(rows)
    ensures UniquePhones(rows)
  {
    DedupUniquePhones(ValidRows(category, bs, str));
  }

  /** An entry whose reads raise KeyError, or with all keys but failing the
      acceptance test, adds no row, leaves the phones seen unchanged and
      does not stop the entries after it: removing it changes nothing. */
  lemma SkippedEntryIgnored(category: string, before: seq<Json>, b: Json, after: seq<Json>, str: Json -> string)
    requires !Acceptable(b) && !Escapes(b)
    ensures ExtractRows(category, before + [b] + after, str) == ExtractRows(category, before + after, str)
  {
    SkippedEntryNoRow(category, before, b, after, str);
    SkippedEntryNoEscape(before, b, after);
  }

  /** An entry that is not acceptable contributes no valid row. */
  lemma SkippedEntryNoRow(category: string, before: seq<Json>, b: Json, after: seq<Json>, str: Json -> string)
    requires !Acceptable(b)
    ensures ValidRows(category, before + [b] + after, str) == ValidRows(category, before + after, str)
  {
    ValidRowsAppend(category, before + [b], after, str);
    ValidRowsSnoc(category, before, b, str);
    ValidRowsAppend(category, before, after, str);
  }

  /** An entry that does not escape does not change whether some entry escapes. */
  lemma SkippedEntryNoEscape(before: seq<Json>, b: Json, after: seq<Json>)
    requires !Escapes(b)
    ensures SomeEscapes(before + [b] + after) <==> SomeEscapes(before + after)
  {
    SomeEscapesAppend(before + [b], after);
    SomeEscapesAppend(before, [b]);
    SomeEscapesAppend(before, after);
    assert !SomeEscapes([b]) by {
      forall j | 0 <= j < 1
        ensures !Escapes([b][j])
      {
      }
    }
  }

  /** An entry that is a dict, with dicts under `coordinates` and
      `location` where present, but lacks one of the keys the reads name
      (say `rating`), adds no row and does not stop the entries after it. */
  lemma MissingKeyEntryIgnored(category: string, before: seq<Json>, b: Json, after: seq<Json>, str: Json -> string)
    requires DictShaped(b) && !HasAllFields(b)
    ensures ExtractRows(category, before + [b] + after, str) == ExtractRows(category, before + after, str)
  {
    ReadFieldsKeys(b);
    SkippedEntryIgnored(category, before, b, after, str);
  }

  /** A missing key is not always skipped: an entry with a name whose
      `coordinates` value is None raises TypeError at the latitude read,
      before any other key is looked up, and the whole extraction raises it. */
  lemma NullCoordinatesAbort(category: string, before: seq<Json>, b: Json, after: seq<Json>, str: Json -> string)
    requires b.JObj? && "name" in b.fields && "coordinates" in b.fields && b.fields["coordinates"] == JNull
    ensures ExtractRows(category, before + [b] + after, str) == Raise(TypeError)
  {
    assert Escapes(b);
    assert (before + [b] + after)[|before|] == b;
  }

  /** The acceptance test, stated on the entry itself: every key is present,
      the six values differ from the empty string and both coordinates are
      not None. */
  lemma AcceptableOnEntry(b: Json)
    ensures Acceptable(b) <==>
              && HasAllFields(b)
              && b.fields["name"] != JStr("") && b.fields["phone"] != JStr("")
              && b.fields["rating"] != JStr("") && b.fields["review_count"] != JStr("")
              && b.fields["location"].fields["address1"] != JStr("") && b.fields["url"] != JStr("")
              && b.fields["coordinates"].fields["latitude"] != JNull
              && b.fields["coordinates"].fields["longitude"] != JNull
  {
    ReadFieldsKeys(b);
  }

  /** Every row of a search's table passes the acceptance test and is of the queried category. */
  lemma FromResponseRowsComplete(category: string, response: Json, str: Json -> string, rows: seq<Row>)
    requires FromResponse(category, response, str) == Ok(Some(rows))
    ensures forall row :: row in rows ==> RowComplete(row) && row.category == category
  {
    var bs := Iterate(Subscript(response, "businesses").value).value;
    assert ExtractRows(category, bs, str) == Ok(rows);
    ExtractRowsFromSource(category, bs, str, rows);
    forall row | row in rows
      ensures RowComplete(row) && row.category == category
    {
      var k :| 0 <= k < |rows| && rows[k] == row;
    }
  }

  /** The same, for the search the category loop issues. */
  lemma ExtractedRowsComplete(category: string, lat: real, longt: real, limit: int, sortBy: string, apiKey: string,
                              search: Query -> Json, str: Json -> string, rows: seq<Row>)
    requires Extracted(category, lat, longt, limit, sortBy, apiKey, search, str) == Ok(Some(rows))
    ensures forall row :: row in rows ==> RowComplete(row) && row.category == category
  {
    FromResponseRowsComplete(category, search(QueryFor(category, lat, longt, limit, sortBy, apiKey)), str, rows);
  }

  /** Table k, when present, holds only rows that pass the test and carry category k. */
  ghost predicate TablesComplete(dfs: seq<Option<seq<Row>>>, categoriesList: seq<string>)
    requires |dfs| == |categoriesList|
  {
    forall k, row :: 0 <= k < |dfs| && dfs[k].Some? && row in dfs[k].value ==>
      RowComplete(row) && row.category == categoriesList[k]
  }

  /** Appending one complete table for one more category keeps the tables complete. */
  lemma TablesCompleteSnoc(dfs: seq<Option<seq<Row>>>, categoriesList: seq<string>, df: Option<seq<Row>>, category: string)
    requires |dfs| == |categoriesList| && TablesComplete(dfs, categoriesList)
    requires df.Some? ==> forall row :: row in df.value ==> RowComplete(row) && row.category == category
    ensures TablesComplete(dfs + [df], categoriesList + [category])
  {
    var all := dfs + [df];
    var cats := categoriesList + [category];
    forall k, row | 0 <= k < |all| && all[k].Some? && row in all[k].value
      ensures RowComplete(row) && row.category == cats[k]
    {
      if k < |dfs| {
        assert all[k] == dfs[k];
      }
    }
  }

  /** One search per category, in list order: the k-th result belongs to
      the k-th category, and every row it holds passes the acceptance test. */
  lemma {:induction false} ExtractionsRowsComplete(categoriesList: seq<string>, lat: real, longt: real, limit: int,
                                                   sortBy: string, apiKey: string, search: Query -> Json,
                                                   str: Json -> string, dfs: seq<Option<seq<Row>>>)
    requires Extractions(categoriesList, lat, longt, limit, sortBy, apiKey, search, str) == Ok(dfs)
    ensures |dfs| == |categoriesList|
    ensures TablesComplete(dfs, categoriesList)
  {
    if categoriesList != [] {
      var n := |categoriesList| - 1;
      ExtractionsLast(categoriesList, lat, longt, limit, sortBy, apiKey, search, str, dfs);
      var earlier := Extractions(categoriesList[..n], lat, longt, limit, sortBy, apiKey, search, str).value;
      ExtractionsRowsComplete(categoriesList[..n], lat, longt, limit, sortBy, apiKey, search, str, earlier);
      var last := Extracted(categoriesList[n], lat, longt, limit, sortBy, apiKey, search, str).value;
      if last.Some? {
        ExtractedRowsComplete(categoriesList[n], lat, longt, limit, sortBy, apiKey, search, str, last.value);
      }
      TablesCompleteSnoc(earlier, categoriesList[..n], last, categoriesList[n]);
      assert categoriesList[..n] + [categoriesList[n]] == categoriesList;
    }
  }

  /** Every row of a location's table passes the acceptance test and carries one of the queried categories. */
  lemma AggregatedRowsComplete(categoriesList: seq<string>, lat: real, longt: real, limit: int, sortBy: string,
                               apiKey: string, search: Query -> Json, str: Json -> string, rows: seq<Row>)
    requires Aggregated(categoriesList, lat, longt, limit, sortBy, apiKey, search, str) == Ok(rows)
    ensures forall row :: row in rows ==> RowComplete(row) && row.category in categoriesList
  {
    AggregatedFlatten(categoriesList, lat, longt, limit, sortBy, apiKey, search, str, rows);
    var dfs := Extractions(categoriesList, lat, longt, limit, sortBy, apiKey, search, str).value;
    ExtractionsRowsComplete(categoriesList, lat, longt, limit, sortBy, apiKey, search, str, dfs);
    TablesCompleteFlatten(dfs, categoriesList);
  }

  /** The concatenation of complete tables holds only complete rows of the listed categories. */
  lemma TablesCompleteFlatten(dfs: seq<Option<seq<Row>>>, categoriesList: seq<string>)
    requires |dfs| == |categoriesList| && TablesComplete(dfs, categoriesList)
    ensures forall row :: row in Flatten(dfs) ==> RowComplete(row) && row.category in categoriesList
  {
    forall row | row in Flatten(dfs)
      ensures RowComplete(row) && row.category in categoriesList
    {
      FlattenMembers(dfs, row);
    }
  }

  /** Every table is present, and every row in it passes the test and
      carries one of the categories. */
  ghost predicate AllPresentComplete(dfs: seq<Option<seq<Row>>>, categoriesList: seq<string>) {
    && (forall k :: 0 <= k < |dfs| ==> dfs[k].Some?)
    && (forall k, row :: 0 <= k < |dfs| && dfs[k].Some? && row in dfs[k].value ==>
          RowComplete(row) && row.category in categoriesList)
  }

  /** Appending one more complete table keeps every table present and complete. */
  lemma AllPresentCompleteSnoc(dfs: seq<Option<seq<Row>>>, categoriesList: seq<string>, t: seq<Row>)
    requires AllPresentComplete(dfs, categoriesList)
    requires forall row :: row in t ==> RowComplete(row) && row.category in categoriesList
    ensures AllPresentComplete(dfs + [Some(t)], categoriesList)
  {
    var all := dfs + [Some(t)];
    forall k, row | 0 <= k < |all| && all[k].Some? && row in all[k].value
      ensures RowComplete(row) && row.category in categoriesList
    {
      if k < |dfs| {
        assert all[k] == dfs[k];
      }
    }
  }

  /** Every neighbourhood's table is present, and every row in it passes
      the acceptance test and carries one of the queried categories. */
  lemma {:induction false} NeighbourhoodsRowsComplete(coordinates: seq<CoordinateRow>, categoriesList: seq<string>,
                                                      limit: int, sortBy: string, apiKey: string,
                                                      search: Query -> Json, str: Json -> string,
                                                      dfs: seq<Option<seq<Row>>>)
    requires Neighbourhoods(coordinates, categoriesList, limit, sortBy, apiKey, search, str) == Ok(dfs)
    ensures |dfs| == |coordinates|
    ensures AllPresentComplete(dfs, categoriesList)
  {
    if coordinates != [] {
      var n := |coordinates| - 1;
      NeighbourhoodsLast(coordinates, categoriesList, limit, sortBy, apiKey, search, str, dfs);
      var earlier := Neighbourhoods(coordinates[..n], categoriesList, limit, sortBy, apiKey, search, str).value;
      NeighbourhoodsRowsComplete(coordinates[..n], categoriesList, limit, sortBy, apiKey, search, str, earlier);
      var last := Aggregated(categoriesList, coordinates[n].latitude, coordinates[n].longitude,
                             limit, sortBy, apiKey, search, str).value;
      AggregatedRowsComplete(categoriesList, coordinates[n].latitude, coordinates[n].longitude,
                             limit, sortBy, apiKey, search, str, last);
      AllPresentCompleteSnoc(earlier, categoriesList, last);
    }
  }

  /** The final dataset: every row passes the acceptance test and carries
      one of the queried categories; no two rows share a phone; and
      dropping duplicates again changes nothing. */
  lemma BuiltRowsUnique(coordinates: seq<CoordinateRow>, categoriesList: seq<string>, limit: int, sortBy: string,
                        apiKey: string, search: Query -> Json, str: Json -> string, rows: seq<Row>)
    requires Built(coordinates, categoriesList, limit, sortBy, apiKey, search, str) == Ok(rows)
    ensures forall row :: row in rows ==> RowComplete(row) && row.category in categoriesList
    ensures UniquePhones(rows)
    ensures Dedup(rows) == rows
  {
    var dfs := Neighbourhoods(coordinates, categoriesList, limit, sortBy, apiKey, search, str).value;
    var all := Flatten(dfs);
    NeighbourhoodsRowsComplete(coordinates, categoriesList, limit, sortBy, apiKey, search, str, dfs);
    DedupMembers(all);
    forall row | row in rows
      ensures RowComplete(row) && row.category in categoriesList
    {
      FlattenMembers(dfs, row);
    }
    DedupUniquePhones(all);
    DedupIdempotent(all);
  }

  /** The final dataset is the concatenation of the neighbourhood tables,
      in file order, with each phone kept only at its first row: it is an
      order-preserving subsequence of the concatenation, and a row of the
      concatenation survives exactly when no earlier row has its phone. */
  lemma BuiltKeepsFirstRowPerPhone(coordinates: seq<CoordinateRow>, categoriesList: seq<string>, limit: int,
                                   sortBy: string, apiKey: string, search: Query -> Json, str: Json -> string,
                                   rows: seq<Row>)
    requires Built(coordinates, categoriesList, limit, sortBy, apiKey, search, str) == Ok(rows)
    ensures var all := Flatten(Neighbourhoods(coordinates, categoriesList, limit, sortBy, apiKey, search, str).value);
            && |KeptIndexes(all)| == |rows|
            && Increasing(KeptIndexes(all), |all|)
            && (forall k :: 0 <= k < |rows| ==> rows[k] == all[KeptIndexes(all)[k]])
            && (forall i :: i in KeptIndexes(all) <==> 0 <= i < |all| && FirstOccurrence(all, i))
  {
    var all := Flatten(Neighbourhoods(coordinates, categoriesList, limit, sortBy, apiKey, search, str).value);
    DedupSubsequence(all);
    DedupKeepsFirstOccurrences(all);
  }
}
