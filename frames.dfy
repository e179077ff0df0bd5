/** Result tables as sequences of rows: building a table from parallel
    column lists, `pd.concat` over a list of tables, and
    `drop_duplicates(subset=['phone'])`, which keeps the first row for each
    phone. */
module Frames {
  import opened PyJson

  /** One row of a result table, with the columns in the order the script
      assigns them: name, phone, latitude, longitude, addtional_info, type,
      address, url. The `type` column is called `category` here. */
  datatype Row = Row(
    name: Json,
    phone: Json,
    latitude: Json,
    longitude: Json,
    info: string,
    category: string,
    address: Json,
    url: Json)

  /** The `phone` column of a table. */
  function PhonesOf(rows: seq<Row>): (ps: seq<Json>)
    ensures |ps| == |rows|
    ensures forall k :: 0 <= k < |rows| ==> ps[k] == rows[k].phone
  {
    seq(|rows|, k requires 0 <= k < |rows| => rows[k].phone)
  }

  /** No two rows of the table share a phone. */
  ghost predicate UniquePhones(rows: seq<Row>) {
    forall i, j :: 0 <= i < j < |rows| ==> rows[i].phone != rows[j].phone
  }

  /** Row `i` is the first row of the table with its phone: pandas'
      `duplicated(keep='first')` is false for it. */
  predicate FirstOccurrence(rows: seq<Row>, i: int)
    requires 0 <= i < |rows|
  {
    forall j :: 0 <= j < i ==> rows[j].phone != rows[i].phone
  }

  /** `idx` lists positions below `n` in strictly increasing order. */
  ghost predicate Increasing(idx: seq<int>, n: int) {
    && (forall k :: 0 <= k < |idx| ==> 0 <= idx[k] < n)
    && (forall k, l :: 0 <= k < l < |idx| ==> idx[k] < idx[l])
  }

  /** A table built from parallel column lists and one scalar column, as
      `DataFrame()` followed by one column assignment per list does. */
  function Frame(names: seq<Json>, phones: seq<Json>, latitudes: seq<Json>, longitudes: seq<Json>,
                 ratings: seq<string>, category: string, addresses: seq<Json>, urls: seq<Json>): (t: seq<Row>)
    requires |phones| == |latitudes| == |longitudes| == |ratings| == |addresses| == |urls| == |names|
    ensures |t| == |names|
    ensures forall k :: 0 <= k < |t| ==>
              t[k] == Row(names[k], phones[k], latitudes[k], longitudes[k], ratings[k], category, addresses[k], urls[k])
  {
    seq(|names|, k requires 0 <= k < |names| =>
      Row(names[k], phones[k], latitudes[k], longitudes[k], ratings[k], category, addresses[k], urls[k]))
  }

  /** Appending one entry to every column list appends one row to the table. */
  lemma FrameSnoc(names: seq<Json>, phones: seq<Json>, latitudes: seq<Json>, longitudes: seq<Json>,
                  ratings: seq<string>, category: string, addresses: seq<Json>, urls: seq<Json>,
                  name: Json, phone: Json, latitude: Json, longitude: Json, rating: string, address: Json, url: Json)
    requires |phones| == |latitudes| == |longitudes| == |ratings| == |addresses| == |urls| == |names|
    ensures Frame(names + [name], phones + [phone], latitudes + [latitude], longitudes + [longitude],
                  ratings + [rating], category, addresses + [address], urls + [url])
         == Frame(names, phones, latitudes, longitudes, ratings, category, addresses, urls)
            + [Row(name, phone, latitude, longitude, rating, category, address, url)]
  {
  }

  /** The rows of the tables that are present, in list order. */
  function Flatten(frames: seq<Option<seq<Row>>>): (rows: seq<Row>)
  {
    if frames == [] then []
    else
      var last := frames[|frames| - 1];
      Flatten(frames[..|frames| - 1]) + (if last.Some? then last.value else [])
  }

  /** `pd.concat(frames)`: None entries are dropped; an empty list, or one
      holding only None, raises ValueError. */
  function Concat(frames: seq<Option<seq<Row>>>): (r: Result<seq<Row>>)
    ensures r.Ok? <==> exists k :: 0 <= k < |frames| && frames[k].Some?
    ensures r.Raise? ==> r.error == ValueError
  {
    if exists k :: 0 <= k < |frames| && frames[k].Some? then Ok(Flatten(frames)) else Raise(ValueError)
  }

  /** A row is in the concatenation exactly when it is in one of the present tables. */
  lemma {:induction false} FlattenMembers(frames: seq<Option<seq<Row>>>, row: Row)
    ensures row in Flatten(frames) <==>
            exists k :: 0 <= k < |frames| && frames[k].Some? && row in frames[k].value
  {
    if frames != [] {
      var init := frames[..|frames| - 1];
      FlattenMembers(init, row);
      if row in Flatten(frames) && row !in Flatten(init) {
        assert frames[|frames| - 1].Some? && row in frames[|frames| - 1].value;
      }
      if exists k :: 0 <= k < |frames| && frames[k].Some? && row in frames[k].value {
        var k :| 0 <= k < |frames| && frames[k].Some? && row in frames[k].value;
        if k < |frames| - 1 {
          assert init[k] == frames[k];
        }
      }
    }
  }

  /** Concatenating present tables only adds up their rows: the concatenation
      of the list with one more table is the old concatenation followed by
      that table. */
  lemma FlattenSnoc(frames: seq<Option<seq<Row>>>, t: Option<seq<Row>>)
    ensures Flatten(frames + [t]) == Flatten(frames) + (if t.Some? then t.value else [])
  {
    assert (frames + [t])[..|frames|] == frames;
  }

  /** `drop_duplicates(subset=['phone'])` with its default `keep='first'`:
      the rows for which `duplicated` is false, in table order. */
  function Dedup(rows: seq<Row>): (kept: seq<Row>)
  {
    if rows == [] then []
    else
      var n := |rows| - 1;
      Dedup(rows[..n]) + (if FirstOccurrence(rows, n) then [rows[n]] else [])
  }

  /** The positions of the rows `Dedup` keeps. */
  ghost function KeptIndexes(rows: seq<Row>): seq<int>
  {
    if rows == [] then []
    else
      var n := |rows| - 1;
      KeptIndexes(rows[..n]) + (if FirstOccurrence(rows, n) then [n] else [])
  }

  /** The phone column of a concatenation is the concatenation of the phone columns. */
  lemma PhonesOfAppend(a: seq<Row>, b: seq<Row>)
    ensures PhonesOf(a + b) == PhonesOf(a) + PhonesOf(b)
  {
  }

  /** Deduplication neither loses nor invents a phone. */
  lemma {:induction false} DedupPhones(rows: seq<Row>)
    ensures forall p :: p in PhonesOf(Dedup(rows)) <==> p in PhonesOf(rows)
  {
    if rows != [] {
      var n := |rows| - 1;
      var init := rows[..n];
      DedupPhones(init);
      assert rows == init + [rows[n]];
      PhonesOfAppend(init, [rows[n]]);
      PhonesOfAppend(Dedup(init), if FirstOccurrence(rows, n) then [rows[n]] else []);
      if !FirstOccurrence(rows, n) {
        var j :| 0 <= j < n && rows[j].phone == rows[n].phone;
        assert PhonesOf(init)[j] == rows[n].phone;
      }
    }
  }

  /** The check the extraction loop performs against the phones kept so far
      decides exactly what `duplicated` decides for the next row. */
  lemma DedupSnoc(rows: seq<Row>, row: Row)
    ensures Dedup(rows + [row]) == Dedup(rows) + (if row.phone in PhonesOf(Dedup(rows)) then [] else [row])
  {
    var all := rows + [row];
    assert all[..|rows|] == rows;
    DedupPhones(rows);
    if row.phone in PhonesOf(rows) {
      var j :| 0 <= j < |rows| && rows[j].phone == row.phone;
      assert all[j].phone == all[|rows|].phone;
    } else {
      forall j | 0 <= j < |rows|
        ensures all[j].phone != all[|rows|].phone
      {
        assert PhonesOf(rows)[j] == rows[j].phone;
      }
    }
  }

  /** The kept rows are the table's rows at increasing positions: the result
      is an order-preserving subsequence of the input. */
  lemma {:induction false} DedupSubsequence(rows: seq<Row>)
    ensures |KeptIndexes(rows)| == |Dedup(rows)|
    ensures Increasing(KeptIndexes(rows), |rows|)
    ensures forall k :: 0 <= k < |Dedup(rows)| ==> Dedup(rows)[k] == rows[KeptIndexes(rows)[k]]
  {
    if rows != [] {
      var n := |rows| - 1;
      DedupSubsequence(rows[..n]);
    }
  }

  /** First occurrence wins: a position is kept exactly when no earlier row
      has the same phone. */
  lemma {:induction false} DedupKeepsFirstOccurrences(rows: seq<Row>)
    ensures forall i :: i in KeptIndexes(rows) <==> 0 <= i < |rows| && FirstOccurrence(rows, i)
  {
    if rows != [] {
      var n := |rows| - 1;
      DedupKeepsFirstOccurrences(rows[..n]);
      DedupSubsequence(rows[..n]);
      forall i | 0 <= i < n
        ensures FirstOccurrence(rows[..n], i) <==> FirstOccurrence(rows, i)
      {
        assert forall j :: 0 <= j <= i ==> rows[..n][j] == rows[j];
      }
    }
  }

  /** The phones of a deduplicated table are pairwise distinct. */
  lemma {:induction false} DedupUniquePhones(rows: seq<Row>)
    ensures UniquePhones(Dedup(rows))
  {
    if rows != [] {
      var n := |rows| - 1;
      var init := rows[..n];
      DedupUniquePhones(init);
      if FirstOccurrence(rows, n) {
        var d := Dedup(init);
        forall j | 0 <= j < n
          ensures PhonesOf(init)[j] != rows[n].phone
        {
        }
        DedupPhones(init);
        assert rows[n].phone !in PhonesOf(d);
        forall i | 0 <= i < |d|
          ensures d[i].phone != rows[n].phone
        {
          assert PhonesOf(d)[i] == d[i].phone;
        }
      }
    }
  }

  /** A table whose phones are already distinct is left as it is. */
  lemma {:induction false} DedupOfUnique(rows: seq<Row>)
    requires UniquePhones(rows)
    ensures Dedup(rows) == rows
  {
    if rows != [] {
      var n := |rows| - 1;
      assert UniquePhones(rows[..n]);
      DedupOfUnique(rows[..n]);
      assert FirstOccurrence(rows, n);
      assert rows[..n] + [rows[n]] == rows;
    }
  }

  /** Dropping duplicates twice is the same as dropping them once. */
  lemma DedupIdempotent(rows: seq<Row>)
    ensures Dedup(Dedup(rows)) == Dedup(rows)
  {
    DedupUniquePhones(rows);
    DedupOfUnique(Dedup(rows));
  }

  /** Every kept row is a row of the input. */
  lemma DedupMembers(rows: seq<Row>)
    ensures forall row :: row in Dedup(rows) ==> row in rows
  {
    DedupSubsequence(rows);
  }
}
