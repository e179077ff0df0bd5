# Yelp business extraction, modelled in Dafny

This project models the data pipeline of `data/yelp.py` in MapBuilder. The
script builds a table of nearby businesses for every Chicago neighbourhood
centroid:

- `extract_yelp_data` issues one Yelp search for a category at a location.
  Restaurant searches are restricted to price tiers `"1,2"`. It walks the
  returned business entries in order. It skips an entry whose reads raise
  KeyError, an entry failing the non-empty/non-null test, and an entry whose
  phone an already accepted entry has. A TypeError from the reads (say, a
  `coordinates` value that is None) is not caught and ends the run. The accepted entries go into parallel column
  lists, which become a table with an info text and the category.
- `get_yelp_df` runs one extraction per category and concatenates the tables.
- `build_chicago_yelp_df` runs `get_yelp_df` for every coordinate row,
  concatenates everything and drops every row whose phone an earlier row has.

Modules:

- `PyJson` (`pyjson.dfy`): decoded JSON values and the Python semantics the
  script uses. This covers truthiness, `v[key]` (KeyError or TypeError),
  iterating with `for`, and the exceptions as a `Result`.
- `Frames` (`frames.dfy`): tables as `seq<Row>`. It has building a table from
  column lists, `pd.concat`, and `drop_duplicates(subset=['phone'])` as
  `Dedup`, with its characterisation: the phone set is preserved, the kept
  rows are an order-preserving subsequence, a row survives exactly when it
  is the first with its phone, the phones are distinct, and the filter is
  idempotent.
- `Yelp` (`yelp.dfy`): the query rule, the reads of the `try` block, the
  acceptance test, and the three script functions as methods with loops.
  Each method is proved equal to a specification function.
  - `ExtractYelpData` keeps the seven parallel lists and the growing
    `phones` list. Its loop is proved to compute "the first uncaught
    exception, or else the acceptable entries' rows deduplicated by phone".
    That is a filter followed by a first-occurrence dedup, a different
    formulation from the loop's inline check.
- `YelpProperties` (`yelp_properties.dfy`): the properties proved of those
  specification functions.

The Yelp client is the parameter `search: Query -> Json`. It maps the query
the script builds to the decoded response. Python's `str()` of a JSON value,
used for the info text, is the parameter `str: Json -> string`.

Behaviour of the code that is easy to miss:

- A falsy search response makes `extract_yelp_data` return `None`, not an
  empty table (data/yelp.py:137-138). `pd.concat` then drops it.
- If every category at a location returns `None`, `pd.concat` raises
  `ValueError`. An empty category list or an empty coordinate file raises
  it too.
- A truthy response without a `businesses` key raises `KeyError` outside
  the `try`, so the whole run aborts.
- A `TypeError` inside the `try` is not caught and aborts the run. An
  example is `coordinates` being `null`.

## Model

| member | source | states |
|---|---|---|
| `Yelp.QueryFor` | data/yelp.py:120-134 | the query carries `price = "1,2"` if and only if the category is `"restaurants"`; category, coordinates, limit, sort order and key are passed through unchanged |
| `PyJson.Subscript` | data/yelp.py:155-162 | `v[key]` yields the dict entry, raises KeyError exactly for a dict without the key, and raises TypeError for any non-dict |
| `PyJson.Truthy` | data/yelp.py:136-138 | no contract of its own. `Yelp.FromResponse` states that the extraction returns None exactly when this predicate is false of the response |
| `PyJson.Iterate` | data/yelp.py:152 | `for` over a list visits its items. An empty dict or string gives no iterations. Anything else raises TypeError before an entry can be read |
| `Yelp.ReadFields` | data/yelp.py:154-162 | the reads in the `try` block can raise only KeyError (caught) or TypeError (not caught) |
| `Yelp.ReadFieldsKeys` | data/yelp.py:154-162 | the reads succeed if and only if the entry is a dict holding name, phone, rating, review_count, url, a dict `coordinates` with latitude and longitude, and a dict `location` with address1. A successful read takes each value from that key. An entry that is a dict, with dicts under `coordinates` and `location` where present, but lacks a key raises KeyError. A non-dict entry raises TypeError |
| `Yelp.Complete` | data/yelp.py:165-168 | no contract of its own. `YelpProperties.AcceptableOnEntry` states the test on the entry itself |
| `YelpProperties.AcceptableOnEntry` | data/yelp.py:154-168 | an entry is accepted if and only if it has every key, its name, phone, rating, review_count, address1 and url differ from `""`, and its latitude and longitude are not None |
| `Yelp.Info` | data/yelp.py:176 | no contract of its own. `YelpProperties.ExtractRowsFromSource` states that every row's info text is `"Yelp Rating: " + str(rating) + " Reviews: " + str(review_count)` of its own entry |
| `Yelp.ExtractStep` | data/yelp.py:164-177 | one more entry extends the specification's rows exactly as the loop does: by the entry's row when it is acceptable and its phone is not among the phones kept so far, otherwise not at all |
| `Yelp.ExtractRows` | data/yelp.py:152-181 | no contract of its own. `YelpProperties.ExtractRowsFromSource`, `ExtractRowsFirstValidWins`, `ExtractRowsUniquePhones`, `SkippedEntryIgnored` and `NullCoordinatesAbort` characterise it |
| `Yelp.FromResponse` | data/yelp.py:136-151 | the result is `None` exactly when the response is falsy. A truthy dict without `businesses` raises KeyError, and a truthy non-dict raises TypeError |
| `Yelp.ExtractYelpData` | data/yelp.py:95-195 | the loop over the entries, with its seven parallel lists and `phones` check, returns `Extracted`: None for a falsy response, the first uncaught exception, or the acceptable entries' rows with each phone kept only at its first acceptable entry |
| `Yelp.ExtractionsRaisePrefix` | data/yelp.py:86-88 | an exception raised by one category's extraction is the result of the whole category loop |
| `Yelp.GetYelpDf` | data/yelp.py:60-92 | returns `Aggregated`: the per-category tables in list order, concatenated with no deduplication, or the first exception, or ValueError when no table is present |
| `Yelp.NeighbourhoodsRaisePrefix` | data/yelp.py:42-48 | an exception raised by one coordinate row's aggregation is the result of the whole coordinate loop |
| `Yelp.BuildChicagoYelpDf` | data/yelp.py:26-57 | returns `Built`: the neighbourhood tables in file order, concatenated and then deduplicated by phone keeping the first row. It returns the first exception instead, or ValueError for an empty coordinate list |
| `Frames.Frame` | data/yelp.py:184-192 | the table built from the column lists has one row per list entry, and row k holds entry k of every list and the category as `type` |
| `Frames.Concat` | data/yelp.py:90 | `pd.concat` succeeds exactly when at least one table is present (None entries are dropped), and raises ValueError otherwise |
| `Frames.Dedup` | data/yelp.py:53 | no contract of its own. The `Frames.Dedup*` lemmas below characterise it |
| `Frames.FlattenMembers` | data/yelp.py:90 | a row is in the concatenation exactly when it is in one of the present tables |
| `Frames.DedupPhones` | data/yelp.py:53 | dropping duplicates neither loses nor invents a phone |
| `Frames.DedupSnoc` | data/yelp.py:164 | checking the next row's phone against the phones kept so far decides what pandas' first-occurrence rule decides |
| `Frames.DedupSubsequence` | data/yelp.py:53 | the kept rows are the input's rows at strictly increasing positions (an order-preserving subsequence) |
| `Frames.DedupKeepsFirstOccurrences` | data/yelp.py:53 | a position is kept exactly when no earlier row has the same phone |
| `Frames.DedupUniquePhones` | data/yelp.py:53 | the kept rows have pairwise distinct phones |
| `Frames.DedupOfUnique` | data/yelp.py:53 | a table whose phones are already distinct is unchanged |
| `Frames.DedupIdempotent` | data/yelp.py:53 | dropping duplicates twice equals dropping them once |
| `Frames.DedupMembers` | data/yelp.py:53 | every kept row is a row of the input |
| `YelpProperties.ExtractRowsFromSource` | data/yelp.py:152-192 | each emitted row comes from an acceptable entry at strictly increasing response positions. Rating and review count of that entry are non-empty, and name, phone, address and url are too. Its coordinates are non-null. The row carries the entry's name, phone, latitude, longitude, address and url, the info text `"Yelp Rating: " + str(rating) + " Reviews: " + str(review_count)` and the queried category |
| `YelpProperties.ExtractRowsFirstValidWins` | data/yelp.py:164-174 | an entry produces a row if and only if it is acceptable and no earlier acceptable entry has its phone. So an entry failing the acceptance test does not block a later acceptable entry with its phone |
| `YelpProperties.ExtractRowsUniquePhones` | data/yelp.py:164-172 | the rows of one search have pairwise distinct phones |
| `YelpProperties.SkippedEntryIgnored` | data/yelp.py:154-181 | an entry whose reads raise KeyError, or that has every key but fails the test, can be removed from the response without changing the result. It adds no row, adds no phone and does not stop later entries |
| `YelpProperties.MissingKeyEntryIgnored` | data/yelp.py:154-181 | an entry that is a dict, with dicts under `coordinates` and `location` where present, but lacks one of the keys (such as `rating`) can be removed from the response without changing the result |
| `YelpProperties.NullCoordinatesAbort` | data/yelp.py:155-181 | an entry with a name whose `coordinates` is None raises TypeError, which `except KeyError` does not catch, so the whole extraction raises TypeError even though keys are missing |
| `YelpProperties.FromResponseRowsComplete` | data/yelp.py:164-190 | every row of a search's table has non-empty name, phone, address and url, non-null coordinates, and the queried category as type |
| `YelpProperties.ExtractionsRowsComplete` | data/yelp.py:85-88 | the category loop yields one result per category, and every row of the k-th result passes the test and has the k-th category |
| `YelpProperties.AggregatedRowsComplete` | data/yelp.py:85-92 | every row of a location's table passes the test and carries one of the queried categories |
| `YelpProperties.NeighbourhoodsRowsComplete` | data/yelp.py:41-48 | the coordinate loop yields one present table per coordinate row, and all of their rows pass the test |
| `YelpProperties.BuiltRowsUnique` | data/yelp.py:51-57 | the final dataset's rows pass the test and carry a queried category. Its phones are globally distinct, and dropping duplicates again changes nothing |
| `YelpProperties.BuiltKeepsFirstRowPerPhone` | data/yelp.py:51-53 | the final dataset is the concatenation (file order, then category order) at strictly increasing positions. A row survives exactly when no earlier row of the concatenation has its phone |

## Left out

- The `YelpAPI` client and its HTTP request are not modelled. The search is the parameter `search`, a function from the query to the decoded response. So the same query always gets the same response, and transport or authentication failures are not modelled.
- `pd.read_csv`, `iterrows` and `to_csv` are file I/O. The coordinate file is a `seq<CoordinateRow>`, and the written `yelp.csv` is the returned table. A missing `latitude`, `longitude` or `COMMUNITY AREA NAME` column is not modelled: the script raises on each of them (the last as a KeyError at data/yelp.py:45). The community area name is otherwise never used.
- The printed KeyError notice is a side effect only. The model skips the entry silently.
- Floating point is not modelled. Coordinates are `real`, and JSON numbers are an `int` (`JInt`) or a `real` (`JFloat`), as the decoder distinguishes them. `str()` of a JSON value, which turns rating and review count into the info text, is the parameter `str`. Python's float formatting is not modelled.
- Python's cross-type equality (`True == 1`) is not modelled. JSON values compare structurally in the `phones` membership test, in the `!= ""` tests and in deduplication.
- pandas internals are not modelled: index labels after `concat`, and the hashing `drop_duplicates` does. A phone that is a JSON list or object would make pandas raise TypeError. Here it is compared structurally.
- `PyJson.Iterate`: for a non-empty dict or string, Python raises the TypeError when the first element (a str) is subscripted. The model raises the same TypeError at iteration.
- The price tiers are the constant `Price`. The other configuration globals (the coordinate file name, categories, limit, sort order, API key and Chicago centre) are not part of this model. The three functions take them as parameters, and nothing in the script passes them in.
