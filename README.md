# Distance matrix core: payload validation and matrix building

This project models, in Dafny, the two pieces of the distance-matrix tool that
hold its logic:

- **The request-payload validator** (`distance_matrix/payload_validation.py`).
  Pure predicates decide whether an origins or destinations argument is
  acceptable: a string, a place ID, a coordinate pair, a coordinate dict, or a
  list or tuple of such entries. The payload builder checks the two queries and
  the enumerated travel options in a fixed order. It either rejects the input
  with the first failing check or returns the twelve arguments as a payload.
  It lives in module `PayloadValidation` (`payload_validation.dfy`).
- **The response-to-matrix transformer** (`distance_matrix/generator.py`).
  This is the `DistanceMatrixGenerator` class. It sanitises the caller's
  labels, checks that the parsed response is rectangular, and extracts each
  cell's kilometres and seconds. It fills a label-keyed table column by column
  and issues location and distance records to the persistence layer. It lives
  in module `Generator` (`generator.dfy`).

Supporting modules:

- `Wrappers`: `Option` and `Result`.
- `PyValues`: the Python values the validator inspects with `isinstance`, and
  their truthiness.
- `PyStrings`: `str.strip`, `str.lower` and `str.title`.
- `Labels`: the last index of a label, and the first-seen order of labels.

How the model represents things:

- **State.** The generator is a class. Its labels, database flag and parsed
  response are fixed at construction. Two fields change:
  - `matrix` is the pandas frame. A `Frame` value holds the row index, the
    columns in creation order, and the cells written so far.
  - `log` is the sequence of persistence calls issued so far.
- **The loop.** The nested loop of `build_matrix` is a pair of `for` loops
  (`FillMatrix`, `FillColumn`). They are proved against a recursive
  specification `Run`, which visits cell after cell. Every property of the
  finished matrix and log is proved as a lemma about `Build`, the function the
  `BuildMatrix` method is tied to.
- **Injected parts.** Python's `float(str)` is passed in as a `FloatParser`.
  The clock is passed in as a number `now`, in seconds since the epoch.

Behaviour of the code worth knowing, which the model keeps:

- **Emission order.** The loop runs over destinations outside and origins
  inside (generator.py:127-128). The distance records are therefore issued in
  column-major order: every origin of the first destination, then every origin
  of the next (`Generator.ColumnMajorOrder`, `Generator.BuildLog`).
- **Location inserts.** The location insert is called once per zipped
  (name, address) pair of each list, not once per distinct location. A
  repeated label is inserted again (generator.py:97-101, `Generator.LocationRecords`).
- **Partial state on failure.** A raise in the middle of the loop leaves
  behind the frame built so far and the records issued so far. `Generator.Build`
  keeps both.
- **Dict queries.** A coordinate dict passes `is_valid_distance_matrix_query`,
  but `convert_data_to_list` raises `TypeError` for it
  (`PayloadValidation.AcceptedQueryConversion`).

## Model

| member | source | states |
|---|---|---|
| PayloadValidation.ConvertStrToFloat | distance_matrix/payload_validation.py:172-178 | a string that parses becomes the float it parses to; everything else, including an unparsable string, comes back unchanged; so the result is a number iff the input is a number or a parsable string |
| PayloadValidation.IsValidCoordinatePair | distance_matrix/payload_validation.py:153-158 | accepted iff every coordinate is a number or a parsable string, whatever the length |
| PayloadValidation.IsValidCoordinateDict | distance_matrix/payload_validation.py:130-139 | accepted iff both "lat" and "lng" are present and each is numeric |
| PayloadValidation.IsValidDataEntry | distance_matrix/payload_validation.py:181-208 | only strings, dicts, lists and tuples can be accepted; an accepted string is no bare place ID and not blank; an accepted list or tuple is a numeric pair (both directions: the four Rule lemmas below) |
| PayloadValidation.StringEntryRule | distance_matrix/payload_validation.py:192-197 | a string entry is accepted iff it does not start with "ChI" and holds a non-whitespace character |
| PayloadValidation.PairEntryRule | distance_matrix/payload_validation.py:200-205 | a list or tuple entry is accepted iff it has exactly two elements and both are numeric |
| PayloadValidation.OtherEntryRule | distance_matrix/payload_validation.py:198-208 | a dict entry is judged as a coordinate dict; a number, None, a datetime or any other object is rejected |
| PayloadValidation.ThreeElementPairRejected | distance_matrix/payload_validation.py:200-205 | a list or tuple entry of three elements is rejected whatever they hold |
| PayloadValidation.IsValidDistanceMatrixQuery | distance_matrix/payload_validation.py:211-238 | only strings, lists, tuples and dicts can be accepted, and an accepted list or tuple is non-empty (both directions: CoordinateTupleAccepted, ListQueryRule, TupleQueryRule, OtherQueryRule) |
| PayloadValidation.CoordinateTupleAccepted | distance_matrix/payload_validation.py:225-226 | a tuple of two numeric values is accepted as one coordinate pair |
| PayloadValidation.ListQueryRule | distance_matrix/payload_validation.py:224-231 | a list query is accepted iff it is non-empty and every element is a valid entry; a list holding a bare number is rejected |
| PayloadValidation.TupleQueryRule | distance_matrix/payload_validation.py:224-231 | a tuple that is not a numeric pair is accepted iff it is non-empty and every element is a valid entry |
| PayloadValidation.OtherQueryRule | distance_matrix/payload_validation.py:221-238 | empty lists and tuples are rejected; a dict is judged as a coordinate dict and a string as one entry; every other type is rejected |
| PayloadValidation.TupleIsPairButListIsNot | distance_matrix/payload_validation.py:224-231 | the same two numbers are accepted as a tuple and rejected as a list |
| PayloadValidation.ExtraDictKeysIgnored | distance_matrix/payload_validation.py:130-136 | adding a key other than "lat" or "lng" never changes whether a dict query is accepted |
| PayloadValidation.IsValidTravelTime | distance_matrix/payload_validation.py:104-116 | None and "now" are accepted and any other string rejected; a number or datetime is accepted iff it is at most 240 seconds before now; every other value is accepted |
| PayloadValidation.IsAllowedOption | distance_matrix/payload_validation.py:46-70 | an option is allowed iff it is None or a string equal to one of the listed values |
| PyValues.Truthy | distance_matrix/payload_validation.py:55 | the falsy values are exactly None, 0, 0.0, the empty string and the empty list, tuple and dict |
| PayloadValidation.FirstInvalidOption | distance_matrix/payload_validation.py:46-70 | none iff every option check (2 to 10) holds; otherwise the named check fails and every earlier option check holds; both times truthy is always reported |
| PayloadValidation.PrepareDistanceMatrixApiPayload | distance_matrix/payload_validation.py:33-86 | accepted iff all eleven checks hold; on rejection, the reported check fails and every earlier one holds; both times truthy means rejection; the accepted payload holds the twelve arguments unchanged |
| PayloadValidation.LanguageAndRegionUnchecked | distance_matrix/payload_validation.py:72-84 | language and region never change the verdict or the error, only their own payload fields |
| PayloadValidation.ConvertDataToList | distance_matrix/payload_validation.py:255-263 | a list or tuple gives its elements, a string a one-element list, and every other value an error |
| PayloadValidation.AcceptedQueryConversion | distance_matrix/payload_validation.py:255-263 | every accepted query except a coordinate dict converts to a non-empty list; an accepted coordinate dict is refused |
| PyStrings.Strip | distance_matrix/generator.py:210 | the result is the input with a leading and a trailing run of whitespace removed and nothing else, and it neither starts nor ends with whitespace |
| PyStrings.Lower | distance_matrix/generator.py:210 | same length; whitespace and cased characters stay where they were |
| PyStrings.LowerLetters | distance_matrix/generator.py:210 | `lower()` leaves no upper-case letter and changes characters only in case |
| PyStrings.Title | distance_matrix/generator.py:210 | same length; whitespace and cased characters stay where they were |
| PyStrings.TitleLetters | distance_matrix/generator.py:210 | `title()` changes characters only in case, and a letter is upper-case iff it is first or follows an uncased character |
| PyStrings.StripEmptyIffBlank | distance_matrix/payload_validation.py:197 | `strip()` is empty iff the string is empty or all whitespace |
| PyStrings.TitleOfLower | distance_matrix/generator.py:210 | `title()` after `lower()` equals `title()` |
| PyStrings.TitleIdempotent | distance_matrix/generator.py:210 | `title()` is idempotent |
| PyStrings.LowerOfTitle | distance_matrix/generator.py:210 | `lower()` after `title()` equals `lower()` |
| Generator.SanitizeLabel | distance_matrix/generator.py:208-212 | a non-string, or a string blank after trimming, becomes "Unknown" |
| Generator.SanitizeLabelIsClean | distance_matrix/generator.py:207-213 | a sanitised label is non-empty, has no surrounding whitespace, is its own title case, and equal to the trimmed input up to letter case |
| Generator.SanitizeLabelIdempotent | distance_matrix/generator.py:207-213 | sanitising a sanitised label changes nothing |
| Generator.SanitizeLabelsIdempotent | distance_matrix/generator.py:205-214 | sanitising a sanitised list changes none of its labels |
| Generator.DistanceMatrixGenerator.SanitizeLabels | distance_matrix/generator.py:205-214 | the result has the input's length and holds each label sanitised at the same position |
| Generator.DistanceMatrixGenerator.constructor | distance_matrix/generator.py:27-32 | both label lists are stored sanitised position by position; the flag and response are kept; no matrix, empty log |
| Generator.MetresToKm | distance_matrix/generator.py:177-179 | the kilometres are the metres divided by 1000, rounded to the nearest integer with ties to even |
| Generator.HalfEvenKmUnique | distance_matrix/generator.py:178 | the rounding rule admits exactly one kilometre value |
| Generator.RoundingExamples | distance_matrix/generator.py:178 | 12345 m gives 12 km, and the ties 500, 1500 and 2500 m give 0, 2 and 2 km |
| Generator.ExtractTravelAttribute | distance_matrix/generator.py:170-191 | a status other than OK gives NaN; with OK, an unsupported attribute and a missing field are errors, the distance is rounded to kilometres and the duration is returned as it is |
| Generator.FirstRowOfWrongLength | distance_matrix/generator.py:82-84 | finds the first row at or after a start position whose length is wrong, or none when every row fits |
| Generator.ValidateApiResponse | distance_matrix/generator.py:78-86 | fails iff the response is not rectangular; a row-count mismatch is reported first, otherwise the first row of the wrong length is named |
| Generator.LocationRecords | distance_matrix/generator.py:97-101 | one location record per zipped pair, as many as the shorter list, in order |
| Generator.DistanceMatrixGenerator.InsertLocationsIfNotExists | distance_matrix/generator.py:97-101 | the log gains exactly the zipped location records |
| Generator.VisitFailure | distance_matrix/generator.py:130-146 | a cell's visit raises nothing iff the element is in range, both labels exist, and an OK element has both fields |
| Generator.Visit | distance_matrix/generator.py:130-146 | a failed state is left alone; the visit stays failure-free iff the state was and the cell is well-formed |
| Generator.Frame.Set | distance_matrix/generator.py:136 | the written cell holds the value and every other cell is unchanged; the row and column labels are present afterwards, existing labels keep their order, at most one of each is appended, and a label already present adds nothing |
| Generator.Run | distance_matrix/generator.py:127-146 | a state that has already failed is returned unchanged (the other Run lemmas state the rest) |
| Generator.RunFailureFree | distance_matrix/generator.py:127-146 | the loop reaches a point without raising iff every cell visited before it is well-formed |
| Generator.FailureSticks | distance_matrix/generator.py:127-151 | once a visit raises, the final state is the state at that point |
| Generator.RunExtendsLog | distance_matrix/generator.py:141-146 | the loop only appends records, and none without a database |
| Generator.CellAtStep | distance_matrix/generator.py:134-136 | a visit writes only its own labelled cell, with the extracted distance |
| Generator.CellAtNextColumn | distance_matrix/generator.py:127-136 | ending one column and starting the next describe the same cells |
| Generator.RunShapeStep | distance_matrix/generator.py:134-136 | a successful visit keeps the row index and adds its column label only if it is new |
| Generator.RunShape | distance_matrix/generator.py:118-136 | without a raise, the index is the origin labels and the columns are the destination labels met so far, in first-seen order |
| Generator.RunCells | distance_matrix/generator.py:127-136 | without a raise, every cell holds the distance of the last visit that wrote it, or NaN |
| Generator.RunLog | distance_matrix/generator.py:127-146 | without a raise, the loop appends exactly the column-major distance records when the database is on |
| Generator.ColumnMajorOrder | distance_matrix/generator.py:127-146 | the record of origin r and destination c sits at position c * origins + r |
| Labels.FirstSeen | distance_matrix/generator.py:136 | the columns a label-keyed table gains: each label met so far, once, in order of first appearance |
| Labels.FirstIndex | distance_matrix/generator.py:136 | the position of the first occurrence of a label among the first n, or -1 when it does not occur there |
| Labels.FirstSeenDistinct | distance_matrix/generator.py:127-136 | with distinct labels, the columns gained are exactly the labels met, in the order given |
| Generator.Build | distance_matrix/generator.py:116-151 | a non-rectangular response leaves the frame and the log untouched and reports the validation error |
| Generator.BuildResult | distance_matrix/generator.py:116-151 | `build_matrix` succeeds iff the response is rectangular and stamped, the labels cover the addresses, and every OK element has both fields |
| Generator.BuildMatrixCells | distance_matrix/generator.py:118-136 | after success, the index is the origin labels, the columns are the distinct destination labels in first-seen order, and each cell holds the last-written distance |
| Generator.DistinctLabelsCell | distance_matrix/generator.py:127-136 | with distinct labels, the index is the origin labels and the columns are the destination labels, both in the order given, and cell (r, c) is the rounded distance of element (r, c) when its status is OK, and NaN otherwise |
| Generator.BuildLog | distance_matrix/generator.py:121-146 | after success with a database, the log gains the origin locations, then the destination locations, then the column-major distance records; without a database it is unchanged |
| Generator.BuildAppendOnly | distance_matrix/generator.py:116-151 | whatever happens, `build_matrix` only appends records, and none without a database |
| Generator.DistanceMatrixGenerator.BuildMatrix | distance_matrix/generator.py:116-151 | the verdict, the frame field and the log are those `Build` gives for the old frame and log |
| Generator.DistanceMatrixGenerator.FillMatrix | distance_matrix/generator.py:127-146 | the outer loop ends in the state `Run` gives after the last column, with its error if it raised |
| Generator.DistanceMatrixGenerator.FillColumn | distance_matrix/generator.py:128-146 | one column ends in the state `Run` gives at the next column, or on a raise in the final state of `Run` |

## Left out

- Reading the response file, the CSV export and the `print` diagnostics are not modelled. The parsed response is an input value, and the frame is the result.
- The database is not modelled. Its inserts are records appended to `log`. A failing location insert is swallowed in the code and is recorded all the same; failing distance inserts (generator.py:141-146) are not modelled.
- The database connection set-up in the constructor is not modelled (generator.py:34-40). The constructor's `writeToDb` is the flag after that set-up. As written, generator.py:37 calls `create_tables()`, but the handler defines only `create_tables_if_not_exists` (database_handler.py:100). So that call always raises, the handler at generator.py:38-40 catches it, and the flag ends False: with the shipped handler no location or distance records are ever issued, and the database case of `BuildLog` is unreachable. The model keeps that case so it describes the intended behaviour.
- `fetcher.py`, `config.py`, `database_handler.py` and `database_models.py` are not part of this model.
- Python's `float(str)` is a parameter (`FloatParser`), not a parser. The wall clock is the parameter `now`. Both clock reads of `is_valid_travel_time` are one instant.
- PayloadValidation.IsValidTravelTime: datetimes are naive and floats are finite. The `TypeError` from comparing a timezone-aware datetime with the naive `datetime.now()` (payload_validation.py:108) is not modelled. NaN, which every comparison at payload_validation.py:112 lets through, and the infinities are not modelled either.
- Letter case is modelled for ASCII letters only. Every other character is uncased, so Unicode case mapping is not captured.
- Python `bool` is folded into `Int`. Dict keys are strings. Objects of other types are one `Other` value, truthy as Python's default.
- Generator.MetresToKm: computes exact half-even rounding of m/1000, not the float division followed by `round`; the two differ only beyond 2^53 metres. Non-integer metre values and non-finite floats are not modelled.
- An element always carries a `status`, so the KeyError on a missing status is not modelled. A distance or duration that is present carries its `value`.
- Each raise keeps its own error value. The model does not wrap them into the single `ValueError` that `build_matrix` re-raises.
- A failed validation leaves the frame field as it was. The frame is created only after validation, as in the code.
- Frame cells are keyed by label. Duplicate origin labels therefore share one cell, where pandas writes every row with that label. The shared cell is last-write-wins, as in the code.
- Generator.DistanceMatrixGenerator.SanitizeLabels: builds a fresh sequence instead of copying the list and overwriting it. Any sequence of values is accepted, so the AttributeError for an argument without `.copy()` is not modelled.
