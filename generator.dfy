/**
 * The response-to-matrix transformer of distance_matrix/generator.py: label
 * sanitising, the shape check of the parsed response, per-cell extraction of
 * distance and duration, and the `DistanceMatrixGenerator` object that fills
 * an origin-by-destination table cell by cell and appends one persistence
 * record per location pair and per cell to an append-only log.
 *
 * The parsed JSON response is an input value (reading the file is not part of
 * this model), the pandas DataFrame is a `Frame` value held in a field, and
 * the database is the log of the inserts the generator issues.
 */
module Generator {
  import opened Wrappers
  import opened PyValues
  import opened PyStrings
  import opened Labels

  /** A matrix cell or an extracted attribute: a whole number, or NaN. */
  datatype Cell = Number(n: int) | Missing

  /** One element of a response row; distance and duration carry their `value`. */
  datatype Element = Element(status: string, distance: Option<int>, duration: Option<int>)

  datatype Row = Row(elements: seq<Element>)

  /**
   * The parsed response: `origin_addresses`, `destination_addresses`,
   * `rows` and the `request_time_iso` stamp appended when it was archived.
   */
  datatype RawResponse = RawResponse(
    originAddresses: seq<string>, destinationAddresses: seq<string>,
    rows: seq<Row>, requestTime: Option<string>)

  /** The reasons `build_matrix` raises. */
  datatype BuildError =
    | RowCountMismatch                    // rows and origin addresses differ in number
    | RowLengthMismatch(row: nat)         // the first row whose length is not the destination count
    | UnsupportedAttribute(attribute: string)
    | MissingField(key: string)           // a KeyError on the response
    | LabelIndexOutOfRange                // fewer caller labels than addresses

  /** A call to the persistence layer. */
  datatype Record =
    | LocationInsert(name: string, address: string)
    | DistanceInsert(origin: string, destination: string, km: Cell, sec: Cell, timestamp: string)

  /**
   * The DataFrame: its row index, its columns in the order they were
   * created, and the cells written so far (every other cell reads as NaN).
   */
  datatype Frame = Frame(index: seq<string>, columns: seq<string>, cells: map<(string, string), Cell>)
  {
    /** `df.loc[row, column] = value`, creating the row or column when it is new. */
    function Set(row: string, column: string, value: Cell): (f: Frame)
      ensures f.At(row, column) == value
      ensures forall R, C :: (R, C) != (row, column) ==> f.At(R, C) == At(R, C)
      ensures row in f.index && index <= f.index && |f.index| <= |index| + 1
      ensures column in f.columns && columns <= f.columns && |f.columns| <= |columns| + 1
      ensures row in index ==> f.index == index
      ensures column in columns ==> f.columns == columns
    {
      Frame(if row in index then index else index + [row],
            if column in columns then columns else columns + [column],
            cells[(row, column) := value])
    }

    function At(row: string, column: string): Cell {
      if (row, column) in cells then cells[(row, column)] else Missing
    }
  }

  // ---------------------------------------------------------------------------
  // Kilometre rounding and cell extraction

  /** `k` is `m / 1000` rounded to the nearest integer, ties to the even one. */
  predicate IsHalfEvenKm(m: int, k: int) {
    -500 <= m - 1000 * k <= 500
    && ((m - 1000 * k == 500 || m - 1000 * k == -500) ==> k % 2 == 0)
  }

  /** `int(round(m / 1000, ndigits=0))` on a whole number of metres. */
  function MetresToKm(m: int): (k: int)
    ensures IsHalfEvenKm(m, k)
  {
    var q, rem := m / 1000, m % 1000;
    if rem < 500 then q
    else if rem > 500 then q + 1
    else if q % 2 == 0 then q
    else q + 1
  }

  /** The rounding rule pins the kilometre value down uniquely. */
  lemma HalfEvenKmUnique(m: int, k: int, k': int)
    requires IsHalfEvenKm(m, k) && IsHalfEvenKm(m, k')
    ensures k == k'
  {
  }

  lemma RoundingExamples()
    ensures MetresToKm(12345) == 12 && MetresToKm(500) == 0
    ensures MetresToKm(1500) == 2 && MetresToKm(2500) == 2
  {
  }

  /**
   * `extract_travel_attribute`: for status OK, the distance in whole
   * kilometres or the raw duration (an unsupported attribute raises, a
   * missing one is a KeyError); for every other status NaN, whatever the
   * attribute.
   */
  function ExtractTravelAttribute(element: Element, attribute: string): (r: Result<Cell, BuildError>)
    ensures element.status != "OK" ==> r == Ok(Missing)
    ensures element.status == "OK" && attribute != "distance" && attribute != "duration"
            ==> r == Err(UnsupportedAttribute(attribute))
    ensures element.status == "OK" && attribute == "distance" ==>
              (element.distance.None? ==> r == Err(MissingField("distance")))
              && (element.distance.Some? ==> r.Ok? && r.value.Number?
                                             && IsHalfEvenKm(element.distance.value, r.value.n))
    ensures element.status == "OK" && attribute == "duration" ==>
              (element.duration.None? ==> r == Err(MissingField("duration")))
              && (element.duration.Some? ==> r == Ok(Number(element.duration.value)))
  {
    if element.status == "OK" then
      if attribute != "distance" && attribute != "duration" then
        Err(UnsupportedAttribute(attribute))
      else if attribute == "distance" then
        match element.distance
        case None => Err(MissingField("distance"))
        case Some(m) => Ok(Number(MetresToKm(m)))
      else
        match element.duration
        case None => Err(MissingField("duration"))
        case Some(s) => Ok(Number(s))
    else
      Ok(Missing)
  }

  // ---------------------------------------------------------------------------
  // Shape check

  /** Row count equals the origin count and every row has one element per destination. */
  predicate Rectangular(response: RawResponse) {
    |response.rows| == |response.originAddresses|
    && forall i :: 0 <= i < |response.rows| ==>
         |response.rows[i].elements| == |response.destinationAddresses|
  }

  /** The first row at or after `from` whose length is not `width`, if any. */
  function FirstRowOfWrongLength(rows: seq<Row>, width: nat, from: nat): (i: Option<nat>)
    requires from <= |rows|
    ensures i.None? <==> forall j :: from <= j < |rows| ==> |rows[j].elements| == width
    ensures i.Some? ==> from <= i.value < |rows| && |rows[i.value].elements| != width
                        && forall j :: from <= j < i.value ==> |rows[j].elements| == width
    decreases |rows| - from
  {
    if from == |rows| then None
    else if |rows[from].elements| != width then Some(from)
    else FirstRowOfWrongLength(rows, width, from + 1)
  }

  /**
   * `validate_api_response`: fails iff the response is not rectangular; a row
   * count mismatch is reported first, otherwise the first bad row is named.
   */
  function ValidateApiResponse(response: RawResponse): (r: Result<(), BuildError>)
    ensures r.Ok? <==> Rectangular(response)
    ensures r == Err(RowCountMismatch) <==> |response.rows| != |response.originAddresses|
    ensures r.Err? && r.error.RowLengthMismatch? ==>
              var i := r.error.row;
              && |response.rows| == |response.originAddresses|
              && i < |response.rows|
              && |response.rows[i].elements| != |response.destinationAddresses|
              && forall j :: 0 <= j < i ==> |response.rows[j].elements| == |response.destinationAddresses|
    ensures r.Err? ==> r.error.RowCountMismatch? || r.error.RowLengthMismatch?
  {
    if |response.rows| != |response.originAddresses| then Err(RowCountMismatch)
    else
      match FirstRowOfWrongLength(response.rows, |response.destinationAddresses|, 0)
      case None => Ok(())
      case Some(i) => Err(RowLengthMismatch(i))
  }

  // ---------------------------------------------------------------------------
  // Label sanitising

  /**
   * One label of `sanitize_labels`: `strip().lower().title()` of a string,
   * "Unknown" for a non-string or for a string that is blank after trimming.
   */
  function SanitizeLabel(raw: Value): (clean: string)
    ensures !raw.Str? || Strip(raw.s) == [] ==> clean == "Unknown"
  {
    var text := if raw.Str? then raw.s else "Unknown";
    var candidate := Title(Lower(Strip(text)));
    UnknownIsClean();
    if Strip(candidate) == [] then "Unknown" else candidate
  }

  /**
   * A sanitised label is never empty, has no surrounding whitespace, is its
   * own title case, and differs from the trimmed input only in letter case.
   */
  lemma SanitizeLabelIsClean(raw: Value)
    ensures var clean := SanitizeLabel(raw);
            && clean != [] && Strip(clean) == clean && Title(clean) == clean
            && (raw.Str? && Strip(raw.s) != [] ==> Lower(clean) == Lower(Strip(raw.s)))
  {
    var clean := SanitizeLabel(raw);
    if raw.Str? && Strip(raw.s) != [] {
      var trimmed := Strip(raw.s);
      TrimmedLabelFacts(trimmed);
      assert clean == Title(Lower(trimmed));
    } else {
      assert clean == "Unknown";
      UnknownIsClean();
    }
  }

  /** What `title()` after `lower()` keeps of a trimmed string. */
  lemma TrimmedLabelFacts(trimmed: string)
    requires trimmed == [] || (!IsSpace(trimmed[0]) && !IsSpace(trimmed[|trimmed| - 1]))
    ensures var candidate := Title(Lower(trimmed));
            && Strip(candidate) == candidate
            && Title(candidate) == candidate
            && Lower(candidate) == Lower(trimmed)
  {
    var lower := Lower(trimmed);
    var candidate := Title(lower);
    StripTrimmed(candidate);
    TitleIdempotent(lower);
    LowerOfTitle(lower);
    LowerIdempotent(trimmed);
  }

  /** The fallback label is already clean. */
  lemma UnknownIsClean()
    ensures Strip("Unknown") == "Unknown" && Title(Lower("Unknown")) == "Unknown"
    ensures Title("Unknown") == "Unknown"
  {
    var u := "Unknown";
    assert !IsSpace(u[0]) && !IsSpace(u[|u| - 1]);
    StripTrimmed(u);
    UnknownIsTitled();
    TitleOfLower(u);
  }

  lemma UnknownIsTitled()
    ensures Title("Unknown") == "Unknown"
  {
    var u := "Unknown";
    var t := Title(u);
    forall i | 0 <= i < |u|
      ensures t[i] == u[i]
    {
      assert 'A' <= u[i] <= 'z';
      assert i > 0 ==> IsCased(u[i - 1]);
    }
  }

  /** Sanitising a whole sanitised list changes none of its labels. */
  lemma SanitizeLabelsIdempotent(labels: seq<Value>)
    ensures forall i :: 0 <= i < |labels| ==>
              SanitizeLabel(Str(SanitizeLabel(labels[i]))) == SanitizeLabel(labels[i])
  {
    forall i | 0 <= i < |labels| {
      SanitizeLabelIdempotent(labels[i]);
    }
  }

  /** Sanitising a sanitised label changes nothing. */
  lemma SanitizeLabelIdempotent(raw: Value)
    ensures SanitizeLabel(Str(SanitizeLabel(raw))) == SanitizeLabel(raw)
  {
    var clean := SanitizeLabel(raw);
    SanitizeLabelIsClean(raw);
    TitleOfLower(clean);
  }

  // ---------------------------------------------------------------------------
  // Location inserts

  /** The location records of `zip(names, addresses)`: one per pair, as many as the shorter list. */
  function LocationRecords(names: seq<string>, addresses: seq<string>): (records: seq<Record>)
    ensures |records| == if |names| <= |addresses| then |names| else |addresses|
    ensures forall i :: 0 <= i < |records| ==> records[i] == LocationInsert(names[i], addresses[i])
  {
    if names == [] || addresses == [] then []
    else [LocationInsert(names[0], addresses[0])] + LocationRecords(names[1..], addresses[1..])
  }

  // ---------------------------------------------------------------------------
  // The matrix fill of build_matrix, one visit per cell

  /** What one run of the nested loop works from: the response, the labels, the flag and the stamp. */
  datatype Job = Job(
    response: RawResponse, originNames: seq<string>, destinationNames: seq<string>,
    writeToDb: bool, timestamp: string)

  function NumOrigins(job: Job): nat { |job.response.originAddresses| }

  function NumDestinations(job: Job): nat { |job.response.destinationAddresses| }

  /** The attribute of the element at origin `r` and destination `c`, NaN where extraction raises. */
  function Extracted(job: Job, r: nat, c: nat, attribute: string): Cell
    requires Rectangular(job.response) && r < NumOrigins(job) && c < NumDestinations(job)
  {
    match ExtractTravelAttribute(job.response.rows[r].elements[c], attribute)
    case Ok(v) => v
    case Err(_) => Missing
  }

  /**
   * The visit of cell (r, c) raises nothing: the element is in range, an OK
   * element carries both a distance and a duration, and both caller labels exist.
   */
  predicate VisitOk(job: Job, r: nat, c: nat) {
    && Rectangular(job.response) && r < NumOrigins(job) && c < NumDestinations(job)
    && r < |job.originNames| && c < |job.destinationNames|
    && var e := job.response.rows[r].elements[c];
       e.status == "OK" ==> e.distance.Some? && e.duration.Some?
  }

  /** Cell (r', c') is visited before the loop reaches row `r` of column `c`. */
  predicate Before(job: Job, c: nat, r: nat, r': nat, c': nat) {
    (c' < c && r' < NumOrigins(job)) || (c' == c && r' < r)
  }

  /** The state of the loop: the frame, the records issued, and the error raised, if any. */
  datatype Progress = Progress(frame: Frame, log: seq<Record>, failure: Option<BuildError>)

  /**
   * The error the visit of cell (r, c) raises, in the order the loop body
   * meets them: a distance KeyError, then a missing label, then a duration
   * KeyError.
   */
  function VisitFailure(job: Job, r: nat, c: nat): (f: Option<BuildError>)
    requires Rectangular(job.response) && r < NumOrigins(job) && c < NumDestinations(job)
    ensures f.None? <==> VisitOk(job, r, c)
  {
    var e := job.response.rows[r].elements[c];
    var distance, duration := ExtractTravelAttribute(e, "distance"), ExtractTravelAttribute(e, "duration");
    if distance.Err? then Some(distance.error)
    else if r >= |job.originNames| || c >= |job.destinationNames| then Some(LabelIndexOutOfRange)
    else if duration.Err? then Some(duration.error)
    else None
  }

  /** The visit of cell (r, c) gets as far as writing the cell: the distance and both labels were read. */
  predicate WritesCell(job: Job, r: nat, c: nat)
    requires Rectangular(job.response) && r < NumOrigins(job) && c < NumDestinations(job)
  {
    && ExtractTravelAttribute(job.response.rows[r].elements[c], "distance").Ok?
    && r < |job.originNames| && c < |job.destinationNames|
  }

  /** The distance record of cell (r, c): both aliases, kilometres, seconds and the request stamp. */
  function DistanceRecord(job: Job, r: nat, c: nat): Record
    requires Rectangular(job.response) && r < NumOrigins(job) && c < NumDestinations(job)
    requires r < |job.originNames| && c < |job.destinationNames|
  {
    DistanceInsert(job.originNames[r], job.destinationNames[c],
                   Extracted(job, r, c, "distance"), Extracted(job, r, c, "duration"), job.timestamp)
  }

  /**
   * One pass of the inner loop body at origin `r`, destination `c`: extract
   * the distance, look up both labels, write the cell, extract the duration,
   * then issue the distance record. A raise stops the pass where it happens.
   */
  function Visit(job: Job, p: Progress, r: nat, c: nat): (q: Progress)
    requires Rectangular(job.response) && r < NumOrigins(job) && c < NumDestinations(job)
    ensures p.failure.Some? ==> q == p
    ensures q.failure.None? <==> p.failure.None? && VisitOk(job, r, c)
  {
    if p.failure.Some? then p
    else
      var failure := VisitFailure(job, r, c);
      var frame := if WritesCell(job, r, c) then
                     p.frame.Set(job.originNames[r], job.destinationNames[c], Extracted(job, r, c, "distance"))
                   else p.frame;
      var log := if failure.None? && job.writeToDb then p.log + [DistanceRecord(job, r, c)] else p.log;
      Progress(frame, log, failure)
  }

  /** The loop's state once it reaches row `r` of column `c`: columns outside, rows inside. */
  function Run(job: Job, start: Progress, c: nat, r: nat): (p: Progress)
    requires Rectangular(job.response) && c <= NumDestinations(job) && r <= NumOrigins(job)
    requires r > 0 ==> c < NumDestinations(job)
    ensures start.failure.Some? ==> p == start
    decreases c, r
  {
    if r > 0 then Visit(job, Run(job, start, c, r - 1), r - 1, c)
    else if c > 0 then Run(job, start, c - 1, NumOrigins(job))
    else start
  }

  /** The loop gets this far without raising iff every cell visited so far is well-formed. */
  lemma {:induction false} RunFailureFree(job: Job, start: Progress, c: nat, r: nat)
    requires Rectangular(job.response) && c <= NumDestinations(job) && r <= NumOrigins(job)
    requires r > 0 ==> c < NumDestinations(job)
    ensures Run(job, start, c, r).failure.None? <==>
              start.failure.None? && forall r': nat, c': nat :: Before(job, c, r, r', c') ==> VisitOk(job, r', c')
    decreases c, r
  {
    if r > 0 {
      RunFailureFree(job, start, c, r - 1);
      assert Run(job, start, c, r) == Visit(job, Run(job, start, c, r - 1), r - 1, c);
      assert Before(job, c, r, r - 1, c);
      assert forall r': nat, c': nat :: Before(job, c, r, r', c') <==>
               Before(job, c, r - 1, r', c') || (r' == r - 1 && c' == c);
    } else if c > 0 {
      RunFailureFree(job, start, c - 1, NumOrigins(job));
      assert forall r': nat, c': nat :: Before(job, c, 0, r', c') <==> Before(job, c - 1, NumOrigins(job), r', c');
    }
  }

  /** Once a visit raises, the loop is left with the state it had at that point. */
  lemma {:induction false} FailureSticks(job: Job, start: Progress, c: nat, r: nat)
    requires Rectangular(job.response) && c <= NumDestinations(job) && r <= NumOrigins(job)
    requires r > 0 ==> c < NumDestinations(job)
    requires Run(job, start, c, r).failure.Some?
    ensures Run(job, start, NumDestinations(job), 0) == Run(job, start, c, r)
    decreases NumDestinations(job) - c, NumOrigins(job) - r
  {
    if c == NumDestinations(job) {
    } else if r < NumOrigins(job) {
      FailureSticks(job, start, c, r + 1);
    } else {
      FailureSticks(job, start, c + 1, 0);
    }
  }

  /** Records are only ever appended, and none at all without a database. */
  lemma {:induction false} RunExtendsLog(job: Job, start: Progress, c: nat, r: nat)
    requires Rectangular(job.response) && c <= NumDestinations(job) && r <= NumOrigins(job)
    requires r > 0 ==> c < NumDestinations(job)
    ensures var log := Run(job, start, c, r).log;
            |start.log| <= |log| && log[..|start.log|] == start.log
    ensures !job.writeToDb ==> Run(job, start, c, r).log == start.log
    decreases c, r
  {
    if r > 0 {
      RunExtendsLog(job, start, c, r - 1);
    } else if c > 0 {
      RunExtendsLog(job, start, c - 1, NumOrigins(job));
    }
  }

  /**
   * The cell (R, C) once the loop reaches row `r` of column `c`: the
   * distance of the last visit that wrote it, NaN if none has yet.
   */
  function CellAt(job: Job, c: nat, r: nat, R: string, C: string): Cell
    requires Rectangular(job.response) && c <= NumDestinations(job) && r <= NumOrigins(job)
    requires r > 0 ==> c < NumDestinations(job)
  {
    var rc := LastIndex(job.originNames, R, r);
    if rc >= 0 && c < |job.destinationNames| && job.destinationNames[c] == C then
      Extracted(job, rc, c, "distance")
    else
      var r0 := LastIndex(job.originNames, R, NumOrigins(job));
      var c0 := LastIndex(job.destinationNames, C, c);
      if r0 >= 0 && c0 >= 0 then Extracted(job, r0, c0, "distance") else Missing
  }

  /** The columns of the frame once the loop reaches row `r` of column `c`. */
  function ColumnsAt(job: Job, c: nat, r: nat): seq<string> {
    if NumOrigins(job) == 0 then [] else FirstSeen(job.destinationNames, if r > 0 then c + 1 else c)
  }

  /** Visiting (r, c) writes cell (on[r], dn[c]) and leaves every other cell as the last write left it. */
  lemma CellAtStep(job: Job, c: nat, r: nat, R: string, C: string)
    requires Rectangular(job.response) && c < NumDestinations(job) && r < NumOrigins(job)
    requires r < |job.originNames| && c < |job.destinationNames|
    ensures CellAt(job, c, r + 1, R, C) ==
              if R == job.originNames[r] && C == job.destinationNames[c] then Extracted(job, r, c, "distance")
              else CellAt(job, c, r, R, C)
  {
    var on, dn := job.originNames, job.destinationNames;
    if R == on[r] && C == dn[c] {
    } else if C == dn[c] {
      assert LastIndex(on, R, r + 1) == LastIndex(on, R, r);
    }
  }

  /** Finishing column c - 1 and starting column c describe the same cells. */
  lemma CellAtNextColumn(job: Job, c: nat, R: string, C: string)
    requires Rectangular(job.response) && 0 < c <= NumDestinations(job)
    ensures CellAt(job, c, 0, R, C) == CellAt(job, c - 1, NumOrigins(job), R, C)
  {
    var dn := job.destinationNames;
    if c - 1 < |dn| && dn[c - 1] == C {
      assert LastIndex(dn, C, c) == c - 1;
    } else {
      assert LastIndex(dn, C, c) == LastIndex(dn, C, c - 1);
    }
  }

  /**
   * Without a raise, the row index is unchanged and the columns are the
   * destination labels met so far, in first-seen order.
   */
  lemma {:induction false} RunShape(job: Job, start: Progress, c: nat, r: nat)
    requires Rectangular(job.response) && c <= NumDestinations(job) && r <= NumOrigins(job)
    requires r > 0 ==> c < NumDestinations(job)
    requires Run(job, start, c, r).failure.None?
    requires start.frame.index == job.originNames && start.frame.columns == []
    ensures Run(job, start, c, r).frame.index == job.originNames
    ensures Run(job, start, c, r).frame.columns == ColumnsAt(job, c, r)
    decreases c, r
  {
    if r > 0 {
      var p := Run(job, start, c, r - 1);
      RunShape(job, start, c, r - 1);
      assert Run(job, start, c, r) == Visit(job, p, r - 1, c);
      RunShapeStep(job, p, c, r - 1);
    } else if c > 0 {
      RunShape(job, start, c - 1, NumOrigins(job));
      assert Run(job, start, c, 0) == Run(job, start, c - 1, NumOrigins(job));
      assert ColumnsAt(job, c, 0) == ColumnsAt(job, c - 1, NumOrigins(job));
    }
  }

  /** A visit that raises nothing keeps the row index and adds its column label if it is new. */
  lemma RunShapeStep(job: Job, p: Progress, c: nat, r: nat)
    requires Rectangular(job.response) && c < NumDestinations(job) && r < NumOrigins(job)
    requires Visit(job, p, r, c).failure.None?
    requires p.frame.index == job.originNames && p.frame.columns == ColumnsAt(job, c, r)
    ensures Visit(job, p, r, c).frame.index == job.originNames
    ensures Visit(job, p, r, c).frame.columns == ColumnsAt(job, c, r + 1)
  {
    var on, dn := job.originNames, job.destinationNames;
    assert VisitOk(job, r, c);
    assert on[r] in on;
    assert LastIndex(dn, dn[c], c + 1) == c;
    assert Visit(job, p, r, c).frame == p.frame.Set(on[r], dn[c], Extracted(job, r, c, "distance"));
  }

  /** Without a raise, every cell holds the distance of the last visit that wrote it. */
  lemma {:induction false} RunCells(job: Job, start: Progress, c: nat, r: nat)
    requires Rectangular(job.response) && c <= NumDestinations(job) && r <= NumOrigins(job)
    requires r > 0 ==> c < NumDestinations(job)
    requires Run(job, start, c, r).failure.None?
    requires start.frame.cells == map[]
    ensures forall R, C :: Run(job, start, c, r).frame.At(R, C) == CellAt(job, c, r, R, C)
    decreases c, r
  {
    if r > 0 {
      RunCells(job, start, c, r - 1);
      forall R, C
        ensures Run(job, start, c, r).frame.At(R, C) == CellAt(job, c, r, R, C)
      {
        CellAtStep(job, c, r - 1, R, C);
      }
    } else if c > 0 {
      RunCells(job, start, c - 1, NumOrigins(job));
      forall R, C
        ensures Run(job, start, c, r).frame.At(R, C) == CellAt(job, c, r, R, C)
      {
        CellAtNextColumn(job, c, R, C);
      }
    }
  }

  /** Every label the loop looks up exists: both lists cover their addresses once any cell is visited. */
  predicate Covered(job: Job) {
    NumOrigins(job) > 0 && NumDestinations(job) > 0 ==>
      NumOrigins(job) <= |job.originNames| && NumDestinations(job) <= |job.destinationNames|
  }

  /** The distance records of every cell visited before row `r` of column `c`, in visit order. */
  function ColumnMajor(job: Job, c: nat, r: nat): seq<Record>
    requires Rectangular(job.response) && c <= NumDestinations(job) && r <= NumOrigins(job)
    requires r > 0 ==> c < NumDestinations(job)
    requires Covered(job)
    decreases c, r
  {
    if r > 0 then ColumnMajor(job, c, r - 1) + [DistanceRecord(job, r - 1, c)]
    else if c > 0 then ColumnMajor(job, c - 1, NumOrigins(job))
    else []
  }

  /** The records of `ColumnMajor(job, c, r)` sit at position c' * rows + r'. */
  ghost predicate InColumnMajorOrder(job: Job, c: nat, r: nat)
    requires Rectangular(job.response) && c <= NumDestinations(job) && r <= NumOrigins(job)
    requires r > 0 ==> c < NumDestinations(job)
    requires Covered(job)
  {
    var s := ColumnMajor(job, c, r);
    && |s| == c * NumOrigins(job) + r
    && forall r': nat, c': nat :: Before(job, c, r, r', c') ==>
         && c' * NumOrigins(job) + r' < |s|
         && s[c' * NumOrigins(job) + r'] == DistanceRecord(job, r', c')
  }

  /** Column-major order: the record of cell (r', c') sits at position c' * rows + r'. */
  lemma ColumnMajorOrder(job: Job, c: nat, r: nat)
    requires Rectangular(job.response) && c <= NumDestinations(job) && r <= NumOrigins(job)
    requires r > 0 ==> c < NumDestinations(job)
    requires Covered(job)
    ensures |ColumnMajor(job, c, r)| == c * NumOrigins(job) + r
    ensures forall r': nat, c': nat :: Before(job, c, r, r', c') ==>
              && c' * NumOrigins(job) + r' < |ColumnMajor(job, c, r)|
              && ColumnMajor(job, c, r)[c' * NumOrigins(job) + r'] == DistanceRecord(job, r', c')
  {
    ColumnMajorOrderHolds(job, c, r);
  }

  lemma {:induction false} ColumnMajorOrderHolds(job: Job, c: nat, r: nat)
    requires Rectangular(job.response) && c <= NumDestinations(job) && r <= NumOrigins(job)
    requires r > 0 ==> c < NumDestinations(job)
    requires Covered(job)
    ensures InColumnMajorOrder(job, c, r)
    decreases c, r
  {
    if r > 0 {
      ColumnMajorOrderHolds(job, c, r - 1);
      ColumnMajorRowStep(job, c, r);
    } else if c > 0 {
      ColumnMajorOrderHolds(job, c - 1, NumOrigins(job));
      ColumnMajorColumnStep(job, c);
    }
  }

  lemma ColumnMajorRowStep(job: Job, c: nat, r: nat)
    requires Rectangular(job.response) && c < NumDestinations(job) && 0 < r <= NumOrigins(job)
    requires Covered(job)
    requires InColumnMajorOrder(job, c, r - 1)
    ensures InColumnMajorOrder(job, c, r)
  {
    var n := NumOrigins(job);
    var s := ColumnMajor(job, c, r);
    var p := ColumnMajor(job, c, r - 1);
    assert s == p + [DistanceRecord(job, r - 1, c)];
    forall r': nat, c': nat | Before(job, c, r, r', c')
      ensures c' * n + r' < |s| && s[c' * n + r'] == DistanceRecord(job, r', c')
    {
      if c' == c && r' == r - 1 {
        assert c' * n + r' == |p|;
      } else {
        assert Before(job, c, r - 1, r', c');
      }
    }
  }

  lemma ColumnMajorColumnStep(job: Job, c: nat)
    requires Rectangular(job.response) && 0 < c <= NumDestinations(job)
    requires Covered(job)
    requires InColumnMajorOrder(job, c - 1, NumOrigins(job))
    ensures InColumnMajorOrder(job, c, 0)
  {
    var n := NumOrigins(job);
    var s := ColumnMajor(job, c, 0);
    assert (c - 1) * n + n == c * n;
    assert s == ColumnMajor(job, c - 1, n);
    forall r': nat, c': nat | Before(job, c, 0, r', c')
      ensures c' * n + r' < |s| && s[c' * n + r'] == DistanceRecord(job, r', c')
    {
      assert Before(job, c - 1, n, r', c');
    }
  }

  /** Without a raise, the records issued during the loop are the column-major distance records. */
  lemma {:induction false} RunLog(job: Job, start: Progress, c: nat, r: nat)
    requires Rectangular(job.response) && c <= NumDestinations(job) && r <= NumOrigins(job)
    requires r > 0 ==> c < NumDestinations(job)
    requires Covered(job) && Run(job, start, c, r).failure.None?
    ensures Run(job, start, c, r).log == start.log + if job.writeToDb then ColumnMajor(job, c, r) else []
    decreases c, r
  {
    if r > 0 {
      var p := Run(job, start, c, r - 1);
      assert Run(job, start, c, r) == Visit(job, p, r - 1, c);
      assert p.failure.None? && VisitOk(job, r - 1, c);
      RunLog(job, start, c, r - 1);
      if job.writeToDb {
        var x := DistanceRecord(job, r - 1, c);
        assert Visit(job, p, r - 1, c).log == p.log + [x];
        assert ColumnMajor(job, c, r) == ColumnMajor(job, c, r - 1) + [x];
        assert start.log + (ColumnMajor(job, c, r - 1) + [x]) == (start.log + ColumnMajor(job, c, r - 1)) + [x];
      } else {
        assert Visit(job, p, r - 1, c).log == p.log;
      }
    } else if c > 0 {
      RunLog(job, start, c - 1, NumOrigins(job));
    }
  }

  // ---------------------------------------------------------------------------
  // build_matrix as a whole

  /** An element `build_matrix` can read in full: an OK element carries both values. */
  predicate Complete(e: Element) {
    e.status == "OK" ==> e.distance.Some? && e.duration.Some?
  }

  /**
   * When `build_matrix` raises nothing: the response is rectangular and
   * stamped, both label lists are long enough once there is a cell to visit,
   * and every element is complete.
   */
  predicate BuildSucceeds(response: RawResponse, originNames: seq<string>, destinationNames: seq<string>) {
    var nr, nc := |response.originAddresses|, |response.destinationAddresses|;
    && Rectangular(response)
    && response.requestTime.Some?
    && (nr > 0 && nc > 0 ==> nr <= |originNames| && nc <= |destinationNames|)
    && forall r, c :: 0 <= r < |response.rows| && 0 <= c < |response.rows[r].elements| ==>
         Complete(response.rows[r].elements[c])
  }

  /** Both location lists, origins first, as `insert_locations_if_not_exists` issues them. */
  function Locations(response: RawResponse, originNames: seq<string>, destinationNames: seq<string>): seq<Record> {
    LocationRecords(originNames, response.originAddresses)
      + LocationRecords(destinationNames, response.destinationAddresses)
  }

  /** The loop's starting state: a frame indexed by the origin labels and the records issued so far. */
  function Start(response: RawResponse, originNames: seq<string>, destinationNames: seq<string>,
                 writeToDb: bool, log: seq<Record>): Progress {
    var locations := if writeToDb then Locations(response, originNames, destinationNames) else [];
    Progress(Frame(originNames, [], map[]), log + locations, None)
  }

  /** What `build_matrix` leaves behind: its verdict, the frame field and the record log. */
  datatype Outcome = Outcome(result: Result<(), BuildError>, matrix: Option<Frame>, log: seq<Record>)

  /**
   * `build_matrix` from a matrix field and a record log: validate, make the
   * frame, issue the location records, read the stamp, then run the loop.
   */
  function Build(response: RawResponse, originNames: seq<string>, destinationNames: seq<string>,
                 writeToDb: bool, matrix: Option<Frame>, log: seq<Record>): (o: Outcome)
    ensures !Rectangular(response) ==> o == Outcome(ValidateApiResponse(response), matrix, log)
  {
    if ValidateApiResponse(response).Err? then Outcome(ValidateApiResponse(response), matrix, log)
    else
      var start := Start(response, originNames, destinationNames, writeToDb, log);
      match response.requestTime
      case None => Outcome(Err(MissingField("request_time_iso")), Some(start.frame), start.log)
      case Some(timestamp) =>
        var job := Job(response, originNames, destinationNames, writeToDb, timestamp);
        var p := Run(job, start, NumDestinations(job), 0);
        Outcome(if p.failure.None? then Ok(()) else Err(p.failure.value), Some(p.frame), p.log)
  }

  /** The cell (R, C) of the finished matrix: the distance of the last cell with those labels. */
  function LastWriteCell(job: Job, R: string, C: string): Cell
    requires Rectangular(job.response)
  {
    var r := LastIndex(job.originNames, R, NumOrigins(job));
    var c := LastIndex(job.destinationNames, C, NumDestinations(job));
    if r >= 0 && c >= 0 then Extracted(job, r, c, "distance") else Missing
  }

  /** `build_matrix` raises nothing iff the inputs are as `BuildSucceeds` describes. */
  lemma BuildResult(response: RawResponse, originNames: seq<string>, destinationNames: seq<string>,
                    writeToDb: bool, matrix: Option<Frame>, log: seq<Record>)
    ensures Build(response, originNames, destinationNames, writeToDb, matrix, log).result.Ok?
            <==> BuildSucceeds(response, originNames, destinationNames)
  {
    if Rectangular(response) && response.requestTime.Some? {
      var start := Start(response, originNames, destinationNames, writeToDb, log);
      var job := Job(response, originNames, destinationNames, writeToDb, response.requestTime.value);
      var nr, nc := NumOrigins(job), NumDestinations(job);
      RunFailureFree(job, start, nc, 0);
      var ok := forall r': nat, c': nat :: Before(job, nc, 0, r', c') ==> VisitOk(job, r', c');
      if ok && nr > 0 && nc > 0 {
        assert VisitOk(job, nr - 1, nc - 1);
      }
      if ok {
        forall r, c | 0 <= r < |response.rows| && 0 <= c < |response.rows[r].elements|
          ensures Complete(response.rows[r].elements[c])
        {
          assert VisitOk(job, r, c);
        }
      }
      if BuildSucceeds(response, originNames, destinationNames) {
        forall r': nat, c': nat | Before(job, nc, 0, r', c')
          ensures VisitOk(job, r', c')
        {
          assert Complete(response.rows[r'].elements[c']);
        }
      }
    }
  }

  /**
   * After a successful `build_matrix` the frame is indexed by the origin
   * labels, has one column per distinct destination label in first-seen
   * order, and holds at (R, C) the distance of the last cell labelled so.
   */
  lemma BuildMatrixCells(response: RawResponse, originNames: seq<string>, destinationNames: seq<string>,
                         writeToDb: bool, matrix: Option<Frame>, log: seq<Record>)
    requires Build(response, originNames, destinationNames, writeToDb, matrix, log).result.Ok?
    ensures var o := Build(response, originNames, destinationNames, writeToDb, matrix, log);
            var job := Job(response, originNames, destinationNames, writeToDb, response.requestTime.value);
            && Rectangular(response) && o.matrix.Some?
            && o.matrix.value.index == originNames
            && o.matrix.value.columns ==
                 (if response.originAddresses == [] then [] else FirstSeen(destinationNames, |response.destinationAddresses|))
            && forall R, C :: o.matrix.value.At(R, C) == LastWriteCell(job, R, C)
  {
    var start := Start(response, originNames, destinationNames, writeToDb, log);
    var job := Job(response, originNames, destinationNames, writeToDb, response.requestTime.value);
    var nc := NumDestinations(job);
    RunShape(job, start, nc, 0);
    RunCells(job, start, nc, 0);
  }

  /**
   * With distinct labels, the columns are the destination labels in their
   * given order, and the cell of origin r and destination c is the rounded
   * kilometre distance of element (r, c) when its status is OK, and NaN
   * otherwise.
   */
  lemma DistinctLabelsCell(response: RawResponse, originNames: seq<string>, destinationNames: seq<string>,
                           writeToDb: bool, matrix: Option<Frame>, log: seq<Record>, r: nat, c: nat)
    requires Build(response, originNames, destinationNames, writeToDb, matrix, log).result.Ok?
    requires r < |response.originAddresses| && c < |response.destinationAddresses|
    requires forall i, j :: 0 <= i < j < |response.originAddresses| && j < |originNames| ==> originNames[i] != originNames[j]
    requires forall i, j :: 0 <= i < j < |response.destinationAddresses| && j < |destinationNames| ==>
               destinationNames[i] != destinationNames[j]
    ensures var o := Build(response, originNames, destinationNames, writeToDb, matrix, log);
            && Rectangular(response) && r < |originNames| && c < |destinationNames| && o.matrix.Some?
            && o.matrix.value.index == originNames
            && |response.destinationAddresses| <= |destinationNames|
            && o.matrix.value.columns == destinationNames[..|response.destinationAddresses|]
            && var e := response.rows[r].elements[c];
               var cell := o.matrix.value.At(originNames[r], destinationNames[c]);
               && (e.status == "OK" ==> e.distance.Some? && cell.Number? && IsHalfEvenKm(e.distance.value, cell.n))
               && (e.status != "OK" ==> cell == Missing)
  {
    BuildResult(response, originNames, destinationNames, writeToDb, matrix, log);
    BuildMatrixCells(response, originNames, destinationNames, writeToDb, matrix, log);
    var nr, nc := |response.originAddresses|, |response.destinationAddresses|;
    LastIndexOfDistinct(originNames, nr, r);
    LastIndexOfDistinct(destinationNames, nc, c);
    FirstSeenDistinct(destinationNames, nc);
    assert Complete(response.rows[r].elements[c]);
  }

  /**
   * A successful `build_matrix` with a database issues the origin location
   * records, then the destination location records, then one distance
   * record per cell in column-major order; without a database it issues none.
   */
  lemma BuildLog(response: RawResponse, originNames: seq<string>, destinationNames: seq<string>,
                 writeToDb: bool, matrix: Option<Frame>, log: seq<Record>)
    requires Build(response, originNames, destinationNames, writeToDb, matrix, log).result.Ok?
    ensures var o := Build(response, originNames, destinationNames, writeToDb, matrix, log);
            var job := Job(response, originNames, destinationNames, writeToDb, response.requestTime.value);
            && Rectangular(response) && Covered(job)
            && (writeToDb ==> o.log == log + Locations(response, originNames, destinationNames)
                                           + ColumnMajor(job, NumDestinations(job), 0))
            && (!writeToDb ==> o.log == log)
  {
    BuildResult(response, originNames, destinationNames, writeToDb, matrix, log);
    var start := Start(response, originNames, destinationNames, writeToDb, log);
    var job := Job(response, originNames, destinationNames, writeToDb, response.requestTime.value);
    var p := Run(job, start, NumDestinations(job), 0);
    assert Covered(job);
    RunLog(job, start, NumDestinations(job), 0);
    assert Build(response, originNames, destinationNames, writeToDb, matrix, log).log == p.log;
  }


  /** Whatever happens, `build_matrix` only appends records, and none without a database. */
  lemma BuildAppendOnly(response: RawResponse, originNames: seq<string>, destinationNames: seq<string>,
                        writeToDb: bool, matrix: Option<Frame>, log: seq<Record>)
    ensures var o := Build(response, originNames, destinationNames, writeToDb, matrix, log);
            && |log| <= |o.log| && o.log[..|log|] == log
            && (!writeToDb ==> o.log == log)
  {
    if Rectangular(response) && response.requestTime.Some? {
      var start := Start(response, originNames, destinationNames, writeToDb, log);
      var job := Job(response, originNames, destinationNames, writeToDb, response.requestTime.value);
      RunExtendsLog(job, start, NumDestinations(job), 0);
      assert start.log[..|log|] == log;
    }
  }

  // ---------------------------------------------------------------------------
  // The generator object

  /**
   * `DistanceMatrixGenerator`: the sanitised labels, the effective database
   * flag and the parsed response are fixed at construction; `BuildMatrix`
   * replaces the frame field and appends to the log of issued records.
   */
  class DistanceMatrixGenerator {
    const originNames: seq<string>
    const destinationNames: seq<string>
    const writeToDb: bool
    const response: RawResponse
    var matrix: Option<Frame>
    var log: seq<Record>

    constructor (originLabels: seq<Value>, destinationLabels: seq<Value>, writeToDb: bool, response: RawResponse)
      ensures |originNames| == |originLabels|
      ensures forall i :: 0 <= i < |originLabels| ==> originNames[i] == SanitizeLabel(originLabels[i])
      ensures |destinationNames| == |destinationLabels|
      ensures forall i :: 0 <= i < |destinationLabels| ==> destinationNames[i] == SanitizeLabel(destinationLabels[i])
      ensures this.writeToDb == writeToDb && this.response == response
      ensures matrix == None && log == []
    {
      var origins := SanitizeLabels(originLabels);
      var destinations := SanitizeLabels(destinationLabels);
      originNames, destinationNames := origins, destinations;
      this.writeToDb, this.response := writeToDb, response;
      matrix, log := None, [];
    }

    /** `sanitize_labels`: a list of the same length holding each label sanitised. */
    static method SanitizeLabels(labels: seq<Value>) returns (sanitized: seq<string>)
      ensures |sanitized| == |labels|
      ensures forall i :: 0 <= i < |labels| ==> sanitized[i] == SanitizeLabel(labels[i])
    {
      sanitized := seq(|labels|, _ => "Unknown");
      for i := 0 to |labels|
        invariant |sanitized| == |labels|
        invariant forall j :: 0 <= j < i ==> sanitized[j] == SanitizeLabel(labels[j])
      {
        var clean := SanitizeLabel(labels[i]);
        sanitized := sanitized[i := clean];
      }
    }

    /** `insert_locations_if_not_exists`: one location record per zipped pair, failures ignored. */
    method InsertLocationsIfNotExists(names: seq<string>, addresses: seq<string>)
      modifies this`log
      ensures log == old(log) + LocationRecords(names, addresses)
    {
      var pairs := if |names| <= |addresses| then |names| else |addresses|;
      for i := 0 to pairs
        invariant log == old(log) + LocationRecords(names, addresses)[..i]
      {
        log := log + [LocationInsert(names[i], addresses[i])];
      }
    }

    /**
     * `build_matrix`: the frame and the log it leaves behind, and its verdict,
     * are those of `Build`; the lemmas about `Build` say what they hold.
     */
    method BuildMatrix() returns (result: Result<(), BuildError>)
      modifies this`matrix, this`log
      ensures var o := Build(response, originNames, destinationNames, writeToDb, old(matrix), old(log));
              result == o.result && matrix == o.matrix && log == o.log
    {
      ghost var outcome := Build(response, originNames, destinationNames, writeToDb, matrix, log);
      ghost var start := Start(response, originNames, destinationNames, writeToDb, log);
      var valid := ValidateApiResponse(response);
      if valid.Err? {
        return valid;
      }
      matrix := Some(Frame(originNames, [], map[]));
      if writeToDb {
        InsertLocationsIfNotExists(originNames, response.originAddresses);
        InsertLocationsIfNotExists(destinationNames, response.destinationAddresses);
        assert log == old(log) + Locations(response, originNames, destinationNames);
      }
      assert start == Progress(matrix.value, log, None);
      if response.requestTime.None? {
        return Err(MissingField("request_time_iso"));
      }
      var timestamp := response.requestTime.value;
      ghost var job := Job(response, originNames, destinationNames, writeToDb, timestamp);
      assert outcome == var p := Run(job, start, NumDestinations(job), 0);
                        Outcome(if p.failure.None? then Ok(()) else Err(p.failure.value), Some(p.frame), p.log);
      result := FillMatrix(timestamp, job, start);
    }

    /** The outer loop of `build_matrix`: one column per destination, stopping at the first raise. */
    method FillMatrix(timestamp: string, ghost job: Job, ghost start: Progress) returns (result: Result<(), BuildError>)
      requires Rectangular(response)
      requires job == Job(response, originNames, destinationNames, writeToDb, timestamp)
      requires matrix.Some? && start == Progress(matrix.value, log, None)
      modifies this`matrix, this`log
      ensures var p := Run(job, start, |response.destinationAddresses|, 0);
              && matrix == Some(p.frame) && log == p.log
              && result == if p.failure.None? then Ok(()) else Err(p.failure.value)
    {
      for column := 0 to |response.destinationAddresses|
        invariant matrix.Some? && Run(job, start, column, 0) == Progress(matrix.value, log, None)
      {
        result := FillColumn(column, timestamp, job, start);
        if result.Err? {
          return;
        }
      }
      return Ok(());
    }

    /**
     * The inner loop of `build_matrix` for destination `column`: visit every
     * origin in turn, stopping at the first raise.
     */
    method FillColumn(column: nat, timestamp: string, ghost job: Job, ghost start: Progress)
      returns (result: Result<(), BuildError>)
      requires Rectangular(response) && column < |response.destinationAddresses|
      requires job == Job(response, originNames, destinationNames, writeToDb, timestamp)
      requires matrix.Some? && Run(job, start, column, 0) == Progress(matrix.value, log, None)
      modifies this`matrix, this`log
      ensures matrix.Some?
      ensures result.Ok? ==> Run(job, start, column + 1, 0) == Progress(matrix.value, log, None)
      ensures result.Err? ==>
                Run(job, start, |response.destinationAddresses|, 0) == Progress(matrix.value, log, Some(result.error))
    {
      for row := 0 to |response.originAddresses|
        invariant matrix.Some? && Run(job, start, column, row) == Progress(matrix.value, log, None)
      {
        var element := response.rows[row].elements[column];
        var distance := ExtractTravelAttribute(element, "distance");
        if distance.Err? {
          FailureSticks(job, start, column, row + 1);
          return Err(distance.error);
        }
        if row >= |originNames| || column >= |destinationNames| {
          FailureSticks(job, start, column, row + 1);
          return Err(LabelIndexOutOfRange);
        }
        var rowAlias, columnAlias := originNames[row], destinationNames[column];
        matrix := Some(matrix.value.Set(rowAlias, columnAlias, distance.value));
        var duration := ExtractTravelAttribute(element, "duration");
        if duration.Err? {
          FailureSticks(job, start, column, row + 1);
          return Err(duration.error);
        }
        if writeToDb {
          log := log + [DistanceInsert(rowAlias, columnAlias, distance.value, duration.value, timestamp)];
        }
      }
      return Ok(());
    }
  }
}
