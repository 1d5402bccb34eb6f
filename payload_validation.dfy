/**
 * The request-payload validator of distance_matrix/payload_validation.py:
 * pure predicates that decide whether an origins or destinations argument and
 * the travel options are acceptable, and the function that assembles the
 * request payload or rejects it with the first failing check.
 *
 * Two dependencies are injected: `parse` stands for Python's `float(s)` on a
 * string (Some(x) when it parses), and `now` for the wall clock, in seconds
 * since the epoch.
 */
module PayloadValidation {
  import opened Wrappers
  import opened PyValues
  import opened PyStrings

  /** `float(s)` on a string: Some(x) when `s` parses, None when it raises ValueError. */
  type FloatParser = string -> Option<real>

  /** Allowed departure/arrival times may lie at most this far in the past. */
  const TimeBufferSeconds: real := 240.0   // 4 minutes

  const ValidModes: seq<string> := ["driving", "walking", "bicycling", "transit"]
  const ValidAvoids: seq<string> := ["tolls", "highways", "ferries"]
  const ValidUnits: seq<string> := ["metric", "imperial"]
  const ValidTransitModes: seq<string> := ["bus", "subway", "train", "tram", "rail"]
  const ValidTransitRoutingPreferences: seq<string> := ["less_walking", "fewer_transfers"]
  const ValidTrafficModels: seq<string> := ["best_guess", "optimistic", "pessimistic"]

  /** The optional keyword arguments of the payload builder. */
  datatype TravelOptions = TravelOptions(
    mode: Value, language: Value, avoid: Value, units: Value,
    departureTime: Value, arrivalTime: Value, transitMode: Value,
    transitRoutingPreference: Value, trafficModel: Value, region: Value)

  /** The request payload dictionary, one field per key. */
  datatype Payload = Payload(
    origins: Value, destinations: Value, mode: Value, language: Value,
    avoid: Value, units: Value, departureTime: Value, arrivalTime: Value,
    transitMode: Value, transitRoutingPreference: Value, trafficModel: Value,
    region: Value)

  /** The ValueError raised by the payload builder, by the check that failed. */
  datatype InvalidQuery =
    | InvalidOrigins
    | InvalidDestinations
    | InvalidMode
    | InvalidAvoid
    | InvalidUnits
    | BothTimesSet
    | InvalidDepartureTime
    | InvalidArrivalTime
    | InvalidTransitMode
    | InvalidTransitRoutingPreference
    | InvalidTrafficModel

  /**
   * `convert_str_to_float`: a string that parses becomes a float, anything
   * else (an unparsable string included) comes back unchanged; it never raises.
   */
  function ConvertStrToFloat(value: Value, parse: FloatParser): (r: Value)
    ensures IsNumber(r) <==> IsNumber(value) || (value.Str? && parse(value.s).Some?)
    ensures !IsNumber(r) ==> r == value
    ensures !value.Str? ==> r == value
    ensures value.Str? && parse(value.s).Some? ==> r == Float(parse(value.s).value)
  {
    if value.Str? then
      match parse(value.s)
      case Some(x) => Float(x)
      case None => value
    else
      value
  }

  /** A number, or a string that parses as one. */
  predicate IsNumeric(v: Value, parse: FloatParser) {
    IsNumber(ConvertStrToFloat(v, parse))
  }

  /**
   * `is_valid_coordinate_pair`: every coordinate, after the string-to-float
   * attempt, is an int or a float. The length is not checked here.
   */
  function IsValidCoordinatePair(coordinates: seq<Value>, parse: FloatParser): (ok: bool)
    ensures ok <==> forall i :: 0 <= i < |coordinates| ==>
      IsNumber(coordinates[i]) || (coordinates[i].Str? && parse(coordinates[i].s).Some?)
  {
    if |coordinates| == 0 then true
    else if !IsNumber(ConvertStrToFloat(coordinates[0], parse)) then false
    else IsValidCoordinatePair(coordinates[1..], parse)
  }

  /** `is_valid_coordinate_dict`: both "lat" and "lng" present, each numeric. */
  function IsValidCoordinateDict(entries: map<string, Value>, parse: FloatParser): (ok: bool)
    ensures ok <==> "lat" in entries && "lng" in entries
                    && IsNumeric(entries["lat"], parse) && IsNumeric(entries["lng"], parse)
  {
    if "lat" in entries && "lng" in entries then
      IsValidCoordinatePair([entries["lat"]], parse)
      && IsValidCoordinatePair([entries["lng"]], parse)
    else
      false
  }

  /** Python's `s[:3] == "ChI"`: a place ID written without its `place_id:` prefix. */
  predicate IsBarePlaceId(s: string) {
    |s| >= 3 && s[..3] == "ChI"
  }

  /** `is_valid_data_entry`: one element of an origins or destinations sequence. */
  function IsValidDataEntry(entry: Value, parse: FloatParser): (ok: bool)
    ensures ok ==> entry.Str? || entry.Dict? || entry.List? || entry.Tuple?
    ensures ok && entry.Str? ==> !IsBarePlaceId(entry.s) && Strip(entry.s) != []
    ensures ok && (entry.List? || entry.Tuple?) ==>
              |entry.items| == 2 && IsNumeric(entry.items[0], parse) && IsNumeric(entry.items[1], parse)
  {
    match entry
    case Str(s) =>
      if IsBarePlaceId(s) then false else Strip(s) != []
    case Dict(entries) => IsValidCoordinateDict(entries, parse)
    case List(items) => |items| == 2 && IsValidCoordinatePair(items, parse)
    case Tuple(items) => |items| == 2 && IsValidCoordinatePair(items, parse)
    case _ => false
  }

  /**
   * `is_valid_distance_matrix_query`: a whole origins or destinations argument.
   * A 2-tuple of numerics is one coordinate pair; any other list or tuple must
   * be non-empty with every element a valid entry; a dict must be a coordinate
   * dict; a string must be a valid entry; every other type is rejected.
   */
  function IsValidDistanceMatrixQuery(query: Value, parse: FloatParser): (ok: bool)
    ensures ok ==> query.Str? || query.List? || query.Tuple? || query.Dict?
    ensures ok && (query.List? || query.Tuple?) ==> query.items != []
  {
    match query
    case List(items) =>
      if |items| == 0 then false
      else forall i :: 0 <= i < |items| ==> IsValidDataEntry(items[i], parse)
    case Tuple(items) =>
      if |items| == 2 && IsValidCoordinatePair(items, parse) then true
      else if |items| == 0 then false
      else forall i :: 0 <= i < |items| ==> IsValidDataEntry(items[i], parse)
    case Dict(entries) => IsValidCoordinateDict(entries, parse)
    case Str(_) => IsValidDataEntry(query, parse)
    case _ => false
  }

  /** Seconds since the epoch of an int, float or datetime time value. */
  function Seconds(t: Value): real
    requires t.Int? || t.Float? || t.DateTime?
  {
    match t
    case Int(i) => i as real
    case Float(x) => x
    case DateTime(e) => e
  }

  /**
   * `is_valid_travel_time`: None and "now" are accepted, every other string is
   * rejected, a number or datetime more than four minutes before `now` is
   * rejected, and every other value is accepted.
   */
  function IsValidTravelTime(time: Value, now: real): (ok: bool)
    ensures time.NoneValue? || time == Str("now") ==> ok
    ensures time.Str? && time.s != "now" ==> !ok
    ensures time.Int? || time.Float? || time.DateTime? ==> (ok <==> Seconds(time) >= now - TimeBufferSeconds)
    ensures time.List? || time.Tuple? || time.Dict? || time.Other? ==> ok
  {
    if time.Str? && time.s != "now" then false
    else if time.DateTime? && time.epoch < now - TimeBufferSeconds then false
    else if time.Int? && (time.i as real) < now - TimeBufferSeconds then false
    else if time.Float? && time.x < now - TimeBufferSeconds then false
    else true
  }

  /** `value in [None, *allowed]` for an enumerated option. */
  function IsAllowedOption(value: Value, allowed: seq<string>): (ok: bool)
    ensures ok <==> value == NoneValue || exists i :: 0 <= i < |allowed| && value == Str(allowed[i])
  {
    value.NoneValue? || (value.Str? && value.s in allowed)
  }

  /**
   * The checks of the payload builder, numbered in the order it makes them;
   * check `CheckIndex(e)` is the one whose failure raises `e`.
   */
  predicate Check(i: nat, origins: Value, destinations: Value, options: TravelOptions,
                  parse: FloatParser, now: real)
  {
    if i == 0 then IsValidDistanceMatrixQuery(origins, parse)
    else if i == 1 then IsValidDistanceMatrixQuery(destinations, parse)
    else OptionCheck(i, options, now)
  }

  /** Checks 2 to 10, those on the travel options. */
  predicate OptionCheck(i: nat, options: TravelOptions, now: real) {
    if i == 2 then IsAllowedOption(options.mode, ValidModes)
    else if i == 3 then IsAllowedOption(options.avoid, ValidAvoids)
    else if i == 4 then IsAllowedOption(options.units, ValidUnits)
    else if i == 5 then !(Truthy(options.departureTime) && Truthy(options.arrivalTime))
    else if i == 6 then IsValidTravelTime(options.departureTime, now)
    else if i == 7 then IsValidTravelTime(options.arrivalTime, now)
    else if i == 8 then IsAllowedOption(options.transitMode, ValidTransitModes)
    else if i == 9 then IsAllowedOption(options.transitRoutingPreference, ValidTransitRoutingPreferences)
    else if i == 10 then IsAllowedOption(options.trafficModel, ValidTrafficModels)
    else true
  }

  /** The number of the check whose failure raises `e`. */
  function CheckIndex(e: InvalidQuery): (i: nat)
    ensures i < 11
  {
    match e
    case InvalidOrigins => 0
    case InvalidDestinations => 1
    case InvalidMode => 2
    case InvalidAvoid => 3
    case InvalidUnits => 4
    case BothTimesSet => 5
    case InvalidDepartureTime => 6
    case InvalidArrivalTime => 7
    case InvalidTransitMode => 8
    case InvalidTransitRoutingPreference => 9
    case InvalidTrafficModel => 10
  }

  /**
   * The option checks of the payload builder, in its order: the error of the
   * first one that fails, or None when all hold.
   */
  function FirstInvalidOption(options: TravelOptions, now: real): (e: Option<InvalidQuery>)
    ensures e.None? <==> forall i :: 2 <= i < 11 ==> OptionCheck(i, options, now)
    ensures e.Some? ==> 2 <= CheckIndex(e.value) && !OptionCheck(CheckIndex(e.value), options, now)
    ensures e.Some? ==> forall j :: 2 <= j < CheckIndex(e.value) ==> OptionCheck(j, options, now)
    ensures Truthy(options.departureTime) && Truthy(options.arrivalTime) ==> e.Some?
  {
    if !IsAllowedOption(options.mode, ValidModes) then
      assert !OptionCheck(2, options, now); Some(InvalidMode)
    else if !IsAllowedOption(options.avoid, ValidAvoids) then
      assert !OptionCheck(3, options, now); Some(InvalidAvoid)
    else if !IsAllowedOption(options.units, ValidUnits) then
      assert !OptionCheck(4, options, now); Some(InvalidUnits)
    else if Truthy(options.departureTime) && Truthy(options.arrivalTime) then
      assert !OptionCheck(5, options, now); Some(BothTimesSet)
    else if !IsValidTravelTime(options.departureTime, now) then
      assert !OptionCheck(6, options, now); Some(InvalidDepartureTime)
    else if !IsValidTravelTime(options.arrivalTime, now) then
      assert !OptionCheck(7, options, now); Some(InvalidArrivalTime)
    else if !IsAllowedOption(options.transitMode, ValidTransitModes) then
      assert !OptionCheck(8, options, now); Some(InvalidTransitMode)
    else if !IsAllowedOption(options.transitRoutingPreference, ValidTransitRoutingPreferences) then
      assert !OptionCheck(9, options, now); Some(InvalidTransitRoutingPreference)
    else if !IsAllowedOption(options.trafficModel, ValidTrafficModels) then
      assert !OptionCheck(10, options, now); Some(InvalidTrafficModel)
    else
      None
  }

  /**
   * `prepare_distance_matrix_api_payload`: fails fast with the first check
   * that does not hold; otherwise returns the payload holding the twelve
   * arguments unchanged. Language and region are passed through unchecked.
   */
  function PrepareDistanceMatrixApiPayload(origins: Value, destinations: Value, options: TravelOptions,
                                           parse: FloatParser, now: real): (r: Result<Payload, InvalidQuery>)
    ensures r.Ok? <==> forall i :: 0 <= i < 11 ==> Check(i, origins, destinations, options, parse, now)
    ensures r.Err? ==> !Check(CheckIndex(r.error), origins, destinations, options, parse, now)
    ensures r.Err? ==> forall j :: 0 <= j < CheckIndex(r.error) ==> Check(j, origins, destinations, options, parse, now)
    ensures Truthy(options.departureTime) && Truthy(options.arrivalTime) ==> r.Err?
    ensures r.Ok? ==> r.value == Payload(origins, destinations, options.mode, options.language,
                                         options.avoid, options.units, options.departureTime,
                                         options.arrivalTime, options.transitMode,
                                         options.transitRoutingPreference, options.trafficModel,
                                         options.region)
  {
    if !IsValidDistanceMatrixQuery(origins, parse) then
      assert !Check(0, origins, destinations, options, parse, now); Err(InvalidOrigins)
    else if !IsValidDistanceMatrixQuery(destinations, parse) then
      assert !Check(1, origins, destinations, options, parse, now); Err(InvalidDestinations)
    else
      match FirstInvalidOption(options, now)
      case Some(e) =>
        assert !Check(CheckIndex(e), origins, destinations, options, parse, now); Err(e)
      case None =>
        Ok(Payload(origins, destinations, options.mode, options.language, options.avoid,
                   options.units, options.departureTime, options.arrivalTime, options.transitMode,
                   options.transitRoutingPreference, options.trafficModel, options.region))
  }

  /** The TypeError raised by `convert_data_to_list`. */
  datatype NotConvertible = NotConvertible

  /**
   * `convert_data_to_list`: a list is returned as it is, a tuple becomes a
   * list of the same elements, a string becomes a one-element list, and
   * anything else raises.
   */
  function ConvertDataToList(data: Value): (r: Result<seq<Value>, NotConvertible>)
    ensures r.Ok? <==> data.List? || data.Tuple? || data.Str?
    ensures (data.List? || data.Tuple?) ==> r == Ok(data.items)
    ensures data.Str? ==> r == Ok([data])
  {
    match data
    case List(items) => Ok(items)
    case Tuple(items) => Ok(items)
    case Str(_) => Ok([data])
    case _ => Err(NotConvertible)
  }

  // ---------------------------------------------------------------------------
  // The acceptance rules, stated case by case

  /**
   * A string entry is rejected when it starts with "ChI" (a place ID without
   * its `place_id:` prefix); otherwise it is accepted iff it holds a
   * non-whitespace character.
   */
  lemma StringEntryRule(s: string, parse: FloatParser)
    ensures IsValidDataEntry(Str(s), parse)
            <==> !IsBarePlaceId(s) && exists i :: 0 <= i < |s| && !IsSpace(s[i])
  {
    assert IsValidDataEntry(Str(s), parse) <==> !IsBarePlaceId(s) && Strip(s) != [];
    StripEmptyIffBlank(s);
  }

  /**
   * A list or tuple entry is accepted iff it has exactly two elements and
   * both are numbers or numeric strings.
   */
  lemma PairEntryRule(entry: Value, parse: FloatParser)
    requires entry.List? || entry.Tuple?
    ensures IsValidDataEntry(entry, parse)
            <==> |entry.items| == 2 && IsNumeric(entry.items[0], parse) && IsNumeric(entry.items[1], parse)
  {
  }

  /** A dict entry is accepted iff it is a coordinate dict; a number, None, a datetime or another object never is. */
  lemma OtherEntryRule(entry: Value, parse: FloatParser)
    ensures entry.Dict? ==> (IsValidDataEntry(entry, parse) <==> IsValidCoordinateDict(entry.entries, parse))
    ensures IsNumber(entry) || entry.NoneValue? || entry.DateTime? || entry.Other? ==> !IsValidDataEntry(entry, parse)
  {
  }

  /** A tuple of exactly two numbers or numeric strings is accepted as one coordinate pair. */
  lemma CoordinateTupleAccepted(items: seq<Value>, parse: FloatParser)
    requires |items| == 2 && IsNumeric(items[0], parse) && IsNumeric(items[1], parse)
    ensures IsValidDistanceMatrixQuery(Tuple(items), parse)
  {
  }

  /**
   * A list is accepted iff it is non-empty and every element is a valid
   * entry; so a list holding a bare number is rejected.
   */
  lemma ListQueryRule(items: seq<Value>, parse: FloatParser)
    ensures IsValidDistanceMatrixQuery(List(items), parse)
            <==> items != [] && forall i :: 0 <= i < |items| ==> IsValidDataEntry(items[i], parse)
    ensures (exists i :: 0 <= i < |items| && IsNumber(items[i])) ==> !IsValidDistanceMatrixQuery(List(items), parse)
  {
  }

  /**
   * A tuple that is not a numeric pair is judged like a list: non-empty, every
   * element a valid entry.
   */
  lemma TupleQueryRule(items: seq<Value>, parse: FloatParser)
    requires !(|items| == 2 && IsNumeric(items[0], parse) && IsNumeric(items[1], parse))
    ensures IsValidDistanceMatrixQuery(Tuple(items), parse)
            <==> items != [] && forall i :: 0 <= i < |items| ==> IsValidDataEntry(items[i], parse)
  {
  }

  /**
   * Empty lists and tuples are rejected, a dict is judged as a coordinate
   * dict, a string as a single entry, and every other type is rejected.
   */
  lemma OtherQueryRule(query: Value, parse: FloatParser)
    ensures (query.List? || query.Tuple?) && query.items == [] ==> !IsValidDistanceMatrixQuery(query, parse)
    ensures query.Dict? ==> (IsValidDistanceMatrixQuery(query, parse) <==> IsValidCoordinateDict(query.entries, parse))
    ensures query.Str? ==> (IsValidDistanceMatrixQuery(query, parse) <==> IsValidDataEntry(query, parse))
    ensures !(query.Str? || query.List? || query.Tuple? || query.Dict?) ==> !IsValidDistanceMatrixQuery(query, parse)
  {
  }

  // ---------------------------------------------------------------------------
  // Properties relating several calls

  /**
   * A 2-tuple and a 2-list of the same two numbers are judged differently: the
   * tuple is one coordinate pair, the list is two entries that are not valid
   * entries.
   */
  lemma TupleIsPairButListIsNot(x: Value, y: Value, parse: FloatParser)
    requires IsNumber(x) && IsNumber(y)
    ensures IsValidDistanceMatrixQuery(Tuple([x, y]), parse)
    ensures !IsValidDistanceMatrixQuery(List([x, y]), parse)
  {
    ListQueryRule([x, y], parse);
    assert IsNumber([x, y][0]);
  }

  /** Keys other than "lat" and "lng" never change whether a dict is accepted. */
  lemma ExtraDictKeysIgnored(entries: map<string, Value>, key: string, value: Value, parse: FloatParser)
    requires key != "lat" && key != "lng"
    ensures IsValidDistanceMatrixQuery(Dict(entries[key := value]), parse)
            == IsValidDistanceMatrixQuery(Dict(entries), parse)
  {
  }

  /** A coordinate pair inside a sequence must have exactly two elements. */
  lemma ThreeElementPairRejected(x: Value, y: Value, z: Value, parse: FloatParser)
    ensures !IsValidDataEntry(Tuple([x, y, z]), parse)
    ensures !IsValidDataEntry(List([x, y, z]), parse)
  {
  }

  /**
   * Language and region never decide acceptance: changing them changes only
   * the corresponding payload fields.
   */
  lemma LanguageAndRegionUnchecked(origins: Value, destinations: Value, options: TravelOptions,
                                   language: Value, region: Value, parse: FloatParser, now: real)
    ensures var r := PrepareDistanceMatrixApiPayload(origins, destinations, options, parse, now);
            var r' := PrepareDistanceMatrixApiPayload(origins, destinations,
                        options.(language := language, region := region), parse, now);
            && r.Ok? == r'.Ok?
            && (r.Err? ==> r'.Err? && r.error == r'.error)
            && (r.Ok? ==> r'.value == r.value.(language := language, region := region))
  {
    var options' := options.(language := language, region := region);
    var r := PrepareDistanceMatrixApiPayload(origins, destinations, options, parse, now);
    var r' := PrepareDistanceMatrixApiPayload(origins, destinations, options', parse, now);
    forall i: nat
      ensures Check(i, origins, destinations, options, parse, now)
              == Check(i, origins, destinations, options', parse, now)
    {
    }
    if r.Err? {
      var k, k' := CheckIndex(r.error), CheckIndex(r'.error);
      assert !(k < k') && !(k' < k);
      CheckIndexInjective(r.error, r'.error);
    }
  }

  lemma CheckIndexInjective(e: InvalidQuery, e': InvalidQuery)
    requires CheckIndex(e) == CheckIndex(e')
    ensures e == e'
  {
  }

  /**
   * Every accepted query except a coordinate dict can be turned into a
   * non-empty list; an accepted coordinate dict is refused by the conversion.
   */
  lemma AcceptedQueryConversion(query: Value, parse: FloatParser)
    requires IsValidDistanceMatrixQuery(query, parse)
    ensures ConvertDataToList(query).Ok? <==> !query.Dict?
    ensures ConvertDataToList(query).Ok? ==> |ConvertDataToList(query).value| >= 1
  {
  }
}
