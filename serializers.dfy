/** The two input checks of the trip-creation request: a location's
    `[longitude, latitude]` pair and the driver's used cycle hours. Each either
    rejects its value with a message or hands it back unchanged. */
module Serializers {

  datatype Result<T> = Success(value: T) | Failure(error: string)

  const CoordsShapeError := "Coordinates must be [longitude, latitude]"
  const LongitudeError := "Longitude must be between -180 and 180"
  const LatitudeError := "Latitude must be between -90 and 90"
  const CycleError := "Current cycle cannot exceed 70 hours"

  /** The most cycle hours a driver may report as already used. */
  const MaxCycleUsed: real := 70.0

  /** A longitude on the closed range [-180, 180]. */
  predicate LongitudeInRange(longitude: real) {
    -180.0 <= longitude <= 180.0
  }

  /** A latitude on the closed range [-90, 90]. */
  predicate LatitudeInRange(latitude: real) {
    -90.0 <= latitude <= 90.0
  }

  /** The coordinate check: the length first, then the longitude, then the latitude.
      The pair is accepted exactly when it has two members with both in range, and
      an accepted pair is returned as it came; a rejection names the first check
      that failed. */
  function ValidateCoords(value: seq<real>): (r: Result<seq<real>>)
    ensures r.Success? <==> |value| == 2 && LongitudeInRange(value[0]) && LatitudeInRange(value[1])
    ensures r.Success? ==> r.value == value
    ensures |value| != 2 ==> r == Failure(CoordsShapeError)
    ensures |value| == 2 && !LongitudeInRange(value[0]) ==> r == Failure(LongitudeError)
    ensures |value| == 2 && LongitudeInRange(value[0]) && !LatitudeInRange(value[1]) ==> r == Failure(LatitudeError)
  {
    if |value| != 2 then Failure(CoordsShapeError)
    else
      var longitude, latitude := value[0], value[1];
      if !LongitudeInRange(longitude) then Failure(LongitudeError)
      else if !LatitudeInRange(latitude) then Failure(LatitudeError)
      else Success(value)
  }

  /** The cycle-hours check: anything up to and including 70 is returned as it
      came, anything above is rejected. */
  function ValidateCurrentCycleUsed(value: real): (r: Result<real>)
    ensures r.Success? <==> value <= MaxCycleUsed
    ensures r.Success? ==> r.value == value
    ensures r.Failure? ==> r.error == CycleError
  {
    if value > MaxCycleUsed then Failure(CycleError) else Success(value)
  }

  /** The corners of the coordinate box are accepted: the bounds are inclusive. */
  lemma CoordBoundsAccepted(longitude: real, latitude: real)
    requires longitude == -180.0 || longitude == 180.0
    requires latitude == -90.0 || latitude == 90.0
    ensures ValidateCoords([longitude, latitude]) == Success([longitude, latitude])
  {
  }

  /** When both members of a pair are out of range, the longitude is reported. */
  lemma LongitudeReportedFirst(longitude: real, latitude: real)
    requires !LongitudeInRange(longitude) && !LatitudeInRange(latitude)
    ensures ValidateCoords([longitude, latitude]) == Failure(LongitudeError)
  {
  }

  /** Exactly 70 hours is accepted and anything above is not. */
  lemma CycleCapInclusive(value: real)
    ensures ValidateCurrentCycleUsed(MaxCycleUsed) == Success(MaxCycleUsed)
    ensures value > MaxCycleUsed ==> ValidateCurrentCycleUsed(value) == Failure(CycleError)
  {
  }
}
