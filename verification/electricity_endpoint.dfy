/**
 * The decision made by the `/api/electricity` handler (server.py, `electricity`): the
 * guards on the two query arguments, in order, then the two database lookups, whose
 * results are inputs here.
 */
module ElectricityEndpoint {
  import opened Options
  import opened Digits
  import opened TimestampValidation

  /** A row of `electricity_readings`: its timestamp and `lifetime_power_t1 + lifetime_power_t2`. */
  datatype Reading = Reading(timestamp: string, lifetimePower: real)

  /**
   * The handler's answer. `Found` carries the last reading before the range and the last
   * reading within it, from which the handler computes the energy used.
   */
  datatype Response =
    | BadRequest(message: string)
    | NotFound(message: string)
    | Found(lastBefore: Reading, lastWithin: Reading)

  function StatusCode(r: Response): int {
    match r
    case BadRequest(_) => 400
    case NotFound(_) => 404
    case Found(_, _) => 200
  }

  /** `not request.args.get(name)`: the argument is absent or empty. */
  predicate Missing(arg: Option<string>)
    ensures !Missing(arg) ==> arg.Some? && |arg.value| > 0
  {
    arg.None? || arg.value == ""
  }

  /**
   * The handler's guard chain, earliest check first. `lastBefore` and `lastWithin` are the
   * results of the two queries, which run only once both arguments are validated.
   */
  function Electricity(queryFrom: Option<string>, queryTo: Option<string>,
                       lastBefore: Option<Reading>, lastWithin: Option<Reading>): (r: Response)
    ensures r.BadRequest? <==>
      Missing(queryFrom) || Missing(queryTo)
      || !ValidateTimestamp(queryFrom.value) || !ValidateTimestamp(queryTo.value)
    ensures r.NotFound? <==> !r.BadRequest? && (lastBefore.None? || lastWithin.None?)
    ensures r.Found? ==> r.lastBefore == lastBefore.value && r.lastWithin == lastWithin.value
  {
    if Missing(queryFrom) then BadRequest("Need to specify data range beginning")
    else if Missing(queryTo) then BadRequest("Need to specify data range end")
    else if !ValidateTimestamp(queryFrom.value) || !ValidateTimestamp(queryTo.value) then
      BadRequest("Range specifiers need to be in format YYMMDDHHMMSS")
    else if lastBefore.None? || lastWithin.None? then
      NotFound("No entry found before the range or within the range")
    else Found(lastBefore.value, lastWithin.value)
  }

  /** The HTTP status of each outcome: 400 for a bad argument, then 404 for a missing reading, else 200. */
  lemma ElectricityStatus(queryFrom: Option<string>, queryTo: Option<string>,
                          lastBefore: Option<Reading>, lastWithin: Option<Reading>)
    ensures var code := StatusCode(Electricity(queryFrom, queryTo, lastBefore, lastWithin));
      && (code == 400 <==> (Missing(queryFrom) || Missing(queryTo)
            || !ValidateTimestamp(queryFrom.value) || !ValidateTimestamp(queryTo.value)))
      && (code == 404 <==> code != 400 && (lastBefore.None? || lastWithin.None?))
      && (code == 200 <==> code != 400 && lastBefore.Some? && lastWithin.Some?)
  {
  }

  /** The earliest failing guard decides the message. */
  lemma EarliestGuardWins(queryFrom: Option<string>, queryTo: Option<string>,
                          lastBefore: Option<Reading>, lastWithin: Option<Reading>)
    ensures var r := Electricity(queryFrom, queryTo, lastBefore, lastWithin);
      && (Missing(queryFrom) ==> r == BadRequest("Need to specify data range beginning"))
      && (!Missing(queryFrom) && Missing(queryTo) ==> r == BadRequest("Need to specify data range end"))
      && (!Missing(queryFrom) && !Missing(queryTo)
          && (!ValidateTimestamp(queryFrom.value) || !ValidateTimestamp(queryTo.value))
          ==> r == BadRequest("Range specifiers need to be in format YYMMDDHHMMSS"))
  {
  }

  /**
   * The SQL text built from the arguments is reached only with two arguments of exactly
   * twelve ASCII digits each, and with no dependence on the lookups before that.
   */
  lemma DatabaseReachedOnlyWithDigits(queryFrom: Option<string>, queryTo: Option<string>,
                                      lastBefore: Option<Reading>, lastWithin: Option<Reading>)
    requires !Electricity(queryFrom, queryTo, lastBefore, lastWithin).BadRequest?
    ensures queryFrom.Some? && |queryFrom.value| == 12 && AllDigits(queryFrom.value)
    ensures queryTo.Some? && |queryTo.value| == 12 && AllDigits(queryTo.value)
  {
    ValidateTimestampSpec(queryFrom.value);
    ValidateTimestampSpec(queryTo.value);
  }

  /** A rejected request gets the same answer whatever the database holds. */
  lemma RejectionIgnoresDatabase(queryFrom: Option<string>, queryTo: Option<string>,
                                 lastBefore: Option<Reading>, lastWithin: Option<Reading>,
                                 otherBefore: Option<Reading>, otherWithin: Option<Reading>)
    requires Electricity(queryFrom, queryTo, lastBefore, lastWithin).BadRequest?
    ensures Electricity(queryFrom, queryTo, otherBefore, otherWithin)
      == Electricity(queryFrom, queryTo, lastBefore, lastWithin)
  {
  }
}
