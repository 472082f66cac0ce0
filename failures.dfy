/** The exceptions the program raises, as values, and the result of a step
    that may raise one of them. */
module Failures {

  import opened Json
  import opened Calendar

  datatype Error =
    /** `load_api_key`: no key on the command line or in the environment. */
    | MissingApiKey
    /** `validate_currency`: the upper-cased code is not three letters A-Z. */
    | InvalidCurrencyFormat(code: string)
    /** `validate_currency`: well-formed but not in the allowed set; carries
        the allowed codes in the ascending order the message lists them. */
    | UnknownCurrency(code: string, allowed: seq<string>)
    /** `validate_currency`: the allowed set holds a value that is not a
        string, so `sorted`/`join` raise `TypeError` while the unknown-code
        message is being built. */
    | UnlistableAllowedSet(code: string)
    /** `parse_date`: not a date in the `YYYY-MM-DD` pattern. */
    | InvalidDate
    /** `check_range`: a real date outside the dataset window. */
    | DateOutOfRange(date: Date)
    /** `requests.post` raised: no HTTP response at all. */
    | RequestFailed
    /** `raise_for_status`: a 4xx or 5xx status. */
    | BadStatus(status: int)
    /** `resp.json()`: the body is not JSON. */
    | UndecodableBody
    /** `payload.get`: the JSON document is not an object. */
    | PayloadNotObject
    /** The service reported an error; carries its `error` field. */
    | ApiError(detail: Json)
    /** `data` is missing or is not an object. */
    | MissingData

  /** A step's value, or the exception it raised. */
  datatype Result<+T> = Success(value: T) | Failure(error: Error)
}
