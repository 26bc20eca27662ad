/** What an HTTP call made through `requests` gives back. */
module Http {

  datatype Response =
    /** the call raised (connection error, invalid arguments, ...) */
    | Raised
    /** a response arrived with this status code and body text */
    | Answered(status: int, text: string)
}
