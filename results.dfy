/** Validation failures as the engine reports them and the test helpers inspect them. */
module Results {
  import opened Wrappers

  datatype Severity = Error | Warning | Info

  /**
   * One reported failure. `propertyName` is `None` where the source's string is null;
   * `customState` is the text its `ToString()` gives, `None` when the state is null.
   */
  datatype ValidationFailure = ValidationFailure(
    propertyName: Option<string>,
    errorMessage: string,
    errorCode: string,
    severity: Severity,
    customState: Option<string>)

  /** The text of `Severity.ToString()`. */
  function SeverityName(s: Severity): string
  {
    match s
    case Error => "Error"
    case Warning => "Warning"
    case Info => "Info"
  }

  /** The text a failure's property name contributes to an interpolated string (null gives ""). */
  function NameText(f: ValidationFailure): string
  {
    if f.propertyName.Some? then f.propertyName.value else ""
  }

}
