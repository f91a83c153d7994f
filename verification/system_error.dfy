/** `boost::system::error_code` as far as the rendezvous observes it: an
    integer value with a category, tested for failure through its boolean
    conversion, which looks only at the value. */
module SystemError {

  datatype ErrorCode = ErrorCode(value: int, category: string)

  /** A default-constructed `error_code`: value 0 in the system category. */
  const Success: ErrorCode := ErrorCode(0, "system")

  /** `if (ec)`: an error code is a failure exactly when its value is non-zero,
      whatever its category. */
  predicate Failed(ec: ErrorCode) {
    ec.value != 0
  }
}
