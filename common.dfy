/** Value types shared by every component of the order service. */
module Common {

  /** The identifier of a stored order. The source uses Long in some files and
      String in others; the model uses one type, assigned by the store. */
  type Id = nat

  /** BigDecimal amounts are exact decimals, modelled as reals. */
  type Money = real

  /** LocalDateTime values, passed in by the caller instead of read from a clock. */
  type Timestamp = int

  datatype Option<+T> = None | Some(value: T)

  /** The exceptions of the service, one variant per exception class. */
  datatype Error =
    | DomainError(message: string)    // DomainException
    | BusinessError(message: string)  // BusinessException
    | NotFoundError(message: string)  // NotFoundException
    | DatabaseError(message: string)  // DatabaseException

  /** A value or the exception that was thrown instead. */
  datatype Result<+T> = Ok(value: T) | Err(error: Error)

  /** The outcome of an operation that returns nothing (a Java void method). */
  datatype Outcome = Pass | Fail(error: Error)

  function DigitChar(d: nat): (c: char)
    requires d < 10
    ensures '0' <= c <= '9'
  {
    "0123456789"[d]
  }

  /** Decimal text of an identifier, as Java's string concatenation renders a Long. */
  function IdText(n: Id): (s: string)
    ensures 1 <= |s|
    ensures forall i :: 0 <= i < |s| ==> '0' <= s[i] <= '9'
    ensures n < 10 <==> |s| == 1
  {
    if n < 10 then [DigitChar(n)] else IdText(n / 10) + [DigitChar(n % 10)]
  }

  /** Blank in the sense of jakarta's @NotBlank: nothing is left after String.trim(),
      which strips every character up to and including the space character. */
  predicate IsBlank(s: string) {
    forall i :: 0 <= i < |s| ==> s[i] <= ' '
  }
}
