/** Failure-compatible result types shared by the decoder. Every place where the
    Rust decoder panics (slice out of range, unwrap on invalid UTF-8 or on a failed
    number parse, a usize underflow) is an `Err` carrying one of these errors. */
module Wrappers {

  datatype Option<+T> = None | Some(value: T) {
    predicate IsFailure() { None? }
    function PropagateFailure<U>(): Option<U> requires None? { None }
    function Extract(): T requires Some? { value }
  }

  /** Why a decode failed, with the field key or the byte offset of the read that
      failed: the first byte of the field, or of the entry, or, for a group's
      pairs, which are read as one run, the first byte of the run. */
  datatype Error =
    | Truncated(at: nat)          // the buffer ends before the field does
    | InvalidEncoding(at: nat)    // a text field holds a non-ASCII byte
    | MalformedCount(at: nat)     // a count or length field holds a non-digit byte
    | MalformedTlv(at: nat)       // a tagged entry cannot be read, or the extended area is shorter than its overflow field
    | MissingField(key: string)   // a length field the offset resolver needs is absent
    | BadNumber(key: string)      // a length field the offset resolver needs is not a usize

  datatype Result<+T> = Ok(value: T) | Err(error: Error) {
    predicate IsFailure() { Err? }
    function PropagateFailure<U>(): Result<U> requires Err? { Err(error) }
    function Extract(): T requires Ok? { value }
  }

  /** A result without a value, for steps that only update the decoder's state. */
  datatype Outcome = Pass | Fail(error: Error) {
    predicate IsFailure() { Fail? }
    function PropagateFailure(): Outcome requires Fail? { this }
  }
}
