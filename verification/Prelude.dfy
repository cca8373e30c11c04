/** Failure-carrying datatypes, machine-integer ranges and the text check shared by every model. */
module Prelude {

  datatype Option<+T> = None | Some(value: T)

  /** An operation's value or the error that aborted it; `:-` propagates the error. */
  datatype Result<+T, +E> = Ok(value: T) | Err(error: E)
  {
    predicate IsFailure() {
      Err?
    }

    function PropagateFailure<U>(): Result<U, E>
      requires Err?
    {
      Err(error)
    }

    function Extract(): T
      requires Ok?
    {
      value
    }
  }

  type u32 = n: int | 0 <= n <= 0xFFFF_FFFF
  type u64 = n: int | 0 <= n <= 0xFFFF_FFFF_FFFF_FFFF

  const U32_MAX: u32 := 0xFFFF_FFFF
  const U64_MAX: u64 := 0xFFFF_FFFF_FFFF_FFFF

  /** No control character. Text is UTF-8 bytes, so besides the ASCII ones these are U+0080 to U+009F,
      which are 0xC2 followed by a byte up to 0x9F. */
  predicate NoControls(text: string) {
    forall i :: 0 <= i < |text| ==>
      && ' ' <= text[i] && text[i] as int != 0x7F
      && !(i > 0 && text[i - 1] as int == 0xC2 && 0x80 <= text[i] as int <= 0x9F)
  }
}
