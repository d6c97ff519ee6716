/** Result types shared by the model: a C argument that may be NULL, and a
    C status code that is 0 on success and carries a value only then. */
module Outcomes {

  /** A value that may be absent; `None` stands for NULL. */
  datatype Option<+T> = None | Some(value: T)

  /** The outcome of a C routine that returns `int status`: `Ok` is status 0
      together with what the routine wrote through its out-parameters,
      `Fail(code)` is a non-zero status. */
  datatype Outcome<+T> = Ok(value: T) | Fail(code: nat) {

    /** The integer status the C routine returns. */
    function Status(): nat {
      if Ok? then 0 else code
    }
  }
}
