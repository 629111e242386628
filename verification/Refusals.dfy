/** The refusals of the entrypoint, one for each exit code; messages are not modelled. */
module Refusals {

  datatype Code =
    | ConfigError     // 10
    | SecretError     // 11
    | StateExists     // 20
    | StateAbsent     // 21
    | Downgrade       // 22
    | DBCheckFailed   // 23
    | RuntimeFailure  // 30

  datatype Outcome = Proceed | Refuse(code: Code)
}
