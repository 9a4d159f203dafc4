/** What the sniff hands to its host: diagnostics (the error list of the
    file) and the fixer's edit calls, recorded as values in call order. */
module Fixer {

  /** The sniff's error codes. */
  datatype DiagCode =
    | NoNamespace
    | ExcludeRedundantFQN
    | RedundantFQN
    | ImportFQN
    | Import
    | ExcludeImported

  /** One addFixableError call: its code and the token it is reported at. */
  datatype Diagnostic = Diagnostic(code: DiagCode, ptr: nat)

  /** One fixer call. */
  datatype Edit =
    | BeginChangeset
    | EndChangeset
    | ReplaceToken(ptr: nat, text: string)
    | AddContent(ptr: nat, text: string)
    | AddNewline(ptr: nat)
}
