/**
  What a test binary says about its tests (unix/e2e/src/libtest.rs): read by `Libtest`,
  acted on by `Attribution`.
*/
module TestEvents {

  type Name = string

  datatype Outcome = Ok | Failed | Ignored
  datatype Summary = Summary(passed: nat, failed: nat, ignored: nat, filteredOut: nat)
  datatype Event =
    | Started(name: Name)
    | Finished(name: Name, outcome: Outcome)
    | Tally(summary: Summary)
}
