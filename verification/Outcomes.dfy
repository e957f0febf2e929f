/** Exceptions as values.

    Every call the controller makes into code it does not own answers with a
    `Reply`; everything the controller itself returns or raises is an `Outcome`.
    Keeping the two exception types apart means that no injected gate can
    masquerade as one of the controller's own refusals. */
module Outcomes {

  datatype Option<+T> = None | Some(value: T)

  /** What code outside the controller can raise. */
  datatype Foreign =
    | HandoffFailure           // CandidateHandoffFailure
    | Timeout                  // TimeoutError
    | ForeignValueError        // ValueError or a subclass, such as UnicodeDecodeError
    | ImportFailure            // ImportError
    | ForeignError(name: string) // any other subclass of Exception
    | Interrupt                // a BaseException that is not an Exception

  /** Where the controller itself raises a plain ValueError. */
  datatype ValueErrorSite =
    | MissingTargetPath | EmptyOutputPaths | EmptyRunId | UnpairedFitness
    | MissingParent | MissingBase | GitCommandFailed | BadMaxCandidates | BadMaxFailures

  datatype Exn =
    | External(cause: Foreign)
    | ValueError(site: ValueErrorSite)
    | CandidateRunFailed(handoffPath: string, handoffSha: string, exitCode: int)
    | MultiParentLineage(parents: seq<string>)
    | PriorLineageConflict(sha: nat)
    | ContractDrift            // BathosMcpToolError: "failed" with exit code 0
    | SidecarHashMismatch
    | StatsGateInput
    | SeedGateInput
    | CommitCreation
    | RefUpdateConflict
    | ResetWithoutRef          // RatchetCrashAtomicityError: no ref to reset to
    | ResetFailed              // RatchetCrashAtomicityError: git reset failed

  datatype Reply<+T> = Got(value: T) | Raises(cause: Foreign)

  datatype Outcome<+T> = Ok(value: T) | Raise(exn: Exn)

  /** `isinstance(e, ValueError)`. */
  predicate IsValueError(e: Exn) {
    e.ValueError? || e == External(ForeignValueError)
  }

  /** `isinstance(e, Exception)`: only interpreter-level interrupts are not. */
  predicate IsException(e: Exn) {
    e != External(Interrupt)
  }
}
