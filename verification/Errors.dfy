/** Error values of the runner: a coded error with what its clean-up added, or an uncoded exception. */
module Errors {

  datatype Option<+T> = None | Some(value: T)

  datatype Code =
    | E_STORAGE | E_STORAGE_AUTH | E_INTEGRITY | E_OWNER_CONFLICT | E_CONFIG | E_SECRETS | E_STATE | E_LOCKED
    | E_GALERA | E_PROXYSQL | E_WRITER | E_FLOW_CONTROL | E_METRICS | E_SUBPROCESS | E_RESTORE_CONFIRM | E_CIFS_MODULE

  /** `notes` counts the clean-up reports that were folded into the message. */
  datatype Failure = Coded(code: Code, notes: nat) | Uncoded

  datatype Result<+T> = Ok(value: T) | Err(failure: Failure) {
    predicate IsFailure() { Err? }
    function PropagateFailure<U>(): Result<U> requires Err? { Err(failure) }
    function Extract(): T requires Ok? { value }
  }

  /** The code an exception leaves the runner with. */
  function CodeOf(f: Failure, default: Code): Code {
    if f.Coded? then f.code else default
  }

  function NotesOf(f: Failure): nat {
    if f.Coded? then f.notes else 0
  }

  /** errors.py `combine_failures`: the first failure keeps its code, the second becomes a note on it. */
  function Combine(primary: Failure, cleanup: Failure, default: Code): Failure {
    Coded(CodeOf(primary, default), NotesOf(primary) + 1)
  }

  /** An error after a whole clean-up: every failure of it, in turn, combined with what was there. */
  function Folded(primary: Failure, cleanups: seq<Failure>, default: Code): Failure
    decreases |cleanups|
  {
    if cleanups == [] then primary else Folded(Combine(primary, cleanups[0], default), cleanups[1..], default)
  }

  /** Whatever fails in the clean-up, a coded error leaves with its code and with one more note for each report, an uncoded
      one under the default code; it is the original error only if nothing failed. */
  lemma {:induction false} CleanUpKeepsCode(primary: Failure, cleanups: seq<Failure>, default: Code)
    ensures var f, n := Folded(primary, cleanups, default), |cleanups|;
      if n == 0 then f == primary
      else match primary
           case Coded(code, notes) => f == Coded(code, notes + n)
           case Uncoded => f == Coded(default, n)
    decreases |cleanups|
  {
    if cleanups != [] { CleanUpKeepsCode(Combine(primary, cleanups[0], default), cleanups[1..], default); }
  }
}
