/**
 * The `IStorage` interface over the two backends. The backend is an explicit
 * parameter rather than chosen from the environment. Of the database
 * backend only its guard is kept: every operation on a database that has no
 * connection throws "Database not initialized".
 */
module Storage {
  import opened Wrappers
  import opened Schema
  import opened Exceptions
  import M = MemStorage

  datatype Backend = Memory(store: M.MemStore) | UninitializedDatabase

  const NotInitialized: Thrown := Error("Database not initialized")

  function GetEvents(b: Backend): Result<seq<Event>, Thrown> {
    match b
    case Memory(s) => Success(M.GetEvents(s))
    case UninitializedDatabase => Failure(NotInitialized)
  }

  /**
   * `getEvent(id)` where `id` is a JavaScript number: None stands for NaN
   * and every non-integer, which equal no key.
   */
  function GetEvent(b: Backend, id: Option<int>): Result<Option<Event>, Thrown> {
    match b
    case Memory(s) => Success(if id.Some? then M.GetEvent(s, id.value) else None)
    case UninitializedDatabase => Failure(NotInitialized)
  }

  function GetTeamMembers(b: Backend): Result<seq<TeamMember>, Thrown> {
    match b
    case Memory(s) => Success(M.GetTeamMembers(s))
    case UninitializedDatabase => Failure(NotInitialized)
  }

  /** A create call through the interface: the backend after the insert, or the throw. */
  function Perform(b: Backend, op: M.Op): Result<Backend, Thrown> {
    match b
    case Memory(s) => Success(Memory(M.Apply(s, op)))
    case UninitializedDatabase => Failure(NotInitialized)
  }

  /** The calls awaited one after another; the first throw ends the sequence. */
  function PerformAll(b: Backend, ops: seq<M.Op>): (r: Result<Backend, Thrown>)
    ensures b.Memory? ==> r == Success(Memory(M.Run(b.store, ops)))
    ensures b.UninitializedDatabase? ==> r == (if |ops| == 0 then Success(b) else Failure(NotInitialized))
    decreases |ops|
  {
    if |ops| == 0 then Success(b)
    else
      var b1 :- Perform(b, ops[0]);
      PerformAll(b1, ops[1..])
  }
}
