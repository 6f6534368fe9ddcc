/** The parts of the database queue that the handlers rely on (apps/queueing). */
module Queue {

  datatype Option<+T> = None | Some(value: T)

  /** The five states of a queue row. */
  datatype ActionStatus = Pending | Running | Done | Failed | Cancelled
  {
    /** A worker may still start or finish this row. */
    predicate Alive() {
      Pending? || Running?
    }

    /** Work that has not demonstrably happened: a failed row is owed too. */
    predicate Owed() {
      Pending? || Running? || Failed?
    }
  }

  /** One queue row. `target` is the row id a payload carries, where it carries one. */
  datatype Action = Action(status: ActionStatus, runAt: real, target: nat)

  /** `schedule` with a key: insert, or hand back whatever row holds the key, finished or not. */
  function Enqueue<K>(queue: map<K, Action>, key: K, runAt: real, target: nat): map<K, Action> {
    if key in queue then queue else queue[key := Action(ActionStatus.Pending, runAt, target)]
  }

  /** Move one row to another status. */
  function Mark<K>(queue: map<K, Action>, key: K, status: ActionStatus): map<K, Action>
    requires key in queue
  {
    queue[key := queue[key].(status := status)]
  }
}
