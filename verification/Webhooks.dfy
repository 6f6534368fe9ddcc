/**
 Deliveries to one outbound webhook (apps/api/delivery.py): each is a chain of attempts, and
 a streak of given-up deliveries switches the endpoint off.  A run reads the endpoint, calls
 out, and records what came of it later, so other runs and edits land in between.
 */
module Webhooks {
  import opened Queue

  /** The first try and one retry per rung of the backoff schedule. */
  const BACKOFF_SCHEDULE: seq<nat> := [30, 120, 600, 3600, 21600]
  const MAX_DELIVERY_ATTEMPTS: nat := 1 + |BACKOFF_SCHEDULE|

  datatype Endpoint = Endpoint(enabled: bool, failures: nat)

  datatype Stage = Waiting | InFlight | Over

  /** A queue row of one delivery. */
  datatype Job = Job(delivery: nat, attempt: nat, stage: Stage)

  /** What the receiver answered: accepted, failed, or an address that is refused outright. */
  datatype Answer = Accepted | Refused | Blocked

  /** What has been committed, in order. `SwitchedOff` is the automatic disable and its notification. */
  datatype Entry =
    | Attempted(delivery: nat, number: nat, answer: Answer)
    | Succeeded(delivery: nat)
    | GaveUp(delivery: nat)
    | Dropped(delivery: nat)
    | Lost(delivery: nat)
    | SwitchedOff
    | SwitchedOn
    | Cleared

  /** `copies` are the endpoint's `enabled` as read by the edits in progress. */
  datatype World = World(
    endpoint: Option<Endpoint>, limit: nat, jobs: seq<Job>, history: seq<Entry>, copies: map<nat, bool>, born: nat)

  // ------------------------------------------------------------------ the streak

  /** `record_success`. */
  function Reset(endpoint: Endpoint): Endpoint {
    endpoint.(failures := 0)
  }

  /** Whether one more failure switches the endpoint off. */
  predicate Trips(endpoint: Endpoint, limit: nat) {
    endpoint.failures + 1 >= limit && endpoint.enabled
  }

  /** `record_failure`. */
  function Failed(endpoint: Endpoint, limit: nat): Endpoint {
    Endpoint(endpoint.enabled && !Trips(endpoint, limit), endpoint.failures + 1)
  }

  /** `update_webhook`, given the copy the caller read. */
  function Edited(endpoint: Endpoint, copy: bool, enabled: bool): Endpoint {
    Endpoint(enabled, if enabled && !copy then 0 else endpoint.failures)
  }

  // ------------------------------------------------------------------ steps

  datatype Step =
    | Emit
    | Start(job: nat)
    | Finish(job: nat, answer: Answer)
    | Requeue(job: nat)        // the run died or was rolled back
    | Abandon(job: nat)        // the queue gave the row up
    | OpenEdit(edit: nat)
    | SaveEdit(edit: nat, enabled: bool)
    | Delete

  predicate Enabled(w: World, step: Step) {
    match step
    case Emit => w.endpoint.Some? && w.endpoint.value.enabled
    case Start(j) => j < |w.jobs| && w.jobs[j].stage.Waiting?
    case Finish(j, _) => j < |w.jobs| && w.jobs[j].stage.InFlight?
    case Requeue(j) => j < |w.jobs| && w.jobs[j].stage.InFlight?
    case Abandon(j) => j < |w.jobs| && w.jobs[j].stage.InFlight?
    case OpenEdit(e) => w.endpoint.Some? && e !in w.copies
    case SaveEdit(e, _) => e in w.copies
    case Delete => w.endpoint.Some?
  }

  function Staged(w: World, j: nat, stage: Stage): World
    requires j < |w.jobs|
  {
    w.(jobs := w.jobs[j := w.jobs[j].(stage := stage)])
  }

  function Wrote(w: World, entries: seq<Entry>): World {
    w.(history := w.history + entries)
  }

  /** `handle_webhook_delivery` from the endpoint's answer on. A run against a deleted endpoint cannot save its attempt. */
  function Answered(w: World, j: nat, answer: Answer): World
    requires j < |w.jobs|
  {
    var job := w.jobs[j];
    var attempt := Attempted(job.delivery, job.attempt, answer);
    if w.endpoint.None? then Staged(w, j, Waiting)
    else if answer.Accepted? then
      Wrote(Staged(w, j, Over), [attempt, Succeeded(job.delivery)]).(endpoint := Some(Reset(w.endpoint.value)))
    else if answer.Refused? && job.attempt < MAX_DELIVERY_ATTEMPTS then
      var v := Wrote(Staged(w, j, Over), [attempt]);
      v.(jobs := v.jobs + [Job(job.delivery, job.attempt + 1, Waiting)])
    else
      var e := w.endpoint.value;
      Wrote(Staged(w, j, Over), [attempt, GaveUp(job.delivery)] + if Trips(e, w.limit) then [SwitchedOff] else [])
      .(endpoint := Some(Failed(e, w.limit)))
  }

  function Saved(w: World, edit: nat, enabled: bool): World
    requires edit in w.copies
  {
    var v := w.(copies := w.copies - {edit});
    if w.endpoint.None? then v
    else
      var e := w.endpoint.value;
      Wrote(v, (if enabled && !w.copies[edit] then [Cleared] else []) + (if enabled && !e.enabled then [SwitchedOn] else []))
      .(endpoint := Some(Edited(e, w.copies[edit], enabled)))
  }

  function Next(w: World, step: Step): World {
    if !Enabled(w, step) then w
    else
    match step
    case Emit => w.(jobs := w.jobs + [Job(w.born, 1, Waiting)], born := w.born + 1)
    case Start(j) =>
      if w.endpoint.Some? && w.endpoint.value.enabled then Staged(w, j, InFlight)
      else Wrote(Staged(w, j, Over), [Dropped(w.jobs[j].delivery)])
    case Finish(j, answer) => Answered(w, j, answer)
    case Requeue(j) => Staged(w, j, Waiting)
    case Abandon(j) => Wrote(Staged(w, j, Over), [Lost(w.jobs[j].delivery)])
    case OpenEdit(e) => w.(copies := w.copies[e := w.endpoint.value.enabled])
    case SaveEdit(e, enabled) => Saved(w, e, enabled)
    case Delete => w.(endpoint := None)
  }

  ghost predicate Legal(w: World, steps: seq<Step>)
    decreases |steps|
  {
    steps == [] || (Legal(w, steps[..|steps| - 1]) && Enabled(Exec(w, steps[..|steps| - 1]), steps[|steps| - 1]))
  }

  function Exec(w: World, steps: seq<Step>): World
    decreases |steps|
  {
    if steps == [] then w else Next(Exec(w, steps[..|steps| - 1]), steps[|steps| - 1])
  }

  function Created(limit: nat): World {
    World(Some(Endpoint(true, 0)), limit, [], [], map[], 0)
  }

  // ------------------------------------------------------------------ what the history says

  /** Deliveries given up since the last success or the last edit that cleared the count. */
  function Streak(history: seq<Entry>): nat {
    if history == [] then 0
    else
      var front, last := history[..|history| - 1], history[|history| - 1];
      match last
      case Succeeded(_) => 0
      case Cleared => 0
      case GaveUp(_) => Streak(front) + 1
      case _ => Streak(front)
  }

  /** One delivery's story: the numbers of its attempts, the last answer, and how it ended, each time it did. */
  datatype Chain = Chain(attempts: seq<nat>, last: Option<Answer>, endings: seq<Entry>)

  predicate Ends(entry: Entry, delivery: nat) {
    (entry.Succeeded? || entry.GaveUp? || entry.Dropped? || entry.Lost?) && entry.delivery == delivery
  }

  function Extended(chain: Chain, entry: Entry, delivery: nat): Chain {
    if entry.Attempted? && entry.delivery == delivery then
      chain.(attempts := chain.attempts + [entry.number], last := Some(entry.answer))
    else if Ends(entry, delivery) then chain.(endings := chain.endings + [entry])
    else chain
  }

  function ChainOf(history: seq<Entry>, delivery: nat): Chain {
    if history == [] then Chain([], None, [])
    else Extended(ChainOf(history[..|history| - 1], delivery), history[|history| - 1], delivery)
  }
}
