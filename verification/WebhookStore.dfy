/** The delivery handler and its accounting as they run, one write at a time. */
module WebhookStore {
  import opened Queue
  import opened Webhooks

  class Desk {
    var endpoint: Option<Endpoint>
    var limit: nat
    var jobs: seq<Job>
    var history: seq<Entry>
    var copies: map<nat, bool>
    var born: nat

    ghost function Now(): World
      reads this
    {
      World(endpoint, limit, jobs, history, copies, born)
    }

    constructor (limit: nat)
      ensures Now() == Created(limit)
    {
      this.limit, born := limit, 0;
      endpoint, jobs, history, copies := Some(Endpoint(true, 0)), [], [], map[];
    }

    /** `enqueue_delivery`: no key, always a new row. */
    method Enqueue(delivery: nat, attempt: nat)
      modifies this`jobs
      ensures jobs == old(jobs) + [Job(delivery, attempt, Waiting)]
    {
      jobs := jobs + [Job(delivery, attempt, Waiting)];
    }

    /** `record_success`. */
    method RecordSuccess(delivery: nat)
      requires endpoint.Some?
      modifies this`endpoint, this`history
      ensures endpoint == Some(Endpoint(old(endpoint.value.enabled), 0))
      ensures history == old(history) + [Succeeded(delivery)]
    {
      endpoint := Some(endpoint.value.(failures := 0));
      history := history + [Succeeded(delivery)];
    }

    /** `record_failure`: reread under the lock, count, disable and notify on the transition only. */
    method RecordFailure(delivery: nat) returns (disable: bool)
      requires endpoint.Some?
      modifies this`endpoint, this`history
      ensures disable <==> old(endpoint.value.enabled) && old(endpoint.value.failures) + 1 >= limit
      ensures endpoint == Some(Endpoint(old(endpoint.value.enabled) && !disable, old(endpoint.value.failures) + 1))
      ensures history == old(history) + [GaveUp(delivery)] + if disable then [SwitchedOff] else []
    {
      var locked := endpoint.value;
      var failures := locked.failures + 1;
      disable := failures >= limit && locked.enabled;
      locked := locked.(failures := failures);
      if disable { locked := locked.(enabled := false); }
      endpoint := Some(locked);
      history := history + [GaveUp(delivery)];
      if disable { history := history + [SwitchedOff]; }
    }

    /** `handle_webhook_delivery` up to the call: a missing or disabled endpoint drops the delivery. */
    method StartRun(j: nat)
      requires Enabled(Now(), Start(j))
      modifies this`jobs, this`history
      ensures Now() == Next(old(Now()), Start(j))
      ensures var job := old(jobs)[j];
              if endpoint.Some? && endpoint.value.enabled then
                jobs == old(jobs)[j := Job(job.delivery, job.attempt, InFlight)] && history == old(history)
              else
                jobs == old(jobs)[j := Job(job.delivery, job.attempt, Over)] && history == old(history) + [Dropped(job.delivery)]
    {
      if endpoint.None? || !endpoint.value.enabled {
        history := history + [Dropped(jobs[j].delivery)];
        jobs := jobs[j := jobs[j].(stage := Over)];
      } else {
        jobs := jobs[j := jobs[j].(stage := InFlight)];
      }
    }

    /** The rest of it, once the receiver has answered. */
    method FinishRun(j: nat, answer: Answer)
      requires Enabled(Now(), Finish(j, answer))
      modifies this`jobs, this`history, this`endpoint
      ensures Now() == Next(old(Now()), Finish(j, answer))
      ensures var job, was := old(jobs)[j], old(endpoint);
              var over := old(jobs)[j := Job(job.delivery, job.attempt, Over)];
              var attempt := Attempted(job.delivery, job.attempt, answer);
              if was.None? then
                jobs == old(jobs)[j := Job(job.delivery, job.attempt, Waiting)] && history == old(history) && endpoint == was
              else if answer.Accepted? then
                && jobs == over && history == old(history) + [attempt, Succeeded(job.delivery)]
                && endpoint == Some(Endpoint(was.value.enabled, 0))
              else if answer.Refused? && job.attempt < 6 then
                && jobs == over + [Job(job.delivery, job.attempt + 1, Waiting)] && history == old(history) + [attempt]
                && endpoint == was
              else
                var off := was.value.enabled && was.value.failures + 1 >= limit;
                && jobs == over && endpoint == Some(Endpoint(was.value.enabled && !off, was.value.failures + 1))
                && history == old(history) + ([attempt, GaveUp(job.delivery)] + if off then [SwitchedOff] else [])
    {
      var job := jobs[j];
      if endpoint.None? {
        jobs := jobs[j := job.(stage := Waiting)];
        return;
      }
      history := history + [Attempted(job.delivery, job.attempt, answer)];
      jobs := jobs[j := job.(stage := Over)];
      if answer.Accepted? {
        RecordSuccess(job.delivery);
        assert history == old(history) + [Attempted(job.delivery, job.attempt, answer), Succeeded(job.delivery)];
        return;
      }
      var retriable := !answer.Blocked? && job.attempt < MAX_DELIVERY_ATTEMPTS;
      if retriable {
        Enqueue(job.delivery, job.attempt + 1);
        return;
      }
      var disabled := RecordFailure(job.delivery);
      assert history == old(history) + ([Attempted(job.delivery, job.attempt, answer), GaveUp(job.delivery)]
                                        + if disabled then [SwitchedOff] else []);
    }

    /** `update_webhook`, deciding on the copy it was handed. */
    method UpdateWebhook(edit: nat, enabled: bool)
      requires Enabled(Now(), SaveEdit(edit, enabled))
      modifies this`endpoint, this`history, this`copies
      ensures Now() == Next(old(Now()), SaveEdit(edit, enabled))
      ensures copies == old(copies) - {edit}
      ensures var copy, was := old(copies)[edit], old(endpoint);
              if was.None? then endpoint == was && history == old(history)
              else
                && endpoint == Some(Endpoint(enabled, if enabled && !copy then 0 else was.value.failures))
                && history == old(history) + ((if enabled && !copy then [Cleared] else [])
                                              + (if enabled && !was.value.enabled then [SwitchedOn] else []))
    {
      var wasEnabled := copies[edit];
      copies := copies - {edit};
      if endpoint.None? { return; }
      var clears := enabled && !wasEnabled;
      if clears { history := history + [Cleared]; }
      if enabled && !endpoint.value.enabled { history := history + [SwitchedOn]; }
      endpoint := Some(Endpoint(enabled, if clears then 0 else endpoint.value.failures));
      assert history == old(history) + ((if enabled && !wasEnabled then [Cleared] else [])
                                        + (if enabled && !old(endpoint.value.enabled) then [SwitchedOn] else []));
    }
  }
}
