/** What holds of the streak, the automatic disable and every delivery, on every run. */
module WebhookTheorems {
  import opened Queue
  import opened Webhooks

  // ------------------------------------------------------------------ reading an extended history

  lemma StreakGrows(history: seq<Entry>, entry: Entry)
    ensures Streak(history + [entry]) ==
            if entry.Succeeded? || entry.Cleared? then 0 else Streak(history) + if entry.GaveUp? then 1 else 0
  {
    assert (history + [entry])[..|history|] == history;
  }

  lemma ChainGrows(history: seq<Entry>, entry: Entry, delivery: nat)
    ensures ChainOf(history + [entry], delivery) == Extended(ChainOf(history, delivery), entry, delivery)
  {
    assert (history + [entry])[..|history|] == history;
  }

  /** Entries about nobody, or about another delivery, leave a chain alone. */
  predicate Elsewhere(entries: seq<Entry>, delivery: nat) {
    forall e | e in entries :: !Ends(e, delivery) && !(e.Attempted? && e.delivery == delivery)
  }

  lemma {:induction false} ChainKeeps(history: seq<Entry>, entries: seq<Entry>, delivery: nat)
    requires Elsewhere(entries, delivery)
    ensures ChainOf(history + entries, delivery) == ChainOf(history, delivery)
    decreases |entries|
  {
    if entries == [] {
      assert history + entries == history;
    } else {
      var front, last := entries[..|entries| - 1], entries[|entries| - 1];
      ChainKeeps(history, front, delivery);
      assert history + entries == history + front + [last];
      ChainGrows(history + front, last, delivery);
    }
  }

  // ------------------------------------------------------------------ the streak

  /** The stored counter is what the committed history says, whatever ran at the same time. */
  ghost predicate StreakExact(w: World) {
    w.endpoint.Some? ==> w.endpoint.value.failures == Streak(w.history)
  }

  lemma StepKeepsStreak(w: World, step: Step)
    requires StreakExact(w) && Enabled(w, step)
    ensures StreakExact(Next(w, step))
  {
    hide Streak, ChainOf;
    match step
    case Start(j) => StreakGrows(w.history, Dropped(w.jobs[j].delivery));
    case Abandon(j) => StreakGrows(w.history, Lost(w.jobs[j].delivery));
    case Finish(j, answer) =>
      var d, h := w.jobs[j].delivery, w.history;
      var first := Attempted(d, w.jobs[j].attempt, answer);
      StreakGrows(h, first);
      StreakGrows(h + [first], Succeeded(d));
      StreakGrows(h + [first], GaveUp(d));
      StreakGrows(h + [first] + [GaveUp(d)], SwitchedOff);
      assert h + [first, Succeeded(d)] == h + [first] + [Succeeded(d)];
      assert h + ([first, GaveUp(d)] + []) == h + [first] + [GaveUp(d)];
      assert h + ([first, GaveUp(d)] + [SwitchedOff]) == h + [first] + [GaveUp(d)] + [SwitchedOff];
    case SaveEdit(_, _) =>
      var h := w.history;
      StreakGrows(h, Cleared);
      StreakGrows(h, SwitchedOn);
      StreakGrows(h + [Cleared], SwitchedOn);
      assert h + ([] + []) == h && h + ([Cleared] + []) == h + [Cleared] && h + ([] + [SwitchedOn]) == h + [SwitchedOn];
      assert h + ([Cleared] + [SwitchedOn]) == h + [Cleared] + [SwitchedOn];
    case _ =>
  }

  /** An edit that switches the endpoint on believing it never went off. */
  predicate StaleEnable(w: World, step: Step) {
    && step.SaveEdit? && step.enabled && step.edit in w.copies && w.copies[step.edit]
    && w.endpoint.Some? && w.endpoint.value.failures >= w.limit
  }

  /** An enabled endpoint is below the limit. */
  ghost predicate BelowLimit(w: World) {
    w.endpoint.Some? && w.endpoint.value.enabled ==> w.endpoint.value.failures < w.limit
  }

  /**
   One step keeps an enabled endpoint below its limit exactly when it is not an edit
   holding a copy read before the endpoint was switched off.
   */
  lemma BelowLimitKeptIff(w: World, step: Step)
    requires w.limit > 0 && BelowLimit(w) && Enabled(w, step)
    ensures BelowLimit(Next(w, step)) <==> !StaleEnable(w, step)
    ensures StaleEnable(w, step) ==> !w.endpoint.value.enabled
  {
  }

  ghost predicate NoStaleEnable(w: World, steps: seq<Step>)
    decreases |steps|
  {
    steps == []
    || (NoStaleEnable(w, steps[..|steps| - 1]) && !StaleEnable(Exec(w, steps[..|steps| - 1]), steps[|steps| - 1]))
  }

  // ------------------------------------------------------------------ notified once

  /** Between any two automatic disables somebody switched the endpoint on. */
  ghost predicate OncePerSpan(history: seq<Entry>) {
    forall i, j | 0 <= i < j < |history| && history[i].SwitchedOff? && history[j].SwitchedOff? ::
      SwitchedOnWithin(history, i, j)
  }

  ghost predicate SwitchedOnWithin(history: seq<Entry>, i: int, j: int) {
    exists k :: 0 <= i < k < j <= |history| && history[k].SwitchedOn?
  }

  /** After an automatic disable with nobody switching it on since, the endpoint is off. */
  ghost predicate OffSince(w: World) {
    forall i | 0 <= i < |w.history| && w.history[i].SwitchedOff? ::
      SwitchedOnWithin(w.history, i, |w.history|) || w.endpoint.None? || !w.endpoint.value.enabled
  }

  lemma WithinGrows(history: seq<Entry>, more: seq<Entry>, i: int, j: int)
    requires SwitchedOnWithin(history, i, j)
    ensures SwitchedOnWithin(history + more, i, j) && SwitchedOnWithin(history + more, i, |history + more|)
  {
    var k :| 0 <= i < k < j <= |history| && history[k].SwitchedOn?;
    assert (history + more)[k] == history[k];
  }

  lemma EntryFrom(history: seq<Entry>, more: seq<Entry>, i: nat)
    requires i < |history + more|
    ensures (i < |history| && (history + more)[i] == history[i]) || (history + more)[i] in more
  {
  }

  /** Entries that switch nothing off keep the spans apart. */
  lemma SpansKept(w: World, v: World, more: seq<Entry>)
    requires OncePerSpan(w.history) && OffSince(w) && v.history == w.history + more
    requires forall e | e in more :: !e.SwitchedOff?
    requires v.endpoint.Some? && v.endpoint.value.enabled ==>
               w.endpoint.Some? && (w.endpoint.value.enabled || (|more| > 0 && more[|more| - 1].SwitchedOn?))
    ensures OncePerSpan(v.history) && OffSince(v)
  {
    forall i, j | 0 <= i < j < |v.history| && v.history[i].SwitchedOff? && v.history[j].SwitchedOff?
      ensures SwitchedOnWithin(v.history, i, j)
    {
      EntryFrom(w.history, more, j);
      WithinGrows(w.history, more, i, j);
    }
    forall i | 0 <= i < |v.history| && v.history[i].SwitchedOff?
      ensures SwitchedOnWithin(v.history, i, |v.history|) || v.endpoint.None? || !v.endpoint.value.enabled
    {
      EntryFrom(w.history, more, i);
      if SwitchedOnWithin(w.history, i, |w.history|) {
        WithinGrows(w.history, more, i, |w.history|);
      } else if v.endpoint.Some? && v.endpoint.value.enabled {
        assert v.history[|v.history| - 1].SwitchedOn?;
      }
    }
  }

  /** A disable closes a span in which the endpoint was on. */
  lemma SpanCloses(w: World, v: World, more: seq<Entry>)
    requires OncePerSpan(w.history) && OffSince(w) && v.history == w.history + more + [SwitchedOff]
    requires forall e | e in more :: !e.SwitchedOff?
    requires w.endpoint.Some? && w.endpoint.value.enabled && v.endpoint.Some? && !v.endpoint.value.enabled
    ensures OncePerSpan(v.history) && OffSince(v)
  {
    SpansKept(w, w.(history := w.history + more), more);
    var h := w.history + more;
    forall i, j | 0 <= i < j < |v.history| && v.history[i].SwitchedOff? && v.history[j].SwitchedOff?
      ensures SwitchedOnWithin(v.history, i, j)
    {
      assert h[i] == v.history[i];
      if j < |h| {
        assert h[j] == v.history[j];
      } else {
        assert SwitchedOnWithin(h, i, |h|);
      }
      WithinGrows(h, [SwitchedOff], i, j);
    }
  }

  lemma StepKeepsSpans(w: World, step: Step)
    requires OncePerSpan(w.history) && OffSince(w) && Enabled(w, step)
    ensures OncePerSpan(Next(w, step).history) && OffSince(Next(w, step))
  {
    var v := Next(w, step);
    match step
    case Start(j) =>
      if w.endpoint.Some? && w.endpoint.value.enabled { SpansKept(w, v, []); }
      else { SpansKept(w, v, [Dropped(w.jobs[j].delivery)]); }
    case Abandon(j) => SpansKept(w, v, [Lost(w.jobs[j].delivery)]);
    case Finish(j, answer) => FinishKeepsSpans(w, j, answer);
    case SaveEdit(e, enabled) =>
      if w.endpoint.Some? {
        SpansKept(w, v, (if enabled && !w.copies[e] then [Cleared] else [])
                        + (if enabled && !w.endpoint.value.enabled then [SwitchedOn] else []));
      } else {
        SpansKept(w, v, []);
      }
    case _ => SpansKept(w, v, []);
  }

  lemma FinishKeepsSpans(w: World, j: nat, answer: Answer)
    requires OncePerSpan(w.history) && OffSince(w) && Enabled(w, Finish(j, answer))
    ensures OncePerSpan(Next(w, Finish(j, answer)).history) && OffSince(Next(w, Finish(j, answer)))
  {
    var v, job := Next(w, Finish(j, answer)), w.jobs[j];
    var attempt := Attempted(job.delivery, job.attempt, answer);
    if w.endpoint.None? { SpansKept(w, v, []); }
    else if answer.Accepted? { SpansKept(w, v, [attempt, Succeeded(job.delivery)]); }
    else if answer.Refused? && job.attempt < MAX_DELIVERY_ATTEMPTS { SpansKept(w, v, [attempt]); }
    else if Trips(w.endpoint.value, w.limit) { SpanCloses(w, v, [attempt, GaveUp(job.delivery)]); }
    else { SpansKept(w, v, [attempt, GaveUp(job.delivery)]); }
  }

  // ------------------------------------------------------------------ chains

  function UpTo(m: nat): seq<nat> {
    if m == 0 then [] else UpTo(m - 1) + [m]
  }

  predicate Live(job: Job) {
    !job.stage.Over?
  }

  /** So far refused, if anything, and the next attempt is `next`. */
  ghost predicate Open(chain: Chain, next: nat) {
    && 1 <= next <= MAX_DELIVERY_ATTEMPTS && chain.attempts == UpTo(next - 1) && chain.endings == []
    && (chain.last.None? || chain.last == Some(Refused))
  }

  /** Ended once, in the way its last answer allows, after at most `MAX_DELIVERY_ATTEMPTS` attempts numbered from 1. */
  ghost predicate Closed(chain: Chain) {
    && |chain.attempts| <= MAX_DELIVERY_ATTEMPTS && chain.attempts == UpTo(|chain.attempts|) && |chain.endings| == 1
    && match chain.endings[0] {
         case Succeeded(_) => chain.last == Some(Accepted)
         case GaveUp(_) => chain.last == Some(Blocked)
                           || (chain.last == Some(Refused) && |chain.attempts| == MAX_DELIVERY_ATTEMPTS)
         case _ => chain.last.None? || chain.last == Some(Refused)
       }
  }

  ghost predicate HasLive(w: World, delivery: nat) {
    exists i :: 0 <= i < |w.jobs| && Live(w.jobs[i]) && w.jobs[i].delivery == delivery
  }

  ghost predicate ChainsOk(w: World) {
    && (forall i | 0 <= i < |w.jobs| :: w.jobs[i].delivery < w.born)
    && (forall i, j | 0 <= i < j < |w.jobs| && Live(w.jobs[i]) && Live(w.jobs[j]) :: w.jobs[i].delivery != w.jobs[j].delivery)
    && (forall i | 0 <= i < |w.jobs| && Live(w.jobs[i]) :: Open(ChainOf(w.history, w.jobs[i].delivery), w.jobs[i].attempt))
    && (forall d: nat | d < w.born && !HasLive(w, d) :: Closed(ChainOf(w.history, d)))
    && (forall d: nat | d >= w.born :: ChainOf(w.history, d) == Chain([], None, []))
  }

  lemma {:induction false} UpToSize(m: nat)
    ensures |UpTo(m)| == m
  {
    if m > 0 { UpToSize(m - 1); }
  }

  /** The delivery has a live job at `i` in the one world and so in the other. */
  lemma LiveKept(w: World, v: World, delivery: nat)
    requires |w.jobs| <= |v.jobs|
    requires forall i | 0 <= i < |w.jobs| && Live(w.jobs[i]) && w.jobs[i].delivery == delivery ::
               Live(v.jobs[i]) && v.jobs[i].delivery == delivery
    ensures HasLive(w, delivery) ==> HasLive(v, delivery)
  {
    if HasLive(w, delivery) {
      var i :| 0 <= i < |w.jobs| && Live(w.jobs[i]) && w.jobs[i].delivery == delivery;
      assert Live(v.jobs[i]) && v.jobs[i].delivery == delivery;
    }
  }

  /** A live job that stays live and writes nothing. */
  lemma RestageKeeps(w: World, j: nat, stage: Stage)
    requires ChainsOk(w) && j < |w.jobs| && Live(w.jobs[j]) && !stage.Over?
    ensures ChainsOk(Staged(w, j, stage))
  {
    var v := Staged(w, j, stage);
    forall d: nat | d < v.born && !HasLive(v, d) ensures Closed(ChainOf(v.history, d)) {
      LiveKept(w, v, d);
    }
  }

  /** A live job that closes its chain. */
  lemma CloseKeeps(w: World, v: World, j: nat, entries: seq<Entry>)
    requires ChainsOk(w) && j < |w.jobs| && Live(w.jobs[j])
    requires v.jobs == w.jobs[j := w.jobs[j].(stage := Over)] && v.born == w.born && v.history == w.history + entries
    requires forall d: nat | d != w.jobs[j].delivery :: Elsewhere(entries, d)
    requires Closed(ChainOf(v.history, w.jobs[j].delivery))
    ensures ChainsOk(v)
  {
    forall d: nat | d != w.jobs[j].delivery ensures ChainOf(v.history, d) == ChainOf(w.history, d) {
      ChainKeeps(w.history, entries, d);
    }
    forall i | 0 <= i < |v.jobs| && Live(v.jobs[i]) ensures Open(ChainOf(v.history, v.jobs[i].delivery), v.jobs[i].attempt) {
      assert v.jobs[i] == w.jobs[i] && i != j;
    }
    forall d: nat | d < v.born && !HasLive(v, d) ensures Closed(ChainOf(v.history, d)) {
      if d != w.jobs[j].delivery {
        LiveKept(w, v, d);
      }
    }
  }

  /** A live job that hands over to the next attempt. */
  lemma RetryKeeps(w: World, v: World, j: nat, entry: Entry)
    requires ChainsOk(w) && j < |w.jobs| && Live(w.jobs[j])
    requires entry == Attempted(w.jobs[j].delivery, w.jobs[j].attempt, Refused)
    requires w.jobs[j].attempt < MAX_DELIVERY_ATTEMPTS
    requires v.jobs == w.jobs[j := w.jobs[j].(stage := Over)] + [Job(w.jobs[j].delivery, w.jobs[j].attempt + 1, Waiting)]
    requires v.born == w.born && v.history == w.history + [entry]
    ensures ChainsOk(v)
  {
    hide ChainOf, Closed, Open;
    var mine, n := w.jobs[j].delivery, |w.jobs|;
    RetryOpens(w.history, entry, mine);
    forall d: nat | d != mine ensures ChainOf(v.history, d) == ChainOf(w.history, d) {
      ChainKeeps(w.history, [entry], d);
    }
    assert forall i | 0 <= i < n && i != j :: v.jobs[i] == w.jobs[i];
    assert v.jobs[n] == Job(mine, w.jobs[j].attempt + 1, Waiting) && !Live(v.jobs[j]);
    assert HasLive(v, mine);
    forall d: nat | d < v.born && !HasLive(v, d) ensures Closed(ChainOf(v.history, d)) {
      assert d != mine;
      LiveKept(w, v, d);
    }
  }

  /** A refusal short of the last attempt leaves its chain open at the next number. */
  lemma RetryOpens(history: seq<Entry>, entry: Entry, delivery: nat)
    requires entry.Attempted? && entry.delivery == delivery && entry.answer.Refused?
    requires Open(ChainOf(history, delivery), entry.number) && entry.number < MAX_DELIVERY_ATTEMPTS
    ensures Open(ChainOf(history + [entry], delivery), entry.number + 1)
  {
    ChainGrows(history, entry, delivery);
    var n := entry.number;
    assert UpTo(n) == UpTo(n - 1) + [n];
  }

  /** An attempt that is accepted, blocked or the last one closes its chain. */
  lemma AnswerCloses(history: seq<Entry>, entry: Entry, ending: Entry, delivery: nat)
    requires entry.Attempted? && entry.delivery == delivery && Open(ChainOf(history, delivery), entry.number)
    requires if entry.answer.Accepted? then ending == Succeeded(delivery)
             else ending == GaveUp(delivery) && (entry.answer.Refused? ==> entry.number == MAX_DELIVERY_ATTEMPTS)
    ensures Closed(ChainOf(history + [entry] + [ending], delivery))
  {
    ChainGrows(history, entry, delivery);
    ChainGrows(history + [entry], ending, delivery);
    var n := entry.number;
    assert UpTo(n) == UpTo(n - 1) + [n];
    UpToSize(n);
  }

  /** Steps that touch no job and end nothing. */
  lemma QuietKeeps(w: World, v: World, entries: seq<Entry>)
    requires ChainsOk(w) && v.jobs == w.jobs && v.born == w.born && v.history == w.history + entries
    requires forall e | e in entries :: e.Cleared? || e.SwitchedOn?
    ensures ChainsOk(v)
  {
    forall d: nat ensures ChainOf(v.history, d) == ChainOf(w.history, d) {
      ChainKeeps(w.history, entries, d);
    }
    assert forall d: nat :: HasLive(v, d) == HasLive(w, d);
  }

  lemma EmitKeeps(w: World)
    requires ChainsOk(w) && Enabled(w, Emit)
    ensures ChainsOk(Next(w, Emit))
  {
    var v := Next(w, Emit);
    assert v.jobs[|w.jobs|] == Job(w.born, 1, Waiting);
    forall d: nat | d < v.born && !HasLive(v, d) ensures Closed(ChainOf(v.history, d)) {
      LiveKept(w, v, d);
    }
  }

  /** What an ending run writes is about its own delivery. */
  lemma OnlyItsOwn(delivery: nat, entry: Entry, ending: Entry, off: seq<Entry>)
    requires entry.Attempted? && entry.delivery == delivery && Ends(ending, delivery)
    requires off == [] || off == [SwitchedOff]
    ensures forall d: nat | d != delivery :: Elsewhere([entry, ending] + off, d)
    ensures forall d: nat | d != delivery :: Elsewhere([entry, ending], d)
    ensures Elsewhere(off, delivery)
  {
  }

  lemma SuccessKeeps(w: World, j: nat)
    requires ChainsOk(w) && Enabled(w, Finish(j, Accepted)) && w.endpoint.Some?
    ensures ChainsOk(Answered(w, j, Accepted))
  {
    var h, d := w.history, w.jobs[j].delivery;
    var attempt := Attempted(d, w.jobs[j].attempt, Accepted);
    AnswerCloses(h, attempt, Succeeded(d), d);
    OnlyItsOwn(d, attempt, Succeeded(d), []);
    assert h + [attempt, Succeeded(d)] == h + [attempt] + [Succeeded(d)];
    hide ChainOf, Closed, Open, Streak, Elsewhere, ChainsOk;
    CloseKeeps(w, Answered(w, j, Accepted), j, [attempt, Succeeded(d)]);
  }

  lemma GiveUpKeeps(w: World, j: nat, answer: Answer)
    requires ChainsOk(w) && Enabled(w, Finish(j, answer)) && w.endpoint.Some?
    requires answer.Blocked? || (answer.Refused? && w.jobs[j].attempt >= MAX_DELIVERY_ATTEMPTS)
    ensures ChainsOk(Answered(w, j, answer))
  {
    hide Streak, Closed, ChainOf, Elsewhere;
    var h, d := w.history, w.jobs[j].delivery;
    var attempt := Attempted(d, w.jobs[j].attempt, answer);
    var off := if Trips(w.endpoint.value, w.limit) then [SwitchedOff] else [];
    assert Open(ChainOf(h, d), w.jobs[j].attempt) && w.jobs[j].attempt <= MAX_DELIVERY_ATTEMPTS;
    hide ChainsOk, Open;
    AnswerCloses(h, attempt, GaveUp(d), d);
    OnlyItsOwn(d, attempt, GaveUp(d), off);
    ChainKeeps(h + [attempt] + [GaveUp(d)], off, d);
    assert h + ([attempt, GaveUp(d)] + off) == h + [attempt] + [GaveUp(d)] + off;
    CloseKeeps(w, Answered(w, j, answer), j, [attempt, GaveUp(d)] + off);
  }

  lemma FinishKeeps(w: World, j: nat, answer: Answer)
    requires ChainsOk(w) && Enabled(w, Finish(j, answer))
    ensures ChainsOk(Next(w, Finish(j, answer)))
  {
    hide ChainOf, Closed, Open, Streak, ChainsOk;
    if w.endpoint.None? {
      RestageKeeps(w, j, Waiting);
    } else if answer.Accepted? {
      SuccessKeeps(w, j);
    } else if answer.Refused? && w.jobs[j].attempt < MAX_DELIVERY_ATTEMPTS {
      RetryKeeps(w, Answered(w, j, answer), j, Attempted(w.jobs[j].delivery, w.jobs[j].attempt, Refused));
    } else {
      GiveUpKeeps(w, j, answer);
    }
  }

  lemma StepKeepsChains(w: World, step: Step)
    requires ChainsOk(w) && Enabled(w, step)
    ensures ChainsOk(Next(w, step))
  {
    var v := Next(w, step);
    match step
    case Emit => EmitKeeps(w);
    case Start(j) =>
      if w.endpoint.Some? && w.endpoint.value.enabled {
        RestageKeeps(w, j, InFlight);
      } else {
        EndsUnanswered(w, v, j, Dropped(w.jobs[j].delivery));
      }
    case Finish(j, answer) => FinishKeeps(w, j, answer);
    case Requeue(j) => RestageKeeps(w, j, Waiting);
    case Abandon(j) => EndsUnanswered(w, v, j, Lost(w.jobs[j].delivery));
    case OpenEdit(_) => QuietKeeps(w, v, []);
    case SaveEdit(e, enabled) =>
      if w.endpoint.None? { QuietKeeps(w, v, []); }
      else {
        QuietKeeps(w, v, (if enabled && !w.copies[e] then [Cleared] else [])
                         + (if enabled && !w.endpoint.value.enabled then [SwitchedOn] else []));
      }
    case Delete => QuietKeeps(w, v, []);
  }

  lemma EndsUnanswered(w: World, v: World, j: nat, entry: Entry)
    requires ChainsOk(w) && j < |w.jobs| && Live(w.jobs[j])
    requires entry == Dropped(w.jobs[j].delivery) || entry == Lost(w.jobs[j].delivery)
    requires v == Wrote(Staged(w, j, Over), [entry])
    ensures ChainsOk(v)
  {
    hide ChainOf;
    ChainGrows(w.history, entry, w.jobs[j].delivery);
    UpToSize(w.jobs[j].attempt - 1);
    CloseKeeps(w, v, j, [entry]);
  }

  // ------------------------------------------------------------------ over whole runs

  lemma {:induction false} RunKeeps(limit: nat, steps: seq<Step>)
    requires Legal(Created(limit), steps)
    ensures var w := Exec(Created(limit), steps);
            w.limit == limit && StreakExact(w) && ChainsOk(w) && OncePerSpan(w.history) && OffSince(w)
    decreases |steps|
  {
    if steps != [] {
      var front, last := steps[..|steps| - 1], steps[|steps| - 1];
      RunKeeps(limit, front);
      var v := Exec(Created(limit), front);
      StepKeepsStreak(v, last);
      StepKeepsChains(v, last);
      StepKeepsSpans(v, last);
    }
  }

  /**
   No update of the streak is lost: however attempts, edits and crashes interleave, the
   counter equals the deliveries given up since the last success or the last clearing edit.
   */
  lemma NoLostUpdates(limit: nat, steps: seq<Step>)
    requires Legal(Created(limit), steps)
    ensures var w := Exec(Created(limit), steps);
            w.endpoint.Some? ==> w.endpoint.value.failures == Streak(w.history)
  {
    RunKeeps(limit, steps);
  }

  /** The admins hear of an automatic disable once per span in which the endpoint was on. */
  lemma NotifiedOncePerSpan(limit: nat, steps: seq<Step>, i: nat, j: nat)
    requires Legal(Created(limit), steps)
    requires var h := Exec(Created(limit), steps).history; i < j < |h| && h[i].SwitchedOff? && h[j].SwitchedOff?
    ensures var h := Exec(Created(limit), steps).history; exists k :: i < k < j && h[k].SwitchedOn?
  {
    RunKeeps(limit, steps);
    var h := Exec(Created(limit), steps).history;
    assert SwitchedOnWithin(h, i, j);
  }

  /** At no moment of the run is an enabled endpoint at its limit. */
  ghost predicate AlwaysBelow(w: World, steps: seq<Step>) {
    forall n | 0 <= n <= |steps| :: BelowLimit(Exec(w, steps[..n]))
  }

  lemma AlwaysBelowGrows(w: World, front: seq<Step>, last: Step)
    ensures AlwaysBelow(w, front + [last]) <==> AlwaysBelow(w, front) && BelowLimit(Exec(w, front + [last]))
  {
    hide Exec, BelowLimit;
    var all := front + [last];
    assert all[..|all|] == all;
    assert forall n | 0 <= n <= |front| :: all[..n] == front[..n];
    if AlwaysBelow(w, all) {
      forall n | 0 <= n <= |front| ensures BelowLimit(Exec(w, front[..n])) {
        assert BelowLimit(Exec(w, all[..n]));
      }
      assert BelowLimit(Exec(w, all[..|all|]));
    }
  }

  lemma StartsBelow(limit: nat)
    requires limit > 0
    ensures AlwaysBelow(Created(limit), [])
  {
    var none: seq<Step> := [];
    assert none[..0] == none;
  }

  /** An enabled endpoint is below its limit at every moment exactly of the runs without a stale edit. */
  lemma {:induction false} EnabledMeansBelowLimit(limit: nat, steps: seq<Step>)
    requires limit > 0 && Legal(Created(limit), steps)
    ensures Exec(Created(limit), steps).limit == limit
    ensures AlwaysBelow(Created(limit), steps) <==> NoStaleEnable(Created(limit), steps)
    decreases |steps|
  {
    hide StaleEnable, BelowLimit, AlwaysBelow;
    if steps == [] {
      StartsBelow(limit);
    } else {
      var front, last := steps[..|steps| - 1], steps[|steps| - 1];
      assert steps == front + [last];
      EnabledMeansBelowLimit(limit, front);
      AlwaysBelowGrows(Created(limit), front, last);
      if AlwaysBelow(Created(limit), front) {
        AllIsBelow(Created(limit), front);
        BelowLimitKeptIff(Exec(Created(limit), front), last);
      }
    }
  }

  lemma AllIsBelow(w: World, steps: seq<Step>)
    requires AlwaysBelow(w, steps)
    ensures BelowLimit(Exec(w, steps))
  {
    assert steps[..|steps|] == steps;
  }

  lemma OneMore(w: World, front: seq<Step>, step: Step)
    requires Legal(w, front) && Enabled(Exec(w, front), step)
    ensures Legal(w, front + [step]) && Exec(w, front + [step]) == Next(Exec(w, front), step)
  {
    assert (front + [step])[..|front|] == front;
  }

  /** A delivery that meets a blocked address, from a state with nothing else going on. */
  lemma BlockedOnce(limit: nat, front: seq<Step>) returns (steps: seq<Step>)
    requires Legal(Created(limit), front)
    requires var w := Exec(Created(limit), front);
             w.endpoint.Some? && w.endpoint.value.enabled && w.endpoint.value.failures + 1 < w.limit && w.copies == map[]
    ensures Legal(Created(limit), steps)
    ensures var w, v := Exec(Created(limit), front), Exec(Created(limit), steps);
            v.endpoint == Some(Endpoint(true, w.endpoint.value.failures + 1)) && v.limit == w.limit && v.copies == map[]
  {
    hide Legal, Exec;
    var j := |Exec(Created(limit), front).jobs|;
    OneMore(Created(limit), front, Emit);
    OneMore(Created(limit), front + [Emit], Start(j));
    OneMore(Created(limit), front + [Emit] + [Start(j)], Finish(j, Blocked));
    steps := front + [Emit] + [Start(j)] + [Finish(j, Blocked)];
  }

  lemma NothingYet(limit: nat)
    ensures Legal(Created(limit), [])
    ensures var w := Exec(Created(limit), []); w.endpoint == Some(Endpoint(true, 0)) && w.limit == limit && w.copies == map[]
  {
  }

  lemma {:induction false} BlockedTimes(limit: nat, n: nat) returns (steps: seq<Step>)
    requires n < limit
    ensures Legal(Created(limit), steps)
    ensures var w := Exec(Created(limit), steps);
            w.endpoint == Some(Endpoint(true, n)) && w.limit == limit && w.copies == map[]
  {
    hide *;
    if n == 0 {
      steps := [];
      NothingYet(limit);
    } else {
      var front := BlockedTimes(limit, n - 1);
      steps := BlockedOnce(limit, front);
    }
  }

  /**
   A stale edit does break it, whatever the limit: read while the endpoint is on, saved after
   the failure that switched it off, it leaves the endpoint on and at its limit.
   */
  lemma StaleEditBreaksTheLimit(limit: nat) returns (steps: seq<Step>)
    requires limit > 0
    ensures Legal(Created(limit), steps)
    ensures Exec(Created(limit), steps).limit == limit
    ensures Exec(Created(limit), steps).endpoint == Some(Endpoint(true, limit)) && !BelowLimit(Exec(Created(limit), steps))
  {
    hide Legal, Exec;
    var w := Created(limit);
    var front := BlockedTimes(limit, limit - 1);
    var j := |Exec(w, front).jobs|;
    OneMore(w, front, Emit);
    OneMore(w, front + [Emit], Start(j));
    OneMore(w, front + [Emit] + [Start(j)], OpenEdit(0));
    OneMore(w, front + [Emit] + [Start(j)] + [OpenEdit(0)], Finish(j, Blocked));
    OneMore(w, front + [Emit] + [Start(j)] + [OpenEdit(0)] + [Finish(j, Blocked)], SaveEdit(0, true));
    steps := front + [Emit] + [Start(j)] + [OpenEdit(0)] + [Finish(j, Blocked)] + [SaveEdit(0, true)];
  }

  lemma ChainNow(w: World, delivery: nat)
    requires ChainsOk(w) && delivery < w.born
    ensures var chain := ChainOf(w.history, delivery);
            if HasLive(w, delivery) then
              chain.endings == [] && |chain.attempts| < MAX_DELIVERY_ATTEMPTS && chain.attempts == UpTo(|chain.attempts|)
            else Closed(chain)
  {
    if i :| 0 <= i < |w.jobs| && Live(w.jobs[i]) && w.jobs[i].delivery == delivery {
      UpToSize(w.jobs[i].attempt - 1);
    }
  }

  /**
   Every delivery's attempts are numbered 1, 2, 3, … up to at most `MAX_DELIVERY_ATTEMPTS`.
   While a queue row of it is live nothing has ended it; once none is, it has ended exactly
   once: by a success after an accepted attempt, by a recorded failure after a blocked address
   or the last refusal, or unrecorded, dropped for a missing or disabled endpoint or lost with
   its row.
   */
  lemma EachDeliveryEndsOnce(limit: nat, steps: seq<Step>, delivery: nat)
    requires Legal(Created(limit), steps) && delivery < Exec(Created(limit), steps).born
    ensures var w := Exec(Created(limit), steps);
            var chain := ChainOf(w.history, delivery);
            if HasLive(w, delivery) then
              chain.endings == [] && |chain.attempts| < 6 && chain.attempts == UpTo(|chain.attempts|)
            else Closed(chain)
  {
    RunKeeps(limit, steps);
    ChainNow(Exec(Created(limit), steps), delivery);
  }
}
