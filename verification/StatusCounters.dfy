/**
 Counting a message's status transitions (apps/analytics/counters.py) as delivery receipts
 move it along the ladder (`_next_status`, apps/messaging/ingest.py).
 */
module StatusCounters {
  import Queue

  datatype Status = Queued | Sent | Delivered | Read | Failed | Deleted

  /** `DELIVERY_PROGRESS`: the ladder. Failed and deleted are not rungs. */
  function Progress(status: Status): Queue.Option<nat> {
    match status
    case Queued => Queue.Some(0)
    case Sent => Queue.Some(1)
    case Delivered => Queue.Some(2)
    case Read => Queue.Some(3)
    case _ => Queue.None
  }

  /** One cell of the statistics, or what one transition adds to it. */
  datatype Counters = Counters(sent: nat, delivered: nat, failed: nat, clicked: nat)
  {
    function Plus(other: Counters): Counters {
      Counters(sent + other.sent, delivered + other.delivered, failed + other.failed, clicked + other.clicked)
    }
  }

  const ZERO := Counters(0, 0, 0, 0)

  function Tick(crossed: bool): nat {
    if crossed then 1 else 0
  }

  /** `_rank_left`: a message leaving `failed` had got as far as `sent`. */
  function RankLeft(status: Status): nat {
    if status.Failed? then 1 else if Progress(status).Some? then Progress(status).value else 0
  }

  /** `deltas_for`. */
  function DeltasFor(previous: Status, current: Status): Counters {
    if !previous.Failed? && Progress(previous).None? then ZERO
    else
      var before := RankLeft(previous);
      var after := if Progress(current).Some? then Progress(current).value else 0;
      Counters(Tick(before < 1 <= after), Tick(before < 2 <= after), Tick(current.Failed? && !previous.Failed?), 0)
  }

  /** `_next_status`; `None` when the receipt moves nothing. */
  function NextStatus(current: Status, incoming: Status): Queue.Option<Status> {
    if incoming.Failed? then
      if Progress(current).None? || Progress(current).value > 1 then Queue.None else Queue.Some(incoming)
    else if current.Failed? then Queue.Some(incoming)
    else if Progress(current).None? then Queue.None
    else if Progress(incoming).None? || Progress(incoming).value <= Progress(current).value then Queue.None
    else Queue.Some(incoming)
  }

  /** What can happen to a sent message: a provider's receipt, or its redaction. */
  datatype Happening = Receipt(incoming: Status) | Redacted
  {
    /** `RECEIPT_STATUSES`. */
    predicate Wellformed() {
      Receipt? ==> incoming.Sent? || incoming.Delivered? || incoming.Read? || incoming.Failed?
    }
  }

  function Moved(status: Status, h: Happening): Status {
    match h
    case Redacted => Deleted
    case Receipt(incoming) => if NextStatus(status, incoming).Some? then NextStatus(status, incoming).value else status
  }

  /** A receipt that moves the message counts its transition; a redaction is not counted. */
  function Counted(status: Status, h: Happening): Counters {
    if h.Receipt? && NextStatus(status, h.incoming).Some? then DeltasFor(status, Moved(status, h)) else ZERO
  }

  /** The moves a receipt can make: up the ladder, to failed from its two lowest rungs, and off failed to any rung above queued. */
  const MOVES: set<(Status, Status)> :=
    {(Queued, Sent), (Queued, Delivered), (Queued, Read), (Queued, Failed), (Sent, Delivered), (Sent, Read), (Sent, Failed),
     (Delivered, Read), (Failed, Sent), (Failed, Delivered), (Failed, Read)}

  /**
   A receipt makes a move or leaves the message where it stands.  Leaving the queue for a
   rung counts as sent, reaching the upper two for the first time as delivered, and every
   move to failed as failed.
   */
  lemma ReceiptTable(status: Status, incoming: Status)
    requires incoming.Sent? || incoming.Delivered? || incoming.Read? || incoming.Failed?
    ensures Moved(status, Receipt(incoming)) == if (status, incoming) in MOVES then incoming else status
    ensures var c := Counted(status, Receipt(incoming));
            && c.sent == (if status.Queued? && (incoming.Sent? || incoming.Delivered? || incoming.Read?) then 1 else 0)
            && c.delivered == (if (status.Queued? || status.Sent? || status.Failed?) && (incoming.Delivered? || incoming.Read?)
                               then 1 else 0)
            && c.failed == (if (status.Queued? || status.Sent?) && incoming.Failed? then 1 else 0)
            && c.clicked == 0
    ensures Moved(status, Redacted) == Deleted && Counted(status, Redacted) == Counters(0, 0, 0, 0)
  {
    var move := (status, incoming);
    assert move in MOVES <==> NextStatus(status, incoming).Some?;
  }

  /** Where a message that was queued stands after all of these. */
  function Walk(run: seq<Happening>): Status {
    if run == [] then Queued else Moved(Walk(run[..|run| - 1]), run[|run| - 1])
  }

  /** What they added to its counters. */
  function Tally(run: seq<Happening>): Counters {
    if run == [] then ZERO
    else Tally(run[..|run| - 1]).Plus(Counted(Walk(run[..|run| - 1]), run[|run| - 1]))
  }

  ghost predicate Wellformed(run: seq<Happening>) {
    forall i | 0 <= i < |run| :: run[i].Wellformed()
  }

  // ------------------------------------------------------------------ what happened, without counting

  /** At some point the message moved from one of these statuses to one of those. */
  ghost predicate Moves(run: seq<Happening>, from: set<Status>, to: set<Status>) {
    exists i :: 0 <= i < |run| && MovesAt(run, i, from, to)
  }

  ghost predicate MovesAt(run: seq<Happening>, i: nat, from: set<Status>, to: set<Status>)
    requires i < |run|
  {
    Walk(run[..i]) in from && Walk(run[..i + 1]) in to
  }

  lemma PrefixMoves(run: seq<Happening>, last: Happening, from: set<Status>, to: set<Status>)
    ensures Moves(run + [last], from, to) <==>
            Moves(run, from, to) || (Walk(run) in from && Moved(Walk(run), last) in to)
  {
    var all := run + [last];
    assert all[..|run|] == run && all[..|run| + 1] == all;
    forall i | 0 <= i < |run| ensures MovesAt(all, i, from, to) == MovesAt(run, i, from, to) {
      assert all[..i] == run[..i] && all[..i + 1] == run[..i + 1];
    }
    assert MovesAt(all, |run|, from, to) <==> Walk(run) in from && Moved(Walk(run), last) in to;
    if i :| 0 <= i < |run| && MovesAt(run, i, from, to) {
      assert MovesAt(all, i, from, to);
    }
  }

  const OFF_QUEUE: set<Status> := {Sent, Delivered, Read}
  const ARRIVED: set<Status> := {Delivered, Read}

  /** How often the message was written off. */
  function Falls(run: seq<Happening>): nat {
    if run == [] then 0
    else
      var front := run[..|run| - 1];
      Falls(front) + Tick(!Walk(front).Failed? && Walk(run).Failed?)
  }

  // ------------------------------------------------------------------ the counters telescope

  /** The table of one step. */
  lemma StepCounts(status: Status, h: Happening)
    requires h.Wellformed()
    ensures Counted(status, h).sent == Tick(status in {Queued} && Moved(status, h) in OFF_QUEUE)
    ensures Counted(status, h).delivered == Tick(status in {Queued, Sent, Failed} && Moved(status, h) in ARRIVED)
    ensures Counted(status, h).failed == Tick(!status.Failed? && Moved(status, h).Failed?)
    ensures Counted(status, h).clicked == 0
  {
  }

  lemma RunGrows(run: seq<Happening>, last: Happening)
    ensures Walk(run + [last]) == Moved(Walk(run), last)
    ensures Tally(run + [last]) == Tally(run).Plus(Counted(Walk(run), last))
    ensures Falls(run + [last]) == Falls(run) + Tick(!Walk(run).Failed? && Moved(Walk(run), last).Failed?)
  {
    assert (run + [last])[..|run|] == run;
  }

  lemma {:induction false} SentTelescopes(run: seq<Happening>)
    requires Wellformed(run)
    ensures Tally(run).sent == Tick(Moves(run, {Queued}, OFF_QUEUE))
    ensures Walk(run).Queued? ==> !Moves(run, {Queued}, OFF_QUEUE)
  {
    if run != [] {
      var front, last := run[..|run| - 1], run[|run| - 1];
      assert run == front + [last];
      SentTelescopes(front);
      RunGrows(front, last);
      StepCounts(Walk(front), last);
      PrefixMoves(front, last, {Queued}, OFF_QUEUE);
    }
  }

  lemma {:induction false} DeliveredTelescopes(run: seq<Happening>)
    requires Wellformed(run)
    ensures Tally(run).delivered == Tick(Moves(run, {Queued, Sent, Failed}, ARRIVED))
    ensures Walk(run) in {Queued, Sent, Failed} ==> !Moves(run, {Queued, Sent, Failed}, ARRIVED)
    ensures Walk(run) in ARRIVED ==> Moves(run, {Queued, Sent, Failed}, ARRIVED)
  {
    if run != [] {
      var front, last := run[..|run| - 1], run[|run| - 1];
      assert run == front + [last];
      DeliveredTelescopes(front);
      RunGrows(front, last);
      StepCounts(Walk(front), last);
      NoWayBack(Walk(front), last);
      PrefixMoves(front, last, {Queued, Sent, Failed}, ARRIVED);
    }
  }

  /** Nothing comes back from having arrived or been redacted. */
  lemma NoWayBack(status: Status, h: Happening)
    requires h.Wellformed()
    ensures Moved(status, h) in {Queued, Sent, Failed} ==> status in {Queued, Sent, Failed}
    ensures Moved(status, h) in ARRIVED ==> status !in {Deleted}
    ensures Moved(status, h).Queued? ==> status.Queued?
  {
  }

  lemma {:induction false} FailedTelescopes(run: seq<Happening>)
    requires Wellformed(run)
    ensures Tally(run).failed == Falls(run) && Tally(run).clicked == 0
    ensures Walk(run).Queued? ==> Falls(run) == 0
    ensures Walk(run).Failed? ==> Falls(run) >= 1
  {
    if run != [] {
      var front, last := run[..|run| - 1], run[|run| - 1];
      assert run == front + [last];
      FailedTelescopes(front);
      RunGrows(front, last);
      StepCounts(Walk(front), last);
      NoWayBack(Walk(front), last);
    }
  }

  /**
   Whatever receipts arrive, in whatever order and however often: a message counts once as
   sent if it left the queue for a rung of the ladder, once as delivered if it ever arrived,
   and once as failed for each time it was written off.
   */
  lemma CountersTelescope(run: seq<Happening>)
    requires Wellformed(run)
    ensures Tally(run) == Counters(Tick(Moves(run, {Queued}, OFF_QUEUE)),
                                   Tick(Moves(run, {Queued, Sent, Failed}, ARRIVED)), Falls(run), 0)
  {
    SentTelescopes(run);
    DeliveredTelescopes(run);
    FailedTelescopes(run);
  }

  /**
   A message that never arrived and was not redacted has no delivery counted, one that has
   arrived has exactly one, and neither `sent` nor `delivered` ever exceeds one.
   */
  lemma DeliveredMeansArrived(run: seq<Happening>)
    requires Wellformed(run)
    ensures Tally(run).sent <= 1 && Tally(run).delivered <= 1
    ensures !Walk(run).Deleted? ==> (Tally(run).delivered == 1 <==> Walk(run) in ARRIVED)
    ensures Walk(run).Queued? ==> Tally(run) == ZERO
  {
    SentTelescopes(run);
    DeliveredTelescopes(run);
    FailedTelescopes(run);
  }

  /**
   `delivered` outgrows `sent` on exactly one kind of run: the message was written off
   straight from the queue and a delivery receipt came for it all the same.
   */
  lemma DeliveredExceedsSentIff(run: seq<Happening>)
    requires Wellformed(run)
    ensures Tally(run).delivered > Tally(run).sent <==>
            Moves(run, {Queued}, {Failed}) && Moves(run, {Failed, Sent}, ARRIVED)
  {
    CountersTelescope(run);
    LeavesQueueOnce(run);
    ArrivesFrom(run);
  }

  lemma ArrivesFrom(run: seq<Happening>)
    ensures Moves(run, {Queued, Sent, Failed}, ARRIVED) <==>
            Moves(run, {Queued}, ARRIVED) || Moves(run, {Failed, Sent}, ARRIVED)
    ensures Moves(run, {Queued}, ARRIVED) ==> Moves(run, {Queued}, OFF_QUEUE)
  {
    forall i | 0 <= i < |run|
      ensures MovesAt(run, i, {Queued, Sent, Failed}, ARRIVED) <==>
              MovesAt(run, i, {Queued}, ARRIVED) || MovesAt(run, i, {Failed, Sent}, ARRIVED)
      ensures MovesAt(run, i, {Queued}, ARRIVED) ==> MovesAt(run, i, {Queued}, OFF_QUEUE)
    {
    }
  }

  /** A message leaves the queue once, for a rung, for `failed` or by redaction, and moves among the rest only afterwards. */
  lemma {:induction false} LeavesQueueOnce(run: seq<Happening>)
    requires Wellformed(run)
    ensures !(Moves(run, {Queued}, OFF_QUEUE) && Moves(run, {Queued}, {Failed}))
    ensures Walk(run).Queued? ==> !Moves(run, {Queued}, OFF_QUEUE) && !Moves(run, {Queued}, {Failed})
    ensures Walk(run).Queued? || Walk(run).Deleted? || Moves(run, {Queued}, OFF_QUEUE) || Moves(run, {Queued}, {Failed})
    ensures Moves(run, {Queued, Sent, Failed}, ARRIVED) ==> Moves(run, {Queued}, OFF_QUEUE) || Moves(run, {Queued}, {Failed})
  {
    if run != [] {
      var front, last := run[..|run| - 1], run[|run| - 1];
      assert run == front + [last];
      LeavesQueueOnce(front);
      assert last.Wellformed();
      PrefixMoves(front, last, {Queued}, OFF_QUEUE);
      PrefixMoves(front, last, {Queued}, {Failed});
      PrefixMoves(front, last, {Queued, Sent, Failed}, ARRIVED);
    }
  }

  lemma ZeroPlus(c: Counters)
    ensures ZERO.Plus(c) == c
  {
  }

  /** The first happening alone. */
  lemma FirstStep(run: seq<Happening>)
    requires |run| == 1
    ensures Walk(run) == Moved(Queued, run[0]) && Tally(run) == ZERO.Plus(Counted(Queued, run[0]))
  {
    assert run[..|run| - 1] == [];
  }

  lemma FailsFromQueued(h: Happening)
    requires h == Receipt(Failed)
    ensures Moved(Queued, h) == Failed && Counted(Queued, h) == Counters(0, 0, 1, 0)
  {
  }

  lemma ArrivesFromFailed(h: Happening)
    requires h == Receipt(Read)
    ensures Counted(Failed, h) == Counters(0, 1, 0, 0)
  {
  }

  lemma SecondStep(run: seq<Happening>)
    requires |run| == 2
    ensures Walk(run) == Moved(Moved(Queued, run[0]), run[1])
    ensures Tally(run) == Counted(Queued, run[0]).Plus(Counted(Moved(Queued, run[0]), run[1]))
  {
    var first := run[..1];
    assert run == first + [run[1]];
    FirstStep(first);
    ZeroPlus(Counted(Queued, first[0]));
    RunGrows(first, run[1]);
  }

  /** `delivered` over `sent`, on the shortest such run: written off, then its open pixel fetched. */
  lemma DeliveredCanExceedSent(run: seq<Happening>, first: Happening, second: Happening)
    requires run == [first, second] && first == Receipt(Failed) && second == Receipt(Read)
    ensures Tally(run).delivered > Tally(run).sent
  {
    SecondStep(run);
    FailsFromQueued(first);
    ArrivesFromFailed(second);
  }

  // ------------------------------------------------------------------ written off more than once

  /** A receipt of `sent` moved the message off `failed`, and a later failure wrote it off again. */
  ghost predicate FailsAgain(run: seq<Happening>) {
    exists i, j :: 0 <= i < j < |run| && MovesAt(run, i, {Failed}, {Sent}) && MovesAt(run, j, {Sent}, {Failed})
  }

  /**
   A message counts at most one failure exactly when no `sent` receipt was accepted over a
   failure and then followed by another failure; `_next_status` lets one be.
   */
  lemma {:induction false} FailedOnceIff(run: seq<Happening>)
    requires Wellformed(run)
    ensures Tally(run).failed <= 1 <==> !FailsAgain(run)
  {
    FailedTelescopes(run);
    FallsTwiceIff(run);
  }

  lemma {:induction false} FallsTwiceIff(run: seq<Happening>)
    requires Wellformed(run)
    ensures Falls(run) >= 2 <==> FailsAgain(run)
    ensures Walk(run).Sent? ==> (Falls(run) >= 1 <==> Moves(run, {Failed}, {Sent}))
    ensures Walk(run).Queued? ==> !Moves(run, {Failed}, {Sent})
  {
    if run == [] {
      assert !FailsAgain(run) && !Moves(run, {Failed}, {Sent});
    } else {
      var front, last := run[..|run| - 1], run[|run| - 1];
      assert run == front + [last];
      FallsTwiceIff(front);
      FailedTelescopes(front);
      FallsGrow(front, last);
    }
  }

  lemma FallsGrow(run: seq<Happening>, last: Happening)
    requires last.Wellformed()
    requires Falls(run) >= 2 <==> FailsAgain(run)
    requires Walk(run).Sent? ==> (Falls(run) >= 1 <==> Moves(run, {Failed}, {Sent}))
    requires Walk(run).Queued? ==> Falls(run) == 0 && !Moves(run, {Failed}, {Sent})
    requires Walk(run).Failed? ==> Falls(run) >= 1
    ensures Falls(run + [last]) >= 2 <==> FailsAgain(run + [last])
    ensures Walk(run + [last]).Sent? ==> (Falls(run + [last]) >= 1 <==> Moves(run + [last], {Failed}, {Sent}))
    ensures Walk(run + [last]).Queued? ==> !Moves(run + [last], {Failed}, {Sent})
  {
    NoWayBack(Walk(run), last);
    RunGrows(run, last);
    PrefixMoves(run, last, {Failed}, {Sent});
    PrefixFailsAgain(run, last);
    WaysToFail(Walk(run), last);
  }

  /** Which moves matter to a second failure. */
  lemma WaysToFail(status: Status, h: Happening)
    requires h.Wellformed()
    ensures Moved(status, h).Failed? ==> status.Queued? || status.Sent? || status.Failed?
    ensures Moved(status, h).Sent? ==> status.Queued? || status.Sent? || status.Failed?
  {
  }

  lemma PrefixFailsAgain(run: seq<Happening>, last: Happening)
    ensures FailsAgain(run + [last]) <==>
            FailsAgain(run) || (Moves(run, {Failed}, {Sent}) && Walk(run).Sent? && Moved(Walk(run), last).Failed?)
  {
    var all := run + [last];
    assert all[..|run|] == run && all[..|run| + 1] == all;
    forall i, from, to | 0 <= i < |run| ensures MovesAt(all, i, from, to) == MovesAt(run, i, from, to) {
      assert all[..i] == run[..i] && all[..i + 1] == run[..i + 1];
    }
    assert MovesAt(all, |run|, {Sent}, {Failed}) <==> Walk(run).Sent? && Moved(Walk(run), last).Failed?;
  }

  /** Two failures of one message, on the shortest such run. */
  lemma FailedCanCountTwice(run: seq<Happening>)
    requires |run| == 3 && run[0] == Receipt(Failed) && run[1] == Receipt(Sent) && run[2] == Receipt(Failed)
    ensures Tally(run).failed == 2
  {
    var first, second := run[..1], run[..2];
    assert run == second + [run[2]] && second == first + [run[1]] && first == [] + [run[0]];
    RunGrows([], run[0]);
    RunGrows(first, run[1]);
    RunGrows(second, run[2]);
  }
}
