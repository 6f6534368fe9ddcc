/**
 The rule-trigger cooldown of one (trigger, contact) pair, raced by the job that
 prunes old rows.  A claim reads the clock, tries an UPDATE, then an INSERT; the
 pruner reads the clock, selects, then deletes; any of these may interleave.
 */
module Cooldown {
  import opened Queue

  const COOLDOWN := 60.0
  const PRUNE_MARGIN := 300.0

  /** `missed` once the UPDATE has matched nothing. */
  datatype Claim = Claim(moment: real, missed: bool)

  datatype Pruner = Pruner(cutoff: real, selected: bool)

  /** `row` is the stored last_fired_at; `fired` logs the recorded time of every claim that succeeded. */
  datatype State = State(
    row: Option<real>, clock: real, claims: map<nat, Claim>, pruners: map<nat, Pruner>, fired: seq<real>)

  datatype Step =
    | Tick(to: real)
    | ClaimStart(id: nat)
    | ClaimUpdate(id: nat)
    | ClaimInsert(id: nat)
    | PruneStart(id: nat)
    | PruneSelect(id: nat)
    | PruneDelete(id: nat)

  /** The row the UPDATE's WHERE clause matches. */
  predicate Cooled(row: Option<real>, moment: real) {
    row.Some? && row.value <= moment - COOLDOWN
  }

  predicate Stale(row: Option<real>, cutoff: real) {
    row.Some? && row.value < cutoff
  }

  /** `patience` bounds how long a claim may take from reading the clock to inserting. */
  predicate Enabled(patience: real, s: State, step: Step) {
    match step
    case Tick(to) => to >= s.clock
    case ClaimStart(id) => id !in s.claims
    case ClaimUpdate(id) => id in s.claims && !s.claims[id].missed
    case ClaimInsert(id) => id in s.claims && s.claims[id].missed && s.clock - s.claims[id].moment <= patience
    case PruneStart(_) => true
    case PruneSelect(id) => id in s.pruners
    case PruneDelete(id) => id in s.pruners && s.pruners[id].selected
  }

  function Ended(claims: map<nat, Claim>, id: nat): map<nat, Claim> {
    map c | c in claims && c != id :: claims[c]
  }

  function Fired(s: State, id: nat): State
    requires id in s.claims
  {
    var moment := s.claims[id].moment;
    s.(row := Some(moment), claims := Ended(s.claims, id), fired := s.fired + [moment])
  }

  function Next(patience: real, s: State, step: Step): State
    requires Enabled(patience, s, step)
  {
    match step
    case Tick(to) => s.(clock := to)
    case ClaimStart(id) => s.(claims := s.claims[id := Claim(s.clock, false)])
    case ClaimUpdate(id) =>
      if Cooled(s.row, s.claims[id].moment) then Fired(s, id)
      else s.(claims := s.claims[id := s.claims[id].(missed := true)])
    case ClaimInsert(id) =>
      if s.row.None? then Fired(s, id) else s.(claims := Ended(s.claims, id))
    case PruneStart(id) => s.(pruners := s.pruners[id := Pruner(s.clock - COOLDOWN - PRUNE_MARGIN, false)])
    case PruneSelect(id) => s.(pruners := s.pruners[id := s.pruners[id].(selected := Stale(s.row, s.pruners[id].cutoff))])
    case PruneDelete(id) => s.(row := if Stale(s.row, s.pruners[id].cutoff) then None else s.row)
  }

  predicate Legal(patience: real, s: State, run: seq<Step>)
    decreases |run|
  {
    run == [] || (Enabled(patience, s, run[0]) && Legal(patience, Next(patience, s, run[0]), run[1..]))
  }

  function Exec(patience: real, s: State, run: seq<Step>): State
    requires Legal(patience, s, run)
    decreases |run|
  {
    if run == [] then s else Exec(patience, Next(patience, s, run[0]), run[1..])
  }

  const NEW := State(None, 0.0, map[], map[], [])

  /** Any two successful claims are recorded at least a cooldown apart. */
  ghost predicate Apart(fired: seq<real>) {
    forall i, j | 0 <= i < j < |fired| :: fired[j] >= fired[i] + 60.0
  }

  ghost predicate Inv(s: State) {
    && Apart(s.fired)
    && (s.row.Some? ==> s.fired != [] && s.row.value == s.fired[|s.fired| - 1])
    && (s.row.None? && s.fired != [] ==> s.fired[|s.fired| - 1] < s.clock - COOLDOWN - PRUNE_MARGIN)
    && (forall p | p in s.pruners :: s.pruners[p].cutoff <= s.clock - COOLDOWN - PRUNE_MARGIN)
  }

  lemma StepKeeps(patience: real, s: State, step: Step)
    requires patience <= PRUNE_MARGIN && Inv(s) && Enabled(patience, s, step)
    ensures Inv(Next(patience, s, step))
  {
    var t := Next(patience, s, step);
    if t.fired != s.fired {
      forall i | 0 <= i < |s.fired| ensures t.fired[|s.fired|] >= s.fired[i] + COOLDOWN {
        var last := s.fired[|s.fired| - 1];
        assert i < |s.fired| - 1 ==> last >= s.fired[i] + COOLDOWN;
      }
    }
  }

  lemma {:induction false} RunKeeps(patience: real, s: State, run: seq<Step>)
    requires patience <= PRUNE_MARGIN && Inv(s) && Legal(patience, s, run)
    ensures Inv(Exec(patience, s, run))
    decreases |run|
  {
    if run != [] {
      StepKeeps(patience, s, run[0]);
      RunKeeps(patience, Next(patience, s, run[0]), run[1..]);
    }
  }

  // ------------------------------------------------------------------ the margin is exact

  lemma RunCons(patience: real, s: State, step: Step, rest: seq<Step>)
    requires Enabled(patience, s, step) && Legal(patience, Next(patience, s, step), rest)
    ensures Legal(patience, s, [step] + rest)
    ensures Exec(patience, s, [step] + rest) == Exec(patience, Next(patience, s, step), rest)
  {
    assert ([step] + rest)[1..] == rest;
  }

  /** A claim that dawdles past the margin lets a pruned pair fire again inside its cooldown. */
  lemma SlowClaimBreaksTheCooldown(patience: real) returns (run: seq<Step>)
    requires patience > PRUNE_MARGIN
    ensures Legal(patience, NEW, run) && !Apart(Exec(patience, NEW, run).fired)
  {
    var d := if patience >= 420.0 then 60.0 else (patience - PRUNE_MARGIN) / 2.0;
    var m, p := 60.0 - d, 360.0 + d;
    var s1 := Next(patience, NEW, ClaimStart(1));
    var s2 := Next(patience, s1, ClaimUpdate(1));
    var s3 := Next(patience, s2, ClaimInsert(1));
    var s4 := Next(patience, s3, Tick(m));
    var s5 := Next(patience, s4, ClaimStart(2));
    var s6 := Next(patience, s5, ClaimUpdate(2));
    var s7 := Next(patience, s6, Tick(p));
    var s8 := Next(patience, s7, PruneStart(9));
    var s9 := Next(patience, s8, PruneSelect(9));
    var s10 := Next(patience, s9, PruneDelete(9));
    var s11 := Next(patience, s10, ClaimInsert(2));
    assert s11.fired == [0.0, m];
    run := [];
    RunCons(patience, s10, ClaimInsert(2), run);
    run := [ClaimInsert(2)] + run;
    RunCons(patience, s9, PruneDelete(9), run);
    run := [PruneDelete(9)] + run;
    RunCons(patience, s8, PruneSelect(9), run);
    run := [PruneSelect(9)] + run;
    RunCons(patience, s7, PruneStart(9), run);
    run := [PruneStart(9)] + run;
    RunCons(patience, s6, Tick(p), run);
    run := [Tick(p)] + run;
    RunCons(patience, s5, ClaimUpdate(2), run);
    run := [ClaimUpdate(2)] + run;
    RunCons(patience, s4, ClaimStart(2), run);
    run := [ClaimStart(2)] + run;
    RunCons(patience, s3, Tick(m), run);
    run := [Tick(m)] + run;
    RunCons(patience, s2, ClaimInsert(1), run);
    run := [ClaimInsert(1)] + run;
    RunCons(patience, s1, ClaimUpdate(1), run);
    run := [ClaimUpdate(1)] + run;
    RunCons(patience, NEW, ClaimStart(1), run);
    run := [ClaimStart(1)] + run;
    assert !Apart(s11.fired) by { assert s11.fired[1] < s11.fired[0] + COOLDOWN; }
  }

  /**
   The cooldown survives pruning under every interleaving, exactly when no claim takes
   longer than the prune margin between reading the clock and inserting.
   */
  lemma CooldownSurvivesPruningIffPatient(patience: real)
    ensures (forall run | Legal(patience, NEW, run) :: Apart(Exec(patience, NEW, run).fired)) <==> patience <= 300.0
  {
    if patience <= PRUNE_MARGIN {
      forall run | Legal(patience, NEW, run) ensures Apart(Exec(patience, NEW, run).fired) {
        RunKeeps(patience, NEW, run);
      }
    } else {
      var run := SlowClaimBreaksTheCooldown(patience);
    }
  }

  // ------------------------------------------------------------------ the table

  /** (trigger, contact) to last_fired_at. */
  type Fires = map<(nat, nat), real>

  const BATCH_SIZE: nat := 50
  const MAX_BATCHES: nat := 40

  class Guard {
    var fires: Fires

    constructor ()
      ensures fires == map[]
    {
      fires := map[];
    }

    /** `claim_rule_fire`, uninterrupted: granted unless the pair fired less than a cooldown ago. */
    method ClaimRuleFire(trigger: nat, contact: nat, moment: real) returns (granted: bool)
      modifies this
      ensures granted <==> ((trigger, contact) !in old(fires) || old(fires)[(trigger, contact)] + 60.0 <= moment)
      ensures fires == if granted then old(fires)[(trigger, contact) := moment] else old(fires)
    {
      var key := (trigger, contact);
      var updated := 0;
      if key in fires && fires[key] <= moment - COOLDOWN {
        fires := fires[key := moment];
        updated := 1;
      }
      if updated > 0 { return true; }
      if key in fires { return false; }
      fires := fires[key := moment];
      return true;
    }

    /**
     `match_and_fire`: the first matching trigger owns the event.  If it is cooling
     down nothing fires, and no other pair's guard is touched either way.
     */
    method MatchAndFire(triggers: seq<nat>, matching: set<nat>, contact: nat, moment: real) returns (fired: Option<nat>)
      modifies this
      ensures fired.Some? ==> (exists i :: FirstMatch(triggers, matching, i) && triggers[i] == fired.value)
      ensures fired.Some? ==> fires == old(fires)[(fired.value, contact) := moment]
      ensures fired.Some? && (fired.value, contact) in old(fires) ==> old(fires)[(fired.value, contact)] + 60.0 <= moment
      ensures fired.None? ==> fires == old(fires)
      ensures fired.None? ==> forall i | FirstMatch(triggers, matching, i) ::
                (triggers[i], contact) in old(fires) && old(fires)[(triggers[i], contact)] + 60.0 > moment
    {
      for i := 0 to |triggers|
        invariant forall j | 0 <= j < i :: triggers[j] !in matching
        invariant fires == old(fires)
      {
        if triggers[i] !in matching { continue; }
        assert FirstMatch(triggers, matching, i);
        var granted := ClaimRuleFire(triggers[i], contact, moment);
        if granted { return Some(triggers[i]); }
        assert forall j | FirstMatch(triggers, matching, j) :: j == i;
        return None;
      }
      return None;
    }

    /**
     `prune_rule_trigger_fires`, uninterrupted: only rows past the cooldown and the
     margin go, and unless the job hits its ceiling none of them is left.
     */
    method PruneFires(now: real) returns (total: nat)
      modifies this
      ensures forall k | k in fires :: k in old(fires) && fires[k] == old(fires)[k]
      ensures forall k | k in old(fires) && old(fires)[k] >= now - 360.0 :: k in fires
      ensures total == |old(fires)| - |fires|
      ensures total < 2000 ==> forall k | k in fires :: fires[k] >= now - 360.0
    {
      var cutoff := now - COOLDOWN - PRUNE_MARGIN;
      total := 0;
      for batch := 0 to MAX_BATCHES
        invariant forall k | k in fires :: k in old(fires) && fires[k] == old(fires)[k]
        invariant forall k | k in old(fires) && old(fires)[k] >= cutoff :: k in fires
        invariant total == |old(fires)| - |fires|
        invariant total >= BATCH_SIZE * batch || forall k | k in fires :: fires[k] >= cutoff
      {
        var stale := SelectStale(cutoff);
        if stale == {} { break; }
        assert stale <= fires.Keys;
        total := total + |stale|;
        assert fires.Keys == (fires - stale).Keys + stale;
        fires := fires - stale;
      }
    }

    /** Up to a batch of stale keys; fewer only when there are no more. */
    method SelectStale(cutoff: real) returns (stale: set<(nat, nat)>)
      ensures forall k | k in stale :: k in fires && fires[k] < cutoff
      ensures |stale| <= BATCH_SIZE
      ensures |stale| < BATCH_SIZE ==> forall k | k in fires && fires[k] < cutoff :: k in stale
    {
      var left := set k | k in fires && fires[k] < cutoff;
      stale := {};
      while left != {} && |stale| < BATCH_SIZE
        invariant left !! stale
        invariant left + stale == set k | k in fires && fires[k] < cutoff
        invariant |stale| <= BATCH_SIZE
        decreases left
      {
        var k :| k in left;
        left := left - {k};
        stale := stale + {k};
      }
    }
  }

  ghost predicate FirstMatch(triggers: seq<nat>, matching: set<nat>, i: int) {
    0 <= i < |triggers| && triggers[i] in matching && forall j | 0 <= j < i :: triggers[j] !in matching
  }
}
