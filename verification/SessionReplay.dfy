/** The crash-counted replay that breaks a wedged session room
(edge/src/session-room.ts:902-970, 1032-1051): storage rolls back to the last sync when the
invocation is killed, and killed replays are counted across it. */
module SessionReplay {
  const REPLAY_CRASH_LIMIT := 3

  /** What is stored: the attempt counter, and the snapshot and updates a replay reads. */
  datatype Store = Store(attempts: nat, log: seq<string>)

  /** Where `ensureDoc` stands: not running, before its first sync, between its two syncs before
  and after the counter is reset, or done with the document at hand. */
  datatype Phase = Cold | Starting | Replaying | Resetting | Live

  /** How an attempt ended: killed before its first sync, killed between the two (with nothing to
  replay, or not), or through. */
  datatype Outcome = Aborted | Died(empty: bool) | Completed

  /** No replay died with nothing to replay. */
  ghost predicate DiedReplaying(history: seq<Outcome>) {
    forall i :: 0 <= i < |history| && history[i].Died? ==> !history[i].empty
  }

  /** Deaths since the last completed replay; attempts killed before their first sync left no
  trace. */
  function DeathsSince(history: seq<Outcome>): nat
    decreases |history|
  {
    if history == [] then 0
    else
      var last, before := history[|history| - 1], history[..|history| - 1];
      match last
      case Completed => 0
      case Died(_) => DeathsSince(before) + 1
      case Aborted => DeathsSince(before)
  }

  lemma {:induction false} DeathsAfter(history: seq<Outcome>, o: Outcome)
    ensures DeathsSince(history + [o]) == match o case Completed => 0 case Died(_) => DeathsSince(history) + 1 case Aborted => DeathsSince(history)
  {
    assert (history + [o])[..|history|] == history;
  }

  /** The latest deaths, in order, with no completed replay since the first of them. */
  ghost predicate LastDeaths(history: seq<Outcome>, at: seq<nat>) {
    && (forall k :: 0 <= k < |at| ==> at[k] < |history| && history[at[k]].Died?)
    && (forall k, l :: 0 <= k < l < |at| ==> at[k] < at[l])
    && (at != [] ==> forall x :: at[0] <= x < |history| ==> history[x] == Aborted || (history[x].Died? && x in at))
  }

  /** The positions of the last `n` deaths, with no completed replay after the first of them. */
  lemma {:induction false} DeathsWitness(history: seq<Outcome>, n: nat) returns (at: seq<nat>)
    requires n <= DeathsSince(history)
    ensures |at| == n && LastDeaths(history, at)
    decreases |history|
  {
    at := [];
    if n > 0 {
      var before := history[..|history| - 1];
      if history[|history| - 1].Died? {
        at := DeathsWitness(before, n - 1);
        at := at + [|history| - 1];
      } else {
        at := DeathsWitness(before, n);
      }
    }
  }

  class SessionRoom {
    var stored: Store
    /** What survives a kill. */
    var synced: Store
    var phase: Phase
    ghost var history: seq<Outcome>

    ghost predicate Valid()
      reads this
    {
      && synced.attempts == DeathsSince(history) + (if phase == Replaying || phase == Resetting then 1 else 0)
      && (phase == Cold || phase == Live ==> stored == synced)
      && (phase == Replaying ==> stored == synced)
      && (phase == Resetting ==> stored == synced.(attempts := 0))
      && (phase == Starting ==> stored == Begun(synced))
      && (phase == Live ==> DeathsSince(history) == 0)
      && (DiedReplaying(history) ==> Bounded(history))
      && (DiedReplaying(history) && DeathsSince(history) == REPLAY_CRASH_LIMIT && (phase == Replaying || phase == Resetting) ==> stored.log == [])
    }

    constructor ()
      ensures Valid() && phase == Cold && history == []
    {
      stored, synced, phase, history := Store(0, []), Store(0, []), Cold, [];
    }

    /** `ensureDoc` up to its first sync: past the limit the log is dropped, and the attempt is
    counted. The log goes exactly when the last three attempts to get past their first sync died
    before their second, with no replay completed since. */
    method Begin() returns (dropped: bool, ghost deaths: seq<nat>)
      requires Valid() && phase == Cold
      modifies `stored, `phase
      ensures Valid() && phase == Starting
      ensures dropped <==> DeathsSince(history) >= REPLAY_CRASH_LIMIT
      ensures dropped ==> |deaths| == REPLAY_CRASH_LIMIT && LastDeaths(history, deaths)
      ensures stored == Store(synced.attempts + 1, if dropped then [] else old(stored.log))
    {
      dropped, deaths := stored.attempts >= REPLAY_CRASH_LIMIT, [];
      if dropped {
        deaths := DeathsWitness(history, REPLAY_CRASH_LIMIT);
        stored := stored.(log := []);
      }
      stored := stored.(attempts := stored.attempts + 1);
      phase := Starting;
    }

    /** The first sync: the attempt is counted whatever becomes of it. */
    method SyncCount()
      requires Valid() && phase == Starting
      modifies `synced, `phase
      ensures Valid() && phase == Replaying && synced == stored
    {
      synced := stored;
      phase := Replaying;
    }

    method ResetCount()
      requires Valid() && phase == Replaying
      modifies `stored, `phase
      ensures Valid() && phase == Resetting && stored == old(stored).(attempts := 0)
    {
      stored := stored.(attempts := 0);
      phase := Resetting;
    }

    /** The second sync makes the reset durable: a later kill does not bring the count back. */
    method SyncReset()
      requires Valid() && phase == Resetting
      modifies `synced, `phase, `history
      ensures Valid() && phase == Live && synced == stored && synced.attempts == 0
      ensures history == old(history) + [Completed]
    {
      DeathsAfter(history, Completed);
      if DiedReplaying(history) {
        BoundedAfter(history, Completed);
      }
      synced := stored;
      phase := Live;
      history := history + [Completed];
    }

    /** The invocation is killed. */
    method Kill()
      requires Valid()
      modifies this
      ensures Valid() && phase == Cold && stored == synced == old(synced)
      ensures history == match old(phase)
        case Starting => old(history) + [Aborted]
        case Replaying => old(history) + [Died(old(stored.log) == [])]
        case Resetting => old(history) + [Died(old(stored.log) == [])]
        case Cold => old(history)
        case Live => old(history)
    {
      ghost var died := Died(stored.log == []);
      DeathsAfter(history, died);
      DeathsAfter(history, Aborted);
      assert history[..|history|] == history;
      assert DiedReplaying(history) ==> DeathsSince(history) <= REPLAY_CRASH_LIMIT;
      if phase == Starting {
        if DiedReplaying(history) {
          BoundedAfter(history, Aborted);
        }
        history := history + [Aborted];
      } else if phase == Replaying || phase == Resetting {
        if DiedReplaying(history) && !died.empty {
          BoundedAfter(history, died);
        }
        assert (history + [died])[|history|] == died;
        history := history + [died];
      }
      stored := synced;
      phase := Cold;
    }

    /** Updates are stored between materializations, each event committing on its own. */
    method Record(update: string)
      requires Valid() && (phase == Cold || phase == Live)
      modifies `stored, `synced
      ensures Valid() && stored == synced == old(stored).(log := old(stored).log + [update])
    {
      stored := stored.(log := stored.log + [update]);
      synced := stored;
    }
  }

  function Begun(s: Store): Store {
    Store(s.attempts + 1, if s.attempts >= REPLAY_CRASH_LIMIT then [] else s.log)
  }

  /** At no point so far had more than three deaths piled up. */
  ghost predicate Bounded(history: seq<Outcome>) {
    forall n :: 0 <= n <= |history| ==> DeathsSince(history[..n]) <= REPLAY_CRASH_LIMIT
  }

  lemma {:induction false} BoundedAfter(history: seq<Outcome>, o: Outcome)
    requires Bounded(history) && DeathsSince(history + [o]) <= REPLAY_CRASH_LIMIT
    ensures Bounded(history + [o])
  {
    var h := history + [o];
    forall n | 0 <= n <= |h| ensures DeathsSince(h[..n]) <= REPLAY_CRASH_LIMIT {
      if n <= |history| {
        assert h[..n] == history[..n];
      } else {
        assert h[..n] == h;
      }
    }
  }

  lemma {:induction false} DeathsCounted(history: seq<Outcome>, at: seq<nat>)
    requires at != [] && forall k :: 0 <= k < |at| ==> at[k] < |history| && history[at[k]].Died?
    requires forall k, l :: 0 <= k < l < |at| ==> at[k] < at[l]
    requires forall x :: at[0] <= x < |history| ==> history[x] != Completed
    ensures DeathsSince(history) >= |at|
    decreases |history|
  {
    var before, front := history[..|history| - 1], at[..|at| - 1];
    if at[|at| - 1] == |history| - 1 {
      if front != [] {
        DeathsCounted(before, front);
      }
    } else {
      DeathsCounted(before, at);
    }
  }

  lemma {:induction false} CompletedBetween(history: seq<Outcome>, at: seq<nat>)
    requires Bounded(history) && |at| == REPLAY_CRASH_LIMIT + 1
    requires forall k :: 0 <= k < |at| ==> at[k] < |history| && history[at[k]].Died?
    requires forall k, l :: 0 <= k < l < |at| ==> at[k] < at[l]
    ensures exists x :: at[0] < x < at[REPLAY_CRASH_LIMIT] && history[x] == Completed
  {
    if forall x :: at[0] < x < at[REPLAY_CRASH_LIMIT] ==> history[x] != Completed {
      var upTo := history[..at[REPLAY_CRASH_LIMIT] + 1];
      DeathsCounted(upTo, at);
    }
  }

  /** If a room's replays only ever died with something to replay, no four of its deaths came
  without a completed replay between the first and the last: it recovers after at most three. */
  lemma {:induction false} RecoversWithinThree(room: SessionRoom, at: seq<nat>)
    requires room.Valid() && DiedReplaying(room.history)
    requires |at| == REPLAY_CRASH_LIMIT + 1
    requires forall k :: 0 <= k < |at| ==> at[k] < |room.history| && room.history[at[k]].Died?
    requires forall k, l :: 0 <= k < l < |at| ==> at[k] < at[l]
    ensures exists x :: at[0] < x < at[REPLAY_CRASH_LIMIT] && room.history[x] == Completed
  {
    CompletedBetween(room.history, at);
  }
}
