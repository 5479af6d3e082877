/** Bearer tokens shared by any number of callers, refreshed one exchange at a time
(crates/client/src/auth.rs:354-443), as the atomic steps the tasks interleave. */
module TokenRefresh {
  import opened Wrappers

  datatype Tokens = Tokens(access: string, refresh: string)

  /** Where one `bearer` call or the refresh task it spawned stands. The phases from `Holding` on
  hold the gate. */
  datatype Phase =
    | Asked
    | Waiting
    | Holding
    | Checked(current: Tokens)
    | Exchanging(current: Tokens)
    | Storing(next: Tokens)
    | Rejected
    | Announcing
    | Finished

  datatype Event = Presented(refresh: string) | Spent(refresh: string) | Cleared | Claimed | Emitted

  type TaskId = nat

  datatype Auth = Auth(
    tokens: Tokens, expired: bool, gate: Option<TaskId>, tasks: map<TaskId, Phase>,
    clearing: nat, spent: set<string>, history: seq<Event>)

  predicate Critical(p: Phase) {
    !p.Asked? && !p.Waiting? && !p.Finished?
  }

  predicate At(a: Auth, t: TaskId, p: Phase) {
    t in a.tasks && a.tasks[t] == p
  }

  function To(a: Auth, t: TaskId, p: Phase): Auth {
    a.(tasks := a.tasks[t := p])
  }

  function Done(a: Auth, t: TaskId): Auth {
    a.(tasks := a.tasks[t := Finished], gate := None)
  }

  function Log(a: Auth, e: Event): Auth {
    a.(history := a.history + [e])
  }

  // ── steps; `stale` says whether an access token counts as expired now ─────

  /** `bearer` reads the pair; a live access token is returned and no task follows. */
  ghost predicate Ask(a: Auth, t: TaskId, stale: string -> bool, a': Auth) {
    t !in a.tasks && stale(a.tokens.access) && a' == To(a, t, Asked)
  }

  /** `bearer` reads the flag; on a signed-out client it gives up, else it spawns the task. */
  ghost predicate Spawn(a: Auth, t: TaskId, a': Auth) {
    At(a, t, Asked) && a' == To(a, t, if a.expired then Finished else Waiting)
  }

  ghost predicate Acquire(a: Auth, t: TaskId, a': Auth) {
    At(a, t, Waiting) && a.gate == None && a' == To(a, t, Holding).(gate := Some(t))
  }

  /** Another task may have rotated the pair meanwhile. */
  ghost predicate Recheck(a: Auth, t: TaskId, stale: string -> bool, a': Auth) {
    At(a, t, Holding) && a' == if stale(a.tokens.access) then To(a, t, Checked(a.tokens)) else Done(a, t)
  }

  ghost predicate Present(a: Auth, t: TaskId, a': Auth) {
    && t in a.tasks && a.tasks[t].Checked?
    && var c := a.tasks[t].current;
       a' == if a.expired then Done(a, t) else Log(To(a, t, Exchanging(c)), Presented(c.refresh))
  }

  /** The server rotates the pair; it hands out refresh tokens it never handed out before. */
  ghost predicate Rotate(a: Auth, t: TaskId, next: Tokens, a': Auth) {
    && t in a.tasks && a.tasks[t].Exchanging?
    && var r := a.tasks[t].current.refresh;
       && next.refresh !in a.spent + {r}
       && a' == Log(To(a, t, Storing(next)), Spent(r)).(spent := a.spent + {r})
  }

  ghost predicate Store(a: Auth, t: TaskId, a': Auth) {
    t in a.tasks && a.tasks[t].Storing? && a' == Done(a, t).(tokens := a.tasks[t].next)
  }

  /** The server refuses the refresh token. */
  ghost predicate Refuse(a: Auth, t: TaskId, a': Auth) {
    t in a.tasks && a.tasks[t].Exchanging? && a' == To(a, t, Rejected)
  }

  /** `expired.swap(true)`: only the first to set the flag announces it. */
  ghost predicate Swap(a: Auth, t: TaskId, a': Auth) {
    && At(a, t, Rejected)
    && a' == (if a.expired then Done(a, t) else Log(To(a, t, Announcing), Claimed)).(expired := true)
  }

  ghost predicate Announce(a: Auth, t: TaskId, a': Auth) {
    At(a, t, Announcing) && a' == Log(Done(a, t), Emitted)
  }

  /** Any other failure leaves the pair; the caller gets the stale access token. */
  ghost predicate Fail(a: Auth, t: TaskId, a': Auth) {
    t in a.tasks && a.tasks[t].Exchanging? && a' == Done(a, t)
  }

  /** `update_tokens` stores the platform's pair, then clears the flag. */
  ghost predicate Update(a: Auth, next: Tokens, a': Auth) {
    next.refresh !in a.spent && a' == a.(tokens := next, clearing := a.clearing + 1)
  }

  ghost predicate Clear(a: Auth, a': Auth) {
    a.clearing > 0 && a' == Log(a, Cleared).(expired := false, clearing := a.clearing - 1)
  }

  ghost predicate TaskStep(a: Auth, t: TaskId, stale: string -> bool, a': Auth) {
    || Ask(a, t, stale, a') || Spawn(a, t, a') || Acquire(a, t, a') || Recheck(a, t, stale, a')
    || Present(a, t, a') || (exists next :: Rotate(a, t, next, a')) || Store(a, t, a')
    || Refuse(a, t, a') || Swap(a, t, a') || Announce(a, t, a') || Fail(a, t, a')
  }

  ghost predicate Step(a: Auth, a': Auth) {
    || (exists t, stale :: TaskStep(a, t, stale, a'))
    || (exists next :: Update(a, next, a'))
    || Clear(a, a')
  }

  function Start(tokens: Tokens): Auth {
    Auth(tokens, false, None, map[], 0, {}, [])
  }

  ghost predicate Run(trace: seq<Auth>)
    decreases |trace|
  {
    var n := |trace|;
    && n > 0
    && (if n == 1 then exists tokens :: trace[0] == Start(tokens) else Step(trace[n - 2], trace[n - 1]) && Run(trace[..n - 1]))
  }

  // ── the invariant ─────────────────────────────────────────────────────────

  ghost predicate GateHeld(a: Auth) {
    forall t {:trigger a.tasks[t]} :: t in a.tasks ==> (Critical(a.tasks[t]) <==> a.gate == Some(t))
  }

  /** No pair anyone is about to present was spent. */
  ghost predicate PairsUnspent(a: Auth) {
    && (a.tokens.refresh in a.spent ==> a.gate.Some? && a.gate.value in a.tasks && a.tasks[a.gate.value].Storing?)
    && forall t {:trigger a.tasks[t]} :: t in a.tasks ==> PhaseUnspent(a.tasks[t], a.spent)
  }

  predicate PhaseUnspent(p: Phase, spent: set<string>) {
    && (p.Checked? || p.Exchanging? ==> p.current.refresh !in spent)
    && (p.Storing? ==> p.next.refresh !in spent)
  }

  /** `Spent` precedes no later `Presented` of the same token, and the ledger lists the spent. */
  ghost predicate PresentedOnce(history: seq<Event>, spent: set<string>) {
    && (forall i :: 0 <= i < |history| && history[i].Spent? ==> history[i].refresh in spent)
    && (forall i, j :: 0 <= i < j < |history| && history[i].Spent? && history[j].Presented? ==> history[i].refresh != history[j].refresh)
  }

  ghost predicate ClearedBetween(history: seq<Event>, i: int, j: int) {
    exists c :: i < c < j && 0 <= c < |history| && history[c] == Cleared
  }

  /** Of two claims one comes after a clear that follows the other; with none after the last clear
  while the flag is down. */
  ghost predicate ClaimsApart(history: seq<Event>, expired: bool) {
    && (forall i, j :: 0 <= i < j < |history| && history[i] == Claimed && history[j] == Claimed ==> ClearedBetween(history, i, j))
    && (forall i :: 0 <= i < |history| && history[i] == Claimed && !expired ==> ClearedBetween(history, i, |history|))
  }

  /** The position of the claim not announced yet. */
  function Owed(history: seq<Event>): Option<nat>
    decreases |history|
  {
    if history == [] then None
    else
      var last := history[|history| - 1];
      if last == Claimed then Some(|history| - 1)
      else if last == Emitted then None
      else Owed(history[..|history| - 1])
  }

  /** Every announcement answers a claim of its own. */
  ghost predicate Answered(history: seq<Event>)
    decreases |history|
  {
    history == [] ||
    (Answered(history[..|history| - 1])
     && (history[|history| - 1] == Emitted ==> Owed(history[..|history| - 1]).Some?)
     && (history[|history| - 1] == Claimed ==> Owed(history[..|history| - 1]) == None))
  }

  /** The flag, read off the history: up since the last claim, down since the last clear. */
  function Flag(history: seq<Event>): bool
    decreases |history|
  {
    history != [] &&
    var last := history[|history| - 1];
    if last == Claimed then true else if last == Cleared then false else Flag(history[..|history| - 1])
  }

  /** The flag was down at every claim. */
  ghost predicate ClaimedDown(history: seq<Event>) {
    forall i :: 0 <= i < |history| && history[i] == Claimed ==> !Flag(history[..i])
  }

  ghost predicate Flagged(a: Auth) {
    a.expired == Flag(a.history) && ClaimedDown(a.history)
  }

  ghost predicate Announces(a: Auth) {
    && Answered(a.history)
    && (Owed(a.history).Some? <==> a.gate.Some? && At(a, a.gate.value, Announcing))
  }

  ghost predicate Inv(a: Auth) {
    && GateHeld(a) && (a.gate.Some? ==> a.gate.value in a.tasks)
    && PairsUnspent(a)
    && PresentedOnce(a.history, a.spent)
    && ClaimsApart(a.history, a.expired)
    && Announces(a) && Flagged(a)
  }

  lemma {:induction false} LogHistory(history: seq<Event>, e: Event)
    ensures (history + [e])[..|history + [e]| - 1] == history
  {
  }

  lemma {:induction false} LogPresented(history: seq<Event>, spent: set<string>, e: Event, spent': set<string>)
    requires PresentedOnce(history, spent) && spent <= spent'
    requires e.Presented? ==> e.refresh !in spent
    requires e.Spent? ==> e.refresh in spent'
    ensures PresentedOnce(history + [e], spent')
  {
  }

  lemma {:induction false} LogClaims(history: seq<Event>, expired: bool, e: Event, expired': bool)
    requires ClaimsApart(history, expired)
    requires e == Claimed ==> !expired && expired'
    requires e != Cleared && expired ==> expired'
    ensures ClaimsApart(history + [e], expired')
  {
    var h := history + [e];
    forall i, j | 0 <= i < j < |h| && h[i] == Claimed && h[j] == Claimed ensures ClearedBetween(h, i, j) {
      if j < |history| {
        Carry(history, e, i, j);
      } else {
        Carry(history, e, i, |history|);
      }
    }
    forall i | 0 <= i < |h| && h[i] == Claimed && !expired' ensures ClearedBetween(h, i, |h|) {
      if e == Cleared {
        assert h[|history|] == Cleared;
      } else {
        Carry(history, e, i, |history|);
      }
    }
  }

  lemma {:induction false} Carry(history: seq<Event>, e: Event, i: int, j: int)
    requires ClearedBetween(history, i, j)
    ensures ClearedBetween(history + [e], i, j) && ClearedBetween(history + [e], i, j + 1)
  {
    var c :| i < c < j && 0 <= c < |history| && history[c] == Cleared;
    assert (history + [e])[c] == Cleared;
  }

  lemma {:induction false} LogAnswers(history: seq<Event>, e: Event)
    requires Answered(history)
    requires e == Emitted ==> Owed(history).Some?
    requires e == Claimed ==> Owed(history) == None
    ensures Answered(history + [e])
    ensures Owed(history + [e]) == if e == Claimed then Some(|history|) else if e == Emitted then None else Owed(history)
  {
    LogHistory(history, e);
  }

  lemma {:induction false} LogFlag(history: seq<Event>, e: Event)
    requires ClaimedDown(history) && (e == Claimed ==> !Flag(history))
    ensures ClaimedDown(history + [e])
    ensures Flag(history + [e]) == if e == Claimed then true else if e == Cleared then false else Flag(history)
  {
    LogHistory(history, e);
    var h := history + [e];
    forall i | 0 <= i < |h| && h[i] == Claimed ensures !Flag(h[..i]) {
      assert h[..i] == if i < |history| then history[..i] else history;
    }
  }

  /** With no clear after it, a flag that is up stays up. */
  lemma {:induction false} FlagStays(history: seq<Event>, i: nat, j: nat)
    requires i <= j <= |history| && Flag(history[..i])
    requires forall c :: i <= c < j ==> history[c] != Cleared
    ensures Flag(history[..j])
    decreases j
  {
    if i < j {
      FlagStays(history, i, j - 1);
      assert history[..j][..j - 1] == history[..j - 1];
    }
  }

  // ── every step keeps it ───────────────────────────────────────────────────

  /** A step of task `t` that logs at most one event and moves only its own phase and the gate. */
  lemma {:induction false} TaskKeeps(a: Auth, t: TaskId, stale: string -> bool, a': Auth)
    requires Inv(a) && TaskStep(a, t, stale, a')
    ensures Inv(a')
  {
    GateKeeps(a, t, stale, a');
    SpentKeeps(a, t, stale, a');
    LedgerKeeps(a, t, stale, a');
    ClaimKeeps(a, t, stale, a');
    AnnounceKeeps(a, t, stale, a');
    FlagKeeps(a, t, stale, a');
  }

  lemma {:induction false} FlagKeeps(a: Auth, t: TaskId, stale: string -> bool, a': Auth)
    requires Flagged(a) && TaskStep(a, t, stale, a')
    ensures Flagged(a')
  {
    hide Flag, ClaimedDown;
    if a'.history != a.history {
      var e := a'.history[|a.history|];
      assert a'.history == a.history + [e];
      LogFlag(a.history, e);
    }
  }

  lemma {:induction false} GateKeeps(a: Auth, t: TaskId, stale: string -> bool, a': Auth)
    requires GateHeld(a) && (a.gate.Some? ==> a.gate.value in a.tasks) && TaskStep(a, t, stale, a')
    ensures GateHeld(a') && (a'.gate.Some? ==> a'.gate.value in a'.tasks)
  {
    assert t in a.tasks ==> (Critical(a.tasks[t]) <==> a.gate == Some(t));
    forall u | u in a'.tasks ensures Critical(a'.tasks[u]) <==> a'.gate == Some(u) {
      assert u != t ==> a'.tasks[u] == a.tasks[u];
      assert u != t ==> (Critical(a.tasks[u]) <==> a.gate == Some(u));
    }
  }

  lemma {:induction false} SpentKeeps(a: Auth, t: TaskId, stale: string -> bool, a': Auth)
    requires GateHeld(a) && PairsUnspent(a) && TaskStep(a, t, stale, a')
    ensures PairsUnspent(a')
  {
    assert t in a.tasks ==> PhaseUnspent(a.tasks[t], a.spent) && (Critical(a.tasks[t]) <==> a.gate == Some(t));
    assert forall u :: u in a'.tasks && u != t ==> u in a.tasks && a'.tasks[u] == a.tasks[u];
    forall u | u in a'.tasks ensures PhaseUnspent(a'.tasks[u], a'.spent) {
      if u != t {
        assert a'.tasks[u] == a.tasks[u] && PhaseUnspent(a.tasks[u], a.spent);
        assert Critical(a.tasks[u]) <==> a.gate == Some(u);
      }
    }
  }

  lemma {:induction false} LedgerKeeps(a: Auth, t: TaskId, stale: string -> bool, a': Auth)
    requires PairsUnspent(a) && PresentedOnce(a.history, a.spent) && TaskStep(a, t, stale, a')
    ensures PresentedOnce(a'.history, a'.spent)
  {
    assert t in a.tasks ==> PhaseUnspent(a.tasks[t], a.spent);
    if a'.history != a.history {
      var e := a'.history[|a.history|];
      assert a'.history == a.history + [e];
      LogPresented(a.history, a.spent, e, a'.spent);
    }
  }

  lemma {:induction false} ClaimKeeps(a: Auth, t: TaskId, stale: string -> bool, a': Auth)
    requires ClaimsApart(a.history, a.expired) && TaskStep(a, t, stale, a')
    ensures ClaimsApart(a'.history, a'.expired)
  {
    if a'.history != a.history {
      var e := a'.history[|a.history|];
      assert a'.history == a.history + [e];
      LogClaims(a.history, a.expired, e, a'.expired);
    }
  }

  lemma {:induction false} AnnounceKeeps(a: Auth, t: TaskId, stale: string -> bool, a': Auth)
    requires GateHeld(a) && Announces(a) && TaskStep(a, t, stale, a')
    ensures Announces(a')
  {
    hide Answered, Owed;
    assert t in a.tasks ==> (Critical(a.tasks[t]) <==> a.gate == Some(t));
    if a'.history != a.history {
      var e := a'.history[|a.history|];
      assert a'.history == a.history + [e];
      LogAnswers(a.history, e);
    }
  }

  lemma {:induction false} UpdateKeeps(a: Auth, next: Tokens, a': Auth)
    requires Inv(a) && Update(a, next, a')
    ensures Inv(a')
  {
    forall u | u in a'.tasks ensures PhaseUnspent(a'.tasks[u], a'.spent) && (Critical(a'.tasks[u]) <==> a'.gate == Some(u)) {
      assert PhaseUnspent(a.tasks[u], a.spent) && (Critical(a.tasks[u]) <==> a.gate == Some(u));
    }
  }

  lemma {:induction false} ClearKeeps(a: Auth, a': Auth)
    requires Inv(a) && Clear(a, a')
    ensures Inv(a')
  {
    LogPresented(a.history, a.spent, Cleared, a.spent);
    LogClaims(a.history, a.expired, Cleared, false);
    LogAnswers(a.history, Cleared);
    LogFlag(a.history, Cleared);
    hide Flag, ClaimedDown, Answered, Owed, ClaimsApart, PresentedOnce;
    forall u | u in a'.tasks ensures PhaseUnspent(a'.tasks[u], a'.spent) && (Critical(a'.tasks[u]) <==> a'.gate == Some(u)) {
      assert PhaseUnspent(a.tasks[u], a.spent) && (Critical(a.tasks[u]) <==> a.gate == Some(u));
    }
  }

  lemma {:induction false} RunKeeps(trace: seq<Auth>)
    requires Run(trace)
    ensures Inv(trace[|trace| - 1])
    decreases |trace|
  {
    if |trace| > 1 {
      var a, a' := trace[|trace| - 2], trace[|trace| - 1];
      RunKeeps(trace[..|trace| - 1]);
      hide Inv, TaskStep, Update, Clear;
      if t, stale :| TaskStep(a, t, stale, a') {
        TaskKeeps(a, t, stale, a');
      } else if next :| Update(a, next, a') {
        UpdateKeeps(a, next, a');
      } else {
        ClearKeeps(a, a');
      }
    }
  }

  // ── what the callers may rely on ──────────────────────────────────────────

  /** Whatever the interleaving, at most one exchange is in flight. */
  lemma {:induction false} SingleFlight(trace: seq<Auth>, t: TaskId, u: TaskId)
    requires Run(trace)
    requires var a := trace[|trace| - 1];
      t in a.tasks && u in a.tasks && a.tasks[t].Exchanging? && a.tasks[u].Exchanging?
    ensures t == u
  {
    RunKeeps(trace);
    var a := trace[|trace| - 1];
    assert Critical(a.tasks[t]) && Critical(a.tasks[u]);
  }

  /** A refresh token whose exchange succeeded is never presented again. */
  lemma {:induction false} NeverPresentedAgain(trace: seq<Auth>, i: nat, j: nat)
    requires Run(trace)
    requires var h := trace[|trace| - 1].history; i < j < |h| && h[i].Spent? && h[j].Presented?
    ensures var h := trace[|trace| - 1].history; h[i].refresh != h[j].refresh
  {
    RunKeeps(trace);
  }

  /** The claim an announcement answers. */
  lemma {:induction false} ClaimOf(history: seq<Event>, j: nat) returns (k: nat)
    requires Answered(history) && j < |history| && history[j] == Emitted
    ensures k < j && history[k] == Claimed && Owed(history[..j]) == Some(k)
    ensures forall x :: k < x < j ==> history[x] != Claimed && history[x] != Emitted
    decreases |history|
  {
    var front := history[..|history| - 1];
    if j < |history| - 1 {
      k := ClaimOf(front, j);
      assert front[..j] == history[..j];
      assert forall x :: k < x < j ==> front[x] == history[x];
    } else {
      k := OwedIs(front);
    }
  }

  lemma {:induction false} OwedIs(history: seq<Event>) returns (k: nat)
    requires Owed(history).Some?
    ensures Owed(history) == Some(k) && k < |history| && history[k] == Claimed
    ensures forall x :: k < x < |history| ==> history[x] != Claimed && history[x] != Emitted
    decreases |history|
  {
    var front := history[..|history| - 1];
    if history[|history| - 1] == Claimed {
      k := |history| - 1;
    } else {
      k := OwedIs(front);
      assert forall x :: k < x < |front| ==> front[x] == history[x];
    }
  }

  /** Two announcements are apart by a clear, unless the flag was already down again when the first
  of them went out: a platform update fell between its claim and itself. */
  lemma {:induction false} ExpiredOncePerClear(trace: seq<Auth>, i: nat, j: nat) returns (claim: nat)
    requires Run(trace)
    requires var h := trace[|trace| - 1].history; i < j < |h| && h[i] == Emitted && h[j] == Emitted
    ensures var h := trace[|trace| - 1].history;
      && claim < i && h[claim] == Claimed && ClearedBetween(h, claim, j)
      && (Flag(h[..i]) ==> ClearedBetween(h, i, j))
      && (!Flag(h[..i]) ==> ClearedBetween(h, claim, i))
  {
    RunKeeps(trace);
    var h := trace[|trace| - 1].history;
    claim := ClaimOf(h, i);
    var second := ClaimOf(h, j);
    assert second > i && ClearedBetween(h, claim, second);
    hide Inv, Run, Answered, Owed, ClearedBetween, Flag;
    FlagUp(h, i, second, j);
    FlagDown(h, claim, i);
    WiderClear(h, claim, second, j);
  }

  lemma {:induction false} WiderClear(h: seq<Event>, i: int, j: int, j': int)
    requires ClearedBetween(h, i, j) && j <= j'
    ensures ClearedBetween(h, i, j')
  {
  }

  /** A claim behind a flag that was up has a clear before it. */
  lemma {:induction false} FlagUp(h: seq<Event>, i: nat, second: nat, j: nat)
    requires ClaimedDown(h) && i < second < j <= |h| && h[i] == Emitted && h[second] == Claimed
    ensures Flag(h[..i]) ==> ClearedBetween(h, i, j)
  {
    if Flag(h[..i]) && !ClearedBetween(h, i, j) {
      FlagStays(h, i, second);
    }
  }

  /** A flag that is down was cleared since any claim. */
  lemma {:induction false} FlagDown(h: seq<Event>, claim: nat, i: nat)
    requires claim < i <= |h| && h[claim] == Claimed
    ensures !Flag(h[..i]) ==> ClearedBetween(h, claim, i)
  {
    if !Flag(h[..i]) && !ClearedBetween(h, claim, i) {
      assert h[..claim + 1][..claim] == h[..claim] && Flag(h[..claim + 1]);
      FlagStays(h, claim + 1, i);
    }
  }

  lemma {:induction false} Extend(trace: seq<Auth>, t: TaskId, stale: string -> bool, a: Auth) returns (longer: seq<Auth>)
    requires Run(trace) && TaskStep(trace[|trace| - 1], t, stale, a)
    ensures longer == trace + [a] && Run(longer)
  {
    longer := trace + [a];
    assert longer[..|longer| - 1] == trace;
    assert Step(trace[|trace| - 1], a);
  }

  /** One call of `bearer` on a stale pair, up to the point it holds the gate. */
  lemma {:induction false} CallToGate(trace: seq<Auth>, t: TaskId, stale: string -> bool) returns (longer: seq<Auth>)
    requires Run(trace)
    requires var a := trace[|trace| - 1]; t !in a.tasks && a.gate == None && !a.expired && stale(a.tokens.access)
    ensures |longer| > 0 && trace <= longer && Run(longer)
    ensures var a := trace[|trace| - 1]; longer[|longer| - 1] == To(a, t, Holding).(gate := Some(t))
  {
    var a := trace[|trace| - 1];
    hide Run;
    var a1 := To(a, t, Asked);
    longer := Extend(trace, t, stale, a1);
    var a2 := To(a1, t, Waiting);
    longer := Extend(longer, t, stale, a2);
    var a3 := To(a2, t, Holding).(gate := Some(t));
    longer := Extend(longer, t, stale, a3);
    assert a3.tasks == a.tasks[t := Holding];
  }

  /** From there to the refused exchange and the swap. */
  lemma {:induction false} RefusedCall(trace: seq<Auth>, t: TaskId, stale: string -> bool) returns (longer: seq<Auth>)
    requires |trace| > 0 && Run(trace)
    requires var a := trace[|trace| - 1]; At(a, t, Holding) && !a.expired && stale(a.tokens.access)
    ensures |longer| > 0 && trace <= longer && Run(longer)
    ensures var a, b := trace[|trace| - 1], longer[|longer| - 1];
      && b == To(a, t, Announcing).(expired := true, history := b.history)
      && b.history == a.history + [Presented(a.tokens.refresh), Claimed]
  {
    var a := trace[|trace| - 1];
    var a5 := Log(To(a, t, Exchanging(a.tokens)), Presented(a.tokens.refresh));
    longer := ExchangingCall(trace, t, stale);
    hide Run;
    var a6 := To(a5, t, Rejected);
    longer := Extend(longer, t, stale, a6);
    var a7 := Log(To(a6, t, Announcing), Claimed).(expired := true);
    longer := Extend(longer, t, stale, a7);
    assert a7.tasks == a.tasks[t := Announcing];
    assert a7.history == a.history + [Presented(a.tokens.refresh), Claimed];
  }

  lemma {:induction false} ExchangingCall(trace: seq<Auth>, t: TaskId, stale: string -> bool) returns (longer: seq<Auth>)
    requires |trace| > 0 && Run(trace)
    requires var a := trace[|trace| - 1]; At(a, t, Holding) && !a.expired && stale(a.tokens.access)
    ensures |longer| > 0 && trace <= longer && Run(longer)
    ensures var a := trace[|trace| - 1];
      longer[|longer| - 1] == Log(To(a, t, Exchanging(a.tokens)), Presented(a.tokens.refresh))
  {
    var a := trace[|trace| - 1];
    hide Run;
    var a4 := To(a, t, Checked(a.tokens));
    longer := Extend(trace, t, stale, a4);
    var a5 := Log(To(a4, t, Exchanging(a.tokens)), Presented(a.tokens.refresh));
    longer := Extend(longer, t, stale, a5);
    assert a5.tasks == a.tasks[t := Exchanging(a.tokens)];
  }

  // ── exactly when a second announcement can follow ─────────────────────────

  lemma {:induction false} FreshTask(tasks: map<TaskId, Phase>) returns (u: TaskId)
    ensures u !in tasks
  {
    u := 0;
    var rest := tasks.Keys;
    while rest != {}
      invariant rest <= tasks.Keys
      invariant forall t :: t in tasks && t !in rest ==> t < u
    {
      var t :| t in rest;
      u := if t < u then u else t + 1;
      rest := rest - {t};
    }
  }

  lemma {:induction false} HistoryGrows(trace: seq<Auth>, m: nat)
    requires Run(trace) && m < |trace|
    ensures trace[m].history <= trace[|trace| - 1].history
    decreases |trace|
  {
    if m < |trace| - 1 {
      HistoryGrows(trace[..|trace| - 1], m);
      StepGrows(trace[|trace| - 2], trace[|trace| - 1]);
    }
  }

  lemma {:induction false} StepGrows(a: Auth, a': Auth)
    requires Step(a, a')
    ensures a.history <= a'.history
  {
  }

  /** The run goes on with the announcement task `t` owes, and some time later there is another one
  with no clear between the two. */
  ghost predicate AnnouncesAgain(trace: seq<Auth>, t: TaskId, longer: seq<Auth>)
    requires |trace| > 0
  {
    && Run(longer) && trace + [Log(Done(trace[|trace| - 1], t), Emitted)] <= longer
    && var i, h := |trace[|trace| - 1].history|, longer[|longer| - 1].history;
       i < |h| && h[i] == Emitted && exists j :: i < j < |h| && h[j] == Emitted && !ClearedBetween(h, i, j)
  }

  /** When a task is about to announce, a second announcement can follow it with no platform update
  between them exactly if the flag is down. */
  lemma {:induction false} AnnouncedAgainIff(trace: seq<Auth>, t: TaskId)
    requires |trace| > 0 && Run(trace) && At(trace[|trace| - 1], t, Announcing)
    ensures !trace[|trace| - 1].expired <==> exists longer :: AnnouncesAgain(trace, t, longer)
  {
    var a := trace[|trace| - 1];
    if a.expired {
      forall longer | AnnouncesAgain(trace, t, longer) ensures false {
        NeverAgain(trace, t, longer);
      }
    } else {
      var longer := CanAnnounceAgain(trace, t);
      assert AnnouncesAgain(trace, t, longer);
    }
  }

  lemma {:induction false} NeverAgain(trace: seq<Auth>, t: TaskId, longer: seq<Auth>)
    requires |trace| > 0 && Run(trace) && trace[|trace| - 1].expired
    ensures !AnnouncesAgain(trace, t, longer)
  {
    var a := trace[|trace| - 1];
    if AnnouncesAgain(trace, t, longer) {
      var b := Log(Done(a, t), Emitted);
      RunKeeps(trace);
      assert longer[|trace|] == (trace + [b])[|trace|] == b;
      HistoryGrows(longer, |trace|);
      var i, h := |a.history|, longer[|longer| - 1].history;
      assert h[i] == b.history[i] == Emitted && h[..i] == b.history[..i] == a.history;
      var j :| i < j < |h| && h[j] == Emitted && !ClearedBetween(h, i, j);
      var claim := ExpiredOncePerClear(longer, i, j);
    }
  }

  lemma {:induction false} CanAnnounceAgain(trace: seq<Auth>, t: TaskId) returns (longer: seq<Auth>)
    requires |trace| > 0 && Run(trace) && At(trace[|trace| - 1], t, Announcing) && !trace[|trace| - 1].expired
    ensures AnnouncesAgain(trace, t, longer)
  {
    var a := trace[|trace| - 1];
    var stale := (s: string) => true;
    longer := Announced(trace, t);
    var first := longer;
    var u := FreshTask(longer[|longer| - 1].tasks);
    hide Run, TaskStep;
    longer := CallToGate(longer, u, stale);
    longer := RefusedCall(longer, u, stale);
    longer := Announced(longer, u);
    AgainHistory(a.history, a.tokens.refresh);
    assert first <= longer;
  }

  lemma {:induction false} AgainHistory(history: seq<Event>, r: string)
    ensures var i, h := |history|, history + [Emitted] + [Presented(r), Claimed] + [Emitted];
      h[i] == Emitted && i + 3 < |h| && h[i + 3] == Emitted && !ClearedBetween(h, i, i + 3)
  {
  }

  /** That happens: a platform update landing between the swap and the announcement lets two
  announcements follow it with no update between them. */
  lemma {:induction false} AnnouncedTwice() returns (trace: seq<Auth>)
    ensures |trace| > 0 && Run(trace)
    ensures var h := trace[|trace| - 1].history;
      exists i, j :: 0 <= i < j < |h| && h[i] == Emitted && h[j] == Emitted && !ClearedBetween(h, i, j)
  {
    var stale := (s: string) => true;
    trace := [Start(Tokens("a", "r"))];
    assert Run(trace);
    hide Run, TaskStep;
    trace := CallToGate(trace, 0, stale);
    trace := RefusedCall(trace, 0, stale);
    trace := Updated(trace, 0, Tokens("b", "s"));
    trace := CanAnnounceAgain(trace, 0);
  }

  lemma {:induction false} Announced(trace: seq<Auth>, t: TaskId) returns (longer: seq<Auth>)
    requires |trace| > 0 && Run(trace) && At(trace[|trace| - 1], t, Announcing)
    ensures longer == trace + [Log(Done(trace[|trace| - 1], t), Emitted)] && Run(longer)
  {
    var a := trace[|trace| - 1];
    longer := Extend(trace, t, s => true, Log(Done(a, t), Emitted));
  }

  /** A platform update lands between a task's swap and its announcement. */
  lemma {:induction false} Updated(trace: seq<Auth>, t: TaskId, next: Tokens) returns (longer: seq<Auth>)
    requires |trace| > 0 && Run(trace)
    requires var a := trace[|trace| - 1]; At(a, t, Announcing) && next.refresh !in a.spent && a.clearing == 0
    ensures |longer| > 0 && Run(longer)
    ensures var b := longer[|longer| - 1]; At(b, t, Announcing) && !b.expired
  {
    var a := trace[|trace| - 1];
    hide Run;
    var b := a.(tokens := next, clearing := 1);
    longer := ExtendUpdate(trace, next, b);
    var c := Log(b, Cleared).(expired := false, clearing := 0);
    longer := ExtendClear(longer, c);
  }

  lemma {:induction false} ExtendUpdate(trace: seq<Auth>, next: Tokens, a: Auth) returns (longer: seq<Auth>)
    requires Run(trace) && Update(trace[|trace| - 1], next, a)
    ensures |longer| > 0 && Run(longer) && longer[|longer| - 1] == a
  {
    longer := trace + [a];
    assert longer[..|longer| - 1] == trace;
  }

  lemma {:induction false} ExtendClear(trace: seq<Auth>, a: Auth) returns (longer: seq<Auth>)
    requires Run(trace) && Clear(trace[|trace| - 1], a)
    ensures |longer| > 0 && Run(longer) && longer[|longer| - 1] == a
  {
    longer := trace + [a];
    assert longer[..|longer| - 1] == trace;
  }
}
