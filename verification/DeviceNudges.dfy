/** Durable wake-ups for a device's host: fenced receipts, bounded replay, and the choice of the
live host socket (edge/src/device-nudges.ts; edge/src/device-room.ts:153-287, 342-353). */
module DeviceNudges {
  import opened Wrappers
  import opened Hlc

  const NUDGE_PAGE := 64
  const NUDGE_CAP := 4096
  const HOST_LIVENESS_MS := 75_000

  /** The chat id under which the reconcile receipt travels; no chat id contains a star. */
  const RECONCILE := "*"

  type Token = string
  type SocketId = nat

  datatype Pending = Pending(queuedAt: int, token: Token)

  datatype Nudge = Nudge(chatId: string, token: Token)

  /** A host socket's attachment, and what was sent on it. */
  datatype Host = Host(nudgeAck: bool, inflight: set<Token>, sent: seq<Nudge>)

  type Queue = map<string, Pending>

  /** The listing order: by age, then by chat id, compared as strings. */
  predicate Before(queue: Queue, c: string, d: string)
    requires c in queue && d in queue
  {
    queue[c].queuedAt < queue[d].queuedAt || (queue[c].queuedAt == queue[d].queuedAt && !StrLess(d, c))
  }

  lemma {:induction false} BeforeIsOrder(queue: Queue, a: string, b: string, c: string)
    requires a in queue && b in queue && c in queue
    ensures Before(queue, a, a) && (Before(queue, a, b) || Before(queue, b, a))
    ensures Before(queue, a, b) && Before(queue, b, c) ==> Before(queue, a, c)
  {
    PositionOrder(a, a);
    PositionOrder(a, b);
    PositionOrder(b, a);
    PositionOrder(c, b);
    PositionOrder(c, a);
  }

  lemma {:induction false} OldestExists(queue: Queue, rest: set<string>)
    requires rest != {} && rest <= queue.Keys
    ensures exists c :: c in rest && forall d :: d in rest ==> Before(queue, c, d)
    decreases |rest|
  {
    hide Before;
    var x :| x in rest;
    var more := rest - {x};
    if more == {} {
      assert rest == {x};
      BeforeIsOrder(queue, x, x, x);
    } else {
      OldestExists(queue, more);
      var y :| y in more && forall d :: d in more ==> Before(queue, y, d);
      BeforeIsOrder(queue, x, y, x);
      var c := if Before(queue, x, y) then x else y;
      forall d | d in rest ensures Before(queue, c, d) {
        BeforeIsOrder(queue, x, y, d);
        assert d == x || d in more;
      }
    }
  }

  predicate Ahead(queue: Queue, a: Nudge, b: Nudge) {
    a.chatId != b.chatId && (a.chatId in queue && b.chatId in queue ==> Before(queue, a.chatId, b.chatId))
  }

  /** A row of the queue, and no row outside `listed` comes before it. */
  ghost predicate Among(queue: Queue, a: Nudge, listed: set<string>) {
    && a.chatId in queue && queue[a.chatId].token == a.token
    && forall c :: c in queue && c !in listed ==> Before(queue, a.chatId, c)
  }

  /** The first rows of the queue, in listing order. */
  ghost predicate OldestFirst(list: seq<Nudge>, queue: Queue) {
    && (forall i :: 0 <= i < |list| ==> Among(queue, list[i], Chats(list)))
    && (forall i, j {:trigger Ahead(queue, list[i], list[j])} :: 0 <= i < j < |list| ==> Ahead(queue, list[i], list[j]))
  }

  function Chats(list: seq<Nudge>): set<string> {
    set i | 0 <= i < |list| :: list[i].chatId
  }

  lemma {:induction false} ChatsLast(list: seq<Nudge>, row: Nudge)
    ensures Chats(list + [row]) == Chats(list) + {row.chatId}
  {
    var more := list + [row];
    assert more[|list|] == row;
    forall c | c in Chats(list) ensures c in Chats(more) {
      var i :| 0 <= i < |list| && list[i].chatId == c;
      assert more[i].chatId == c;
    }
  }

  lemma {:induction false} ChatsConcat(x: seq<Nudge>, y: seq<Nudge>)
    ensures Chats(x + y) == Chats(x) + Chats(y)
  {
    forall c | c in Chats(x) + Chats(y) ensures c in Chats(x + y) {
      if i :| 0 <= i < |x| && x[i].chatId == c {
        assert (x + y)[i].chatId == c;
      } else {
        var i :| 0 <= i < |y| && y[i].chatId == c;
        assert (x + y)[|x| + i].chatId == c;
      }
    }
  }

  lemma {:induction false} OldestStep(list: seq<Nudge>, queue: Queue, c: string)
    requires OldestFirst(list, queue) && c in queue && c !in Chats(list)
    requires forall d :: d in queue && d !in Chats(list) ==> Before(queue, c, d)
    ensures OldestFirst(list + [Nudge(c, queue[c].token)], queue)
  {
    hide Before;
    var row := Nudge(c, queue[c].token);
    var more := list + [row];
    ChatsLast(list, row);
    forall i | 0 <= i < |more| ensures Among(queue, more[i], Chats(more)) {
      if i < |list| {
        assert Among(queue, list[i], Chats(list));
      }
    }
    forall i, j | 0 <= i < j < |more| ensures Ahead(queue, more[i], more[j]) {
      if j < |list| {
        assert Ahead(queue, list[i], list[j]);
      } else {
        assert Among(queue, list[i], Chats(list)) && list[i].chatId in Chats(list);
      }
    }
  }

  /** No row outside the list is older than a listed one, or as old and of an earlier chat id; and the
  list itself is in that order. */
  ghost predicate ByAge(list: seq<Nudge>, queue: Queue) {
    && (forall i :: 0 <= i < |list| ==> list[i].chatId in queue && list[i].token == queue[list[i].chatId].token)
    && (forall i, c :: 0 <= i < |list| && c in queue && c !in Chats(list) ==> NotYounger(queue, list[i].chatId, c))
    && (forall i, j :: 0 <= i < j < |list| ==> list[i].chatId != list[j].chatId && NotYounger(queue, list[i].chatId, list[j].chatId))
  }

  ghost predicate NotYounger(queue: Queue, c: string, d: string) {
    c in queue && d in queue &&
    (queue[c].queuedAt < queue[d].queuedAt || (queue[c].queuedAt == queue[d].queuedAt && Position(c) <= Position(d)))
  }

  lemma {:induction false} OldestByAge(list: seq<Nudge>, queue: Queue)
    requires OldestFirst(list, queue)
    ensures ByAge(list, queue)
  {
    forall i | 0 <= i < |list|
      ensures list[i].chatId in queue && list[i].token == queue[list[i].chatId].token
      ensures forall c :: c in queue && c !in Chats(list) ==> NotYounger(queue, list[i].chatId, c)
    {
      assert Among(queue, list[i], Chats(list));
      forall c | c in queue && c !in Chats(list) ensures NotYounger(queue, list[i].chatId, c) {
        BeforeIsAge(queue, list[i].chatId, c);
      }
    }
    forall i, j | 0 <= i < j < |list| ensures list[i].chatId != list[j].chatId && NotYounger(queue, list[i].chatId, list[j].chatId) {
      assert Ahead(queue, list[i], list[j]) && list[i].chatId in queue && list[j].chatId in queue;
      BeforeIsAge(queue, list[i].chatId, list[j].chatId);
    }
  }

  lemma {:induction false} BeforeIsAge(queue: Queue, c: string, d: string)
    requires c in queue && d in queue
    ensures Before(queue, c, d) <==> NotYounger(queue, c, d)
  {
    PositionOrder(d, c);
  }

  method Oldest(queue: Queue, limit: nat) returns (list: seq<Nudge>)
    ensures OldestFirst(list, queue) && ByAge(list, queue)
    ensures |list| == if |queue| < limit then |queue| else limit
  {
    list := [];
    var rest := queue.Keys;
    hide OldestFirst, Chats, ByAge;
    assert Chats([]) == {} && OldestFirst([], queue) by {
      NothingListed(queue);
    }
    while rest != {} && |list| < limit
      invariant rest == queue.Keys - Chats(list) && |rest| + |list| == |queue| && |list| <= limit
      invariant OldestFirst(list, queue)
      decreases |rest|
    {
      OldestExists(queue, rest);
      var c :| c in rest && forall d :: d in rest ==> Before(queue, c, d);
      OldestStep(list, queue, c);
      ChatsLast(list, Nudge(c, queue[c].token));
      list, rest := list + [Nudge(c, queue[c].token)], rest - {c};
    }
    OldestByAge(list, queue);
  }

  lemma {:induction false} NothingListed(queue: Queue)
    ensures Chats([]) == {} && OldestFirst([], queue)
  {
  }

  /** No socket has more than a page in flight. */
  ghost predicate InflightBounded(hosts: map<SocketId, Host>) {
    forall h :: h in hosts ==> |hosts[h].inflight| <= NUDGE_PAGE
  }

  lemma {:induction false} FewerInFlight(hosts: map<SocketId, Host>, h: SocketId, t: Token)
    requires InflightBounded(hosts) && h in hosts
    ensures |hosts[h].inflight - {t}| <= NUDGE_PAGE
  {
    var inflight := hosts[h].inflight;
    assert inflight == (inflight - {t}) + (inflight * {t});
  }

  lemma {:induction false} HostChanged(hosts: map<SocketId, Host>, h: SocketId, after: Host)
    requires InflightBounded(hosts) && |after.inflight| <= NUDGE_PAGE
    ensures InflightBounded(hosts[h := after])
  {
  }

  lemma {:induction false} QueueGrows(queue: Queue, c: string, p: Pending)
    ensures |queue[c := p]| == if c in queue then |queue| else |queue| + 1
  {
    var after := queue[c := p];
    assert after.Keys == queue.Keys + {c};
    assert |after| == |after.Keys| && |queue| == |queue.Keys|;
  }

  /** The oldest rows, up to a page, were sent in order and left the queue; nothing else did. */
  ghost predicate HandedOver(before: Queue, after: Queue, sent: seq<Nudge>) {
    && OldestFirst(sent, before) && ByAge(sent, before) && after == before - Chats(sent)
    && |sent| == if |before| < NUDGE_PAGE then |before| else NUDGE_PAGE
  }

  /** What a replay may touch. */
  datatype Books = Books(
    pending: Queue, reconcile: Option<Token>, hosts: map<SocketId, Host>, delivered: set<Token>)

  /** The books after an ACK frame: the receipt of that very token goes, and its slot is free. */
  function Acked(b: Books, host: SocketId, chatId: string, token: Token): (b': Books)
    requires host in b.hosts
    ensures host in b'.hosts && b'.hosts[host].nudgeAck == b.hosts[host].nudgeAck
  {
    Books(
      if chatId in b.pending && b.pending[chatId].token == token then b.pending - {chatId} else b.pending,
      if chatId == RECONCILE && b.reconcile == Some(token) then None else b.reconcile,
      b.hosts[host := b.hosts[host].(inflight := b.hosts[host].inflight - {token})],
      b.delivered)
  }

  /** The rows of a list whose receipts are not held yet. */
  function Fresh(list: seq<Nudge>, held: set<Token>): seq<Nudge>
    decreases |list|
  {
    if list == [] then []
    else
      var front, last := list[..|list| - 1], list[|list| - 1];
      Fresh(front, held) + if last.token in held + Tokens(front) then [] else [last]
  }

  /** Each receipt newly in flight was sent exactly once, and no other. */
  ghost predicate EachOnce(more: seq<Nudge>, was: set<Token>, now: set<Token>) {
    && was <= now
    && (forall i :: 0 <= i < |more| ==> more[i].token in now - was)
    && (forall i, j :: 0 <= i < j < |more| ==> more[i].token != more[j].token)
    && (forall t :: t in now - was ==> Sent(more, t))
  }

  lemma {:induction false} FreshOnce(list: seq<Nudge>, held: set<Token>)
    ensures EachOnce(Fresh(list, held), held, held + Tokens(list))
    decreases |list|
  {
    if list == [] {
      assert Tokens([]) == {};
    } else {
      var front, last := list[..|list| - 1], list[|list| - 1];
      FreshOnce(front, held);
      assert list == front + [last];
      TokensLast(front, last);
      SentMore(Fresh(front, held), last);
      var before := Fresh(front, held);
      if last.token in held + Tokens(front) {
        assert before + [] == before && Tokens(list) <= held + Tokens(front);
      } else {
        var more := before + [last];
        forall i | 0 <= i < |more| ensures more[i].token in held + Tokens(list) - held {
          assert i < |before| ==> more[i] == before[i] && before[i].token in held + Tokens(front) - held;
        }
        forall i, j | 0 <= i < j < |more| ensures more[i].token != more[j].token {
          assert before[i].token in held + Tokens(front) - held;
        }
      }
      hide Tokens, Sent;
    }
  }

  lemma {:induction false} SentMore(sent: seq<Nudge>, row: Nudge)
    ensures forall t :: Sent(sent + [row], t) <==> Sent(sent, t) || t == row.token
  {
    var more := sent + [row];
    assert more[|sent|] == row;
    forall t | Sent(sent, t) ensures Sent(more, t) {
      var i :| 0 <= i < |sent| && sent[i].token == t;
      assert more[i].token == t;
    }
  }

  /** The listing was served from its front, whatever was not in flight yet, to its end or until the
  page was full. */
  ghost predicate Served(list: seq<Nudge>, pending: Queue, reconcile: Option<Token>, was: Host, now: Host) {
    Listed(list, pending, reconcile) && exists n: nat :: ServedUpTo(list, n, was, now)
  }

  ghost predicate ServedUpTo(list: seq<Nudge>, n: nat, was: Host, now: Host) {
    && n <= |list| && (n == |list| || |now.inflight| == NUDGE_PAGE)
    && now == Serving(list[..n], was)
  }

  function Serving(list: seq<Nudge>, was: Host): Host {
    was.(inflight := was.inflight + Tokens(list), sent := was.sent + Fresh(list, was.inflight))
  }

  /** A replay to one host. A host that acknowledges is offered what waits, and nothing leaves the
  queue; an older one takes a page of rows for good. */
  ghost predicate Replayed(b: Books, host: SocketId, b': Books)
    requires host in b.hosts
  {
    && b'.hosts.Keys == b.hosts.Keys && b'.reconcile == b.reconcile
    && (forall h :: h in b.hosts && h != host ==> b'.hosts[h] == b.hosts[h])
    && var was, now := b.hosts[host], b'.hosts[host];
       && now.nudgeAck == was.nudgeAck && was.sent <= now.sent
       && var more := now.sent[|was.sent|..];
          if was.nudgeAck then
            && b'.pending == b.pending && b'.delivered == b.delivered
            && (|now.inflight| == NUDGE_PAGE || Offered(b.pending, b.reconcile, now.inflight))
            && EachOnce(more, was.inflight, now.inflight)
            && exists list :: Served(list, b.pending, b.reconcile, was, now)
          else
            && now.inflight == was.inflight && HandedOver(b.pending, b'.pending, more)
            && b'.delivered == b.delivered + Tokens(more)
  }

  /** The books once these rows went to one host for good. */
  function Given(b: Books, host: SocketId, rows: seq<Nudge>): (b': Books)
    requires host in b.hosts
    ensures host in b'.hosts && b'.hosts[host].nudgeAck == b.hosts[host].nudgeAck
  {
    Books(
      b.pending - Chats(rows), b.reconcile,
      b.hosts[host := b.hosts[host].(sent := b.hosts[host].sent + rows)], b.delivered + Tokens(rows))
  }

  lemma {:induction false} GivenNothing(b: Books, host: SocketId)
    requires host in b.hosts
    ensures Given(b, host, []) == b
  {
    assert b.hosts[host].sent + [] == b.hosts[host].sent;
    assert Chats([]) == {} && Tokens([]) == {};
  }

  lemma {:induction false} GivenOne(b: Books, host: SocketId, row: Nudge)
    requires host in b.hosts
    ensures Given(b, host, [row]) == Books(
      b.pending - {row.chatId}, b.reconcile,
      b.hosts[host := b.hosts[host].(sent := b.hosts[host].sent + [row])], b.delivered + {row.token})
  {
    ChatsLast([], row);
    TokensLast([], row);
    assert [] + [row] == [row] && Chats([]) == {} && Tokens([]) == {};
  }

  lemma {:induction false} GivenMore(b: Books, host: SocketId, rows: seq<Nudge>, row: Nudge)
    requires host in b.hosts
    ensures Given(Given(b, host, rows), host, [row]) == Given(b, host, rows + [row])
  {
    assert b.hosts[host].sent + (rows + [row]) == b.hosts[host].sent + rows + [row];
    ChatsLast(rows, row);
    TokensLast(rows, row);
    GivenOne(Given(b, host, rows), host, row);
    assert b.pending - Chats(rows) - {row.chatId} == b.pending - (Chats(rows) + {row.chatId});
  }

  lemma {:induction false} GivenIsReplay(b: Books, host: SocketId, rows: seq<Nudge>)
    requires host in b.hosts && !b.hosts[host].nudgeAck && HandedOver(b.pending, b.pending - Chats(rows), rows)
    ensures Replayed(b, host, Given(b, host, rows))
  {
    hide HandedOver;
    assert (b.hosts[host].sent + rows)[|b.hosts[host].sent|..] == rows;
  }

  function Tokens(list: seq<Nudge>): set<Token> {
    set i | 0 <= i < |list| :: list[i].token
  }

  lemma {:induction false} TokensLast(list: seq<Nudge>, row: Nudge)
    ensures Tokens(list + [row]) == Tokens(list) + {row.token}
  {
    var more := list + [row];
    assert more[|list|] == row;
    forall t | t in Tokens(list) ensures t in Tokens(more) {
      var i :| 0 <= i < |list| && list[i].token == t;
      assert more[i].token == t;
    }
  }

  /** Each of these receipts was sent to a host too old to acknowledge. */
  ghost predicate AllSent(delivered: set<Token>, hosts: map<SocketId, Host>) {
    forall t :: t in delivered ==> exists h :: SentTo(hosts, h, t)
  }

  predicate SentTo(hosts: map<SocketId, Host>, h: SocketId, t: Token) {
    h in hosts && !hosts[h].nudgeAck && Sent(hosts[h].sent, t)
  }

  lemma {:induction false} StillSent(delivered: set<Token>, hosts: map<SocketId, Host>, hosts': map<SocketId, Host>)
    requires AllSent(delivered, hosts)
    requires forall h :: h in hosts ==> h in hosts' && hosts'[h].nudgeAck == hosts[h].nudgeAck && hosts[h].sent <= hosts'[h].sent
    ensures AllSent(delivered, hosts')
  {
    forall t | t in delivered ensures exists h :: SentTo(hosts', h, t) {
      var h :| SentTo(hosts, h, t);
      var i :| 0 <= i < |hosts[h].sent| && hosts[h].sent[i].token == t;
      assert hosts'[h].sent[i].token == t;
      assert SentTo(hosts', h, t);
    }
  }

  /** A wake stays queued until its own receipt, or a later one for the chat, is acknowledged or
  delivered for good. */
  ghost predicate WakesKept(pending: Queue, accepted: map<string, Token>, retired: set<Token>) {
    && (forall c :: c in pending ==> c in accepted && pending[c].token == accepted[c])
    && (forall c :: c in accepted ==> c in pending || accepted[c] in retired)
  }

  /** A refusal leaves a receipt that stays until it is acknowledged. */
  ghost predicate RefusalKept(reconcile: Option<Token>, refused: Option<Token>, acked: set<Token>) {
    && (reconcile.Some? ==> refused == reconcile)
    && (refused.Some? ==> reconcile == refused || refused.value in acked)
  }

  lemma {:induction false} WakeAccepted(pending: Queue, accepted: map<string, Token>, retired: set<Token>, c: string, p: Pending)
    requires WakesKept(pending, accepted, retired)
    ensures WakesKept(pending[c := p], accepted[c := p.token], retired)
  {
  }

  class DeviceRoom {
    var pending: Queue
    var reconcile: Option<Token>
    var hosts: map<SocketId, Host>
    ghost var minted: set<Token>
    /** The newest wake accepted for each chat, and the newest refusal. */
    ghost var accepted: map<string, Token>
    ghost var refused: Option<Token>
    /** The tokens of the ACK frames received. */
    ghost var acked: set<Token>
    /** The receipts sent to hosts too old to acknowledge. */
    ghost var delivered: set<Token>

    ghost predicate NoLostWake()
      reads `pending, `reconcile, `accepted, `refused, `acked, `delivered
    {
      WakesKept(pending, accepted, acked + delivered) && RefusalKept(reconcile, refused, acked)
    }

    ghost function Now(): Books
      reads this
    {
      Books(pending, reconcile, hosts, delivered)
    }

    ghost predicate Valid()
      reads this
    {
      && NoLostWake() && |pending| <= NUDGE_CAP && RECONCILE !in pending
      && (forall c :: c in accepted ==> accepted[c] in minted) && (refused.Some? ==> refused.value in minted)
      && AllSent(delivered, hosts) && InflightBounded(hosts)
    }

    constructor ()
      ensures Valid() && Now() == Books(map[], None, map[], {}) && acked == {}
    {
      pending, reconcile, hosts, minted, accepted, refused, acked, delivered := map[], None, map[], {}, map[], None, {}, {};
    }

    /** Queue a wake under a fresh token, or leave a reconcile receipt when the queue is full. */
    method EnqueueNudge(chatId: string, now: int, token: Token) returns (queued: bool)
      requires Valid() && chatId != RECONCILE && token !in minted
      modifies `pending, `reconcile, `minted, `accepted, `refused
      ensures Valid() && minted == old(minted) + {token}
      ensures queued <==> chatId in old(pending) || |old(pending)| < NUDGE_CAP
      ensures pending == if queued then old(pending)[chatId := Pending(now, token)] else old(pending)
      ensures accepted == if queued then old(accepted)[chatId := token] else old(accepted)
      ensures queued ==> reconcile == old(reconcile) && refused == old(refused)
      ensures !queued ==> reconcile == Some(token) && refused == Some(token)
    {
      hide AllSent, InflightBounded, WakesKept;
      minted := minted + {token};
      if chatId !in pending && |pending| >= NUDGE_CAP {
        reconcile, refused := Some(token), Some(token);
        return false;
      }
      WakeAccepted(pending, accepted, acked + delivered, chatId, Pending(now, token));
      QueueGrows(pending, chatId, Pending(now, token));
      pending := pending[chatId := Pending(now, token)];
      accepted := accepted[chatId := token];
      return true;
    }

    /** Retire the receipt of that very token, once it was acknowledged or delivered; a stale one
    removes nothing. */
    method AcknowledgeNudge(chatId: string, token: Token)
      requires Valid() && token in acked + delivered && (chatId == RECONCILE ==> token in acked)
      modifies `pending, `reconcile
      ensures Valid()
      ensures pending == (if chatId in old(pending) && old(pending)[chatId].token == token then old(pending) - {chatId} else old(pending))
      ensures reconcile == if chatId == RECONCILE && old(reconcile) == Some(token) then None else old(reconcile)
    {
      if chatId == RECONCILE {
        if reconcile == Some(token) {
          reconcile := None;
        }
      } else if chatId in pending && pending[chatId].token == token {
        ghost var before := pending;
        pending := pending - {chatId};
        assert pending.Keys == before.Keys - {chatId};
        assert |pending| == |pending.Keys| && |before| == |before.Keys|;
      }
    }

    method PendingNudges() returns (list: seq<Nudge>)
      requires Valid()
      ensures Listed(list, pending, reconcile)
    {
      var rows := Oldest(pending, NUDGE_PAGE * 2);
      list := (if reconcile.Some? then [Nudge(RECONCILE, reconcile.value)] else []) + rows;
      assert list[|list| - |rows|..] == rows;
    }

    /** Send what the host has not got, up to a page in flight. A host that cannot acknowledge gets
    up to a page for good, and no reconcile receipt. */
    method ReplayNudges(host: SocketId)
      requires Valid() && host in hosts
      modifies `pending, `reconcile, `hosts, `delivered
      ensures Valid() && Replayed(old(Now()), host, Now())
    {
      hide NoLostWake, Listed, AllSent, InflightBounded, Replayed;
      var list := PendingNudges();
      if hosts[host].nudgeAck {
        OfferTo(host, list);
      } else {
        TakeLegacy(host, list);
      }
    }

    method OfferTo(host: SocketId, list: seq<Nudge>)
      requires Valid() && host in hosts && hosts[host].nudgeAck && Listed(list, pending, reconcile)
      modifies `hosts
      ensures Valid() && Replayed(old(Now()), host, Now())
    {
      hide NoLostWake, Listed, AllSent, Offered, ServedUpTo, EachOnce;
      ghost var books := Now();
      var state := hosts[host];
      var after := Offer(list, state);
      OfferedAll(list, pending, reconcile, after.inflight);
      ghost var n: nat :| ServedUpTo(list, n, state, after);
      ServedKeeps(list, n, state, after);
      assert Served(list, pending, reconcile, state, after);
      StillSent(delivered, hosts, hosts[host := after]);
      HostChanged(hosts, host, after);
      hosts := hosts[host := after];
    }

    /** Hand up to a page of rows over for good. */
    method TakeLegacy(host: SocketId, list: seq<Nudge>)
      requires Valid() && host in hosts && !hosts[host].nudgeAck && Listed(list, pending, reconcile)
      modifies `pending, `reconcile, `hosts, `delivered
      ensures Valid() && Replayed(old(Now()), host, Now())
    {
      var rows := if list != [] && list[0].chatId == RECONCILE then list[1..] else list;
      LegacyRows(list, rows, pending, reconcile);
      var n := if |rows| < NUDGE_PAGE then |rows| else NUDGE_PAGE;
      AllDelivered(rows, pending, n);
      GivenIsReplay(Now(), host, rows[..n]);
      hide NoLostWake, OldestFirst, Listed, InflightBounded, AllSent, Given, Replayed, HandedOver;
      DeliverRows(host, rows, n);
    }

    method DeliverRows(host: SocketId, rows: seq<Nudge>, n: nat)
      requires Valid() && host in hosts && !hosts[host].nudgeAck && OldestFirst(rows, pending) && n <= |rows|
      modifies `pending, `reconcile, `hosts, `delivered
      ensures Valid() && Now() == Given(old(Now()), host, rows[..n])
    {
      ghost var books := Now();
      GivenNothing(books, host);
      assert rows[..0] == [];
      for i := 0 to n
        invariant Valid() && Now() == Given(books, host, rows[..i])
      {
        hide NoLostWake, AllSent, InflightBounded, OldestFirst, Tokens;
        var row := rows[i];
        RowLeft(rows, books.pending, i);
        GivenMore(books, host, rows[..i], row);
        hide Chats;
        HandOver(host, row);
      }
    }

    /** One row goes to a host that cannot acknowledge it, and off the queue. */
    method HandOver(host: SocketId, row: Nudge)
      requires Valid() && host in hosts && !hosts[host].nudgeAck
      requires row.chatId in pending && pending[row.chatId].token == row.token
      modifies `pending, `reconcile, `hosts, `delivered
      ensures Valid() && Now() == Given(old(Now()), host, [row])
    {
      GivenOne(Now(), host, row);
      hide NoLostWake, AllSent, InflightBounded, Given;
      Deliver(host, row);
      AcknowledgeNudge(row.chatId, row.token);
    }

    method Deliver(host: SocketId, row: Nudge)
      requires Valid() && host in hosts && !hosts[host].nudgeAck
      modifies `hosts, `delivered
      ensures Valid() && delivered == old(delivered) + {row.token}
      ensures hosts == old(hosts)[host := old(hosts)[host].(sent := old(hosts)[host].sent + [row])]
    {
      var state := hosts[host];
      var after := state.(sent := state.sent + [row]);
      var next := hosts[host := after];
      StillSent(delivered, hosts, next);
      HostChanged(hosts, host, after);
      assert after.sent[|state.sent|] == row;
      assert SentTo(next, host, row.token);
      hosts, delivered := next, delivered + {row.token};
    }

    /** A host joins and is sent what waits. */
    method JoinHost(host: SocketId, nudgeAck: bool)
      requires Valid() && host !in hosts
      modifies `pending, `reconcile, `hosts, `delivered
      ensures Valid()
      ensures Replayed(old(Now()).(hosts := old(hosts)[host := Host(nudgeAck, {}, [])]), host, Now())
    {
      var next := hosts[host := Host(nudgeAck, {}, [])];
      StillSent(delivered, hosts, next);
      HostChanged(hosts, host, next[host]);
      hide NoLostWake, AllSent, InflightBounded, Replayed;
      hosts := next;
      ReplayNudges(host);
    }

    /** The timer offers everything again. */
    method Alarm(host: Option<SocketId>)
      requires Valid() && (host.Some? ==> host.value in hosts)
      modifies `pending, `reconcile, `hosts, `delivered
      ensures Valid()
      ensures host == None ==> Now() == old(Now())
      ensures host.Some? ==>
        Replayed(old(Now()).(hosts := old(hosts)[host.value := old(hosts)[host.value].(inflight := {})]), host.value, Now())
    {
      if host.Some? {
        var next := hosts[host.value := hosts[host.value].(inflight := {})];
        StillSent(delivered, hosts, next);
        HostChanged(hosts, host.value, next[host.value]);
        hide NoLostWake, AllSent, InflightBounded, Replayed;
        hosts := next;
        ReplayNudges(host.value);
      }
    }

    /** A host acknowledges: its receipt is retired if it is the current one, its slot freed, and
    what waits offered again. */
    method ReceiveAck(host: SocketId, chatId: string, token: Token)
      requires Valid() && host in hosts && hosts[host].nudgeAck
      modifies `pending, `reconcile, `hosts, `delivered, `acked
      ensures Valid() && acked == old(acked) + {token}
      ensures Replayed(Acked(old(Now()), host, chatId, token), host, Now())
    {
      TakeAck(host, chatId, token);
      hide NoLostWake, InflightBounded, AllSent, Replayed, Acked;
      ReplayNudges(host);
    }

    method TakeAck(host: SocketId, chatId: string, token: Token)
      requires Valid() && host in hosts
      modifies `pending, `reconcile, `hosts, `acked
      ensures Valid() && acked == old(acked) + {token} && Now() == Acked(old(Now()), host, chatId, token)
    {
      acked := acked + {token};
      hide NoLostWake, InflightBounded, AllSent;
      AcknowledgeNudge(chatId, token);
      FreeSlot(host, token);
    }

    method FreeSlot(host: SocketId, token: Token)
      requires Valid() && host in hosts
      modifies `hosts
      ensures Valid() && hosts == old(hosts)[host := old(hosts)[host].(inflight := old(hosts)[host].inflight - {token})]
    {
      var state := hosts[host];
      var after := state.(inflight := state.inflight - {token});
      FewerInFlight(hosts, host, token);
      HostChanged(hosts, host, after);
      StillSent(delivered, hosts, hosts[host := after]);
      hide AllSent, InflightBounded;
      hosts := hosts[host := after];
    }

    /** A sender's nudge: queue it, then push what the live host lacks. */
    method PostNudge(chatId: string, now: int, token: Token, host: Option<SocketId>) returns (queued: bool)
      requires Valid() && chatId != RECONCILE && token !in minted && (host.Some? ==> host.value in hosts)
      modifies `pending, `reconcile, `hosts, `delivered, `minted, `accepted, `refused
      ensures Valid() && minted == old(minted) + {token}
      ensures queued <==> chatId in old(pending) || |old(pending)| < NUDGE_CAP
      ensures accepted == if queued then old(accepted)[chatId := token] else old(accepted)
      ensures refused == if queued then old(refused) else Some(token)
      ensures var kept := old(Now()).(
          pending := if queued then old(pending)[chatId := Pending(now, token)] else old(pending),
          reconcile := if queued then old(reconcile) else Some(token));
        if host == None then Now() == kept else Replayed(kept, host.value, Now())
    {
      hide NoLostWake, AllSent, InflightBounded, Replayed;
      queued := EnqueueNudge(chatId, now, token);
      if host.Some? {
        ReplayNudges(host.value);
      }
    }
  }

  /** The reconcile receipt, if any, then the oldest rows, at most two pages of them. */
  ghost predicate Listed(list: seq<Nudge>, pending: Queue, reconcile: Option<Token>) {
    var n := if reconcile.Some? then 1 else 0;
    && |list| == n + (if |pending| < NUDGE_PAGE * 2 then |pending| else NUDGE_PAGE * 2)
    && (reconcile.Some? ==> list[0] == Nudge(RECONCILE, reconcile.value))
    && OldestFirst(list[n..], pending)
  }

  predicate Sent(sent: seq<Nudge>, t: Token) {
    exists i :: 0 <= i < |sent| && sent[i].token == t
  }

  /** Everything waiting is in flight on this socket. */
  ghost predicate Offered(pending: Queue, reconcile: Option<Token>, inflight: set<Token>) {
    && (reconcile.Some? ==> reconcile.value in inflight)
    && (|pending| <= NUDGE_PAGE * 2 ==> forall c :: c in pending ==> pending[c].token in inflight)
  }

  /** The replay loop for a host that acknowledges. */
  method Offer(list: seq<Nudge>, state: Host) returns (after: Host)
    requires |state.inflight| <= NUDGE_PAGE
    ensures exists n: nat :: ServedUpTo(list, n, state, after)
    ensures |after.inflight| <= NUDGE_PAGE
    ensures |after.inflight| == NUDGE_PAGE || forall i :: 0 <= i < |list| ==> list[i].token in after.inflight
  {
    after := state;
    NothingServed(state);
    hide Serving;
    assert list[..0] == [];
    for i := 0 to |list|
      invariant after == Serving(list[..i], state)
      invariant |after.inflight| <= NUDGE_PAGE
      invariant forall j :: 0 <= j < i ==> list[j].token in after.inflight
    {
      var row := list[i];
      assert list[..i + 1] == list[..i] + [row];
      ServeNext(list[..i], row, state);
      if row.token !in after.inflight {
        if |after.inflight| >= NUDGE_PAGE {
          assert ServedUpTo(list, i, state, after);
          return;
        }
        after := after.(inflight := after.inflight + {row.token}, sent := after.sent + [row]);
      }
    }
    assert list[..|list|] == list;
    assert ServedUpTo(list, |list|, state, after);
  }

  lemma {:induction false} NothingServed(state: Host)
    ensures Serving([], state) == state
  {
    assert Tokens([]) == {} && state.sent + [] == state.sent;
  }

  lemma {:induction false} ServeNext(front: seq<Nudge>, row: Nudge, state: Host)
    ensures var so := Serving(front, state);
      Serving(front + [row], state) == if row.token in so.inflight then so else so.(inflight := so.inflight + {row.token}, sent := so.sent + [row])
  {
    var so, more := Serving(front, state), front + [row];
    TokensLast(front, row);
    assert more[..|front|] == front;
    hide Tokens;
    assert state.inflight + (Tokens(front) + {row.token}) == so.inflight + {row.token};
    if row.token in so.inflight {
      assert so.inflight + {row.token} == so.inflight;
    } else {
      assert state.sent + (Fresh(front, state.inflight) + [row]) == so.sent + [row];
    }
  }

  lemma {:induction false} ServedKeeps(list: seq<Nudge>, n: nat, was: Host, now: Host)
    requires ServedUpTo(list, n, was, now)
    ensures now.nudgeAck == was.nudgeAck && was.sent <= now.sent
    ensures EachOnce(now.sent[|was.sent|..], was.inflight, now.inflight)
  {
    FreshOnce(list[..n], was.inflight);
    assert now.sent[|was.sent|..] == Fresh(list[..n], was.inflight);
    hide EachOnce;
  }

  lemma {:induction false} OfferedAll(list: seq<Nudge>, pending: Queue, reconcile: Option<Token>, inflight: set<Token>)
    requires Listed(list, pending, reconcile)
    requires |inflight| == NUDGE_PAGE || forall i :: 0 <= i < |list| ==> list[i].token in inflight
    ensures |inflight| == NUDGE_PAGE || Offered(pending, reconcile, inflight)
  {
    if |inflight| != NUDGE_PAGE && |pending| <= NUDGE_PAGE * 2 {
      var n := if reconcile.Some? then 1 else 0;
      var rows := list[n..];
      AllListed(rows, pending);
      forall c | c in pending ensures pending[c].token in inflight {
        assert c in Chats(rows);
        var i :| 0 <= i < |rows| && rows[i].chatId == c;
        assert list[n + i] == rows[i] && Among(pending, rows[i], Chats(rows));
      }
    }
  }

  /** A list of distinct rows as long as the queue holds all of it. */
  lemma {:induction false} AllListed(rows: seq<Nudge>, pending: Queue)
    requires OldestFirst(rows, pending) && |rows| == |pending|
    ensures Chats(rows) == pending.Keys
  {
    DistinctCount(rows, pending);
    forall c | c in Chats(rows) ensures c in pending {
      var i :| 0 <= i < |rows| && rows[i].chatId == c;
      assert Among(pending, rows[i], Chats(rows));
    }
    assert |pending| == |pending.Keys|;
    SubsetFull(Chats(rows), pending.Keys);
  }

  /** The row at `i` is still queued when the rows before it are gone. */
  lemma {:induction false} RowLeft(rows: seq<Nudge>, queue: Queue, i: nat)
    requires OldestFirst(rows, queue) && i < |rows|
    ensures rows[i].chatId in queue && queue[rows[i].chatId].token == rows[i].token && rows[i].chatId !in Chats(rows[..i])
    ensures rows[..i + 1] == rows[..i] + [rows[i]] && Chats(rows[..i + 1]) == Chats(rows[..i]) + {rows[i].chatId}
  {
    assert Among(queue, rows[i], Chats(rows));
    assert rows[..i + 1] == rows[..i] + [rows[i]];
    ChatsLast(rows[..i], rows[i]);
    forall j | 0 <= j < i ensures rows[..i][j].chatId != rows[i].chatId {
      assert Ahead(queue, rows[j], rows[i]);
    }
  }

  /** The first of the oldest rows are the oldest rows. */
  lemma {:induction false} FirstOldest(rows: seq<Nudge>, queue: Queue, n: nat)
    requires OldestFirst(rows, queue) && n <= |rows|
    ensures OldestFirst(rows[..n], queue)
  {
    var first := rows[..n];
    assert rows == first + rows[n..];
    ChatsConcat(first, rows[n..]);
    forall i, j | 0 <= i < j < n ensures Ahead(queue, first[i], first[j]) {
      assert Ahead(queue, rows[i], rows[j]);
    }
    forall i | 0 <= i < n ensures Among(queue, first[i], Chats(first)) {
      assert Among(queue, rows[i], Chats(rows));
      forall c | c in queue && c !in Chats(first) ensures Before(queue, first[i].chatId, c) {
        if c in Chats(rows[n..]) {
          var j :| 0 <= j < |rows[n..]| && rows[n..][j].chatId == c;
          assert Ahead(queue, rows[i], rows[n + j]);
        }
      }
    }
  }

  lemma {:induction false} AllDelivered(rows: seq<Nudge>, queue: Queue, n: nat)
    requires OldestFirst(rows, queue) && n <= |rows| && n == if |queue| < NUDGE_PAGE then |queue| else NUDGE_PAGE
    ensures HandedOver(queue, queue - Chats(rows[..n]), rows[..n])
  {
    FirstOldest(rows, queue, n);
    OldestByAge(rows[..n], queue);
  }

  lemma {:induction false} DistinctCount(rows: seq<Nudge>, queue: Queue)
    requires forall i, j {:trigger Ahead(queue, rows[i], rows[j])} :: 0 <= i < j < |rows| ==> Ahead(queue, rows[i], rows[j])
    ensures |Chats(rows)| == |rows|
    decreases |rows|
  {
    if rows != [] {
      var front, last := rows[..|rows| - 1], rows[|rows| - 1];
      forall i, j | 0 <= i < j < |front| ensures Ahead(queue, front[i], front[j]) {
        assert Ahead(queue, rows[i], rows[j]);
      }
      DistinctCount(front, queue);
      assert rows == front + [last];
      ChatsLast(front, last);
      forall i | 0 <= i < |front| ensures front[i].chatId != last.chatId {
        assert Ahead(queue, rows[i], rows[|rows| - 1]);
      }
    }
  }

  lemma {:induction false} SubsetFull(a: set<string>, b: set<string>)
    requires a <= b && |a| == |b|
    ensures a == b
  {
    var rest := b - a;
    assert b == a + rest && |b| == |a| + |rest|;
    assert rest == {};
  }

  lemma {:induction false} LegacyRows(list: seq<Nudge>, rows: seq<Nudge>, pending: Queue, reconcile: Option<Token>)
    requires Listed(list, pending, reconcile) && RECONCILE !in pending
    requires rows == if list != [] && list[0].chatId == RECONCILE then list[1..] else list
    ensures OldestFirst(rows, pending) && |rows| == if |pending| < NUDGE_PAGE * 2 then |pending| else NUDGE_PAGE * 2
  {
    if reconcile == None {
      assert list[0..] == list;
      if list != [] {
        assert Among(pending, list[0], Chats(list));
      }
    }
  }

  // ── the live host ─────────────────────────────────────────────────────────

  datatype Candidate = Candidate(ws: SocketId, lastSeenAt: int)

  /** The freshest candidate but one, if it proved itself alive inside the window. */
  method PickLiveHost(hosts: seq<Candidate>, now: int, exclude: Option<SocketId>) returns (picked: Option<SocketId>)
    ensures picked == None <==> forall i :: 0 <= i < |hosts| && Some(hosts[i].ws) != exclude ==> now - hosts[i].lastSeenAt > HOST_LIVENESS_MS
    ensures picked.Some? ==> picked != exclude && exists i :: 0 <= i < |hosts| && hosts[i].ws == picked.value && Freshest(hosts, exclude, i)
  {
    var best: Option<Candidate> := None;
    ghost var at := 0;
    for i := 0 to |hosts|
      invariant best == None ==> forall j :: 0 <= j < i ==> Some(hosts[j].ws) == exclude
      invariant best.Some? ==> 0 <= at < i && hosts[at] == best.value && Some(hosts[at].ws) != exclude
      invariant best.Some? ==> forall j :: 0 <= j < i && Some(hosts[j].ws) != exclude ==>
        hosts[j].lastSeenAt <= hosts[at].lastSeenAt && (j < at ==> hosts[j].lastSeenAt < hosts[at].lastSeenAt)
    {
      if Some(hosts[i].ws) != exclude {
        if best == None || hosts[i].lastSeenAt > best.value.lastSeenAt {
          best, at := Some(hosts[i]), i;
        }
      }
    }
    if best.Some? && now - best.value.lastSeenAt <= HOST_LIVENESS_MS {
      assert Freshest(hosts, exclude, at);
      return Some(best.value.ws);
    }
    return None;
  }

  /** Seen no earlier than any other candidate, and later than those listed before it. */
  predicate Freshest(hosts: seq<Candidate>, exclude: Option<SocketId>, i: nat)
    requires i < |hosts|
  {
    forall j :: 0 <= j < |hosts| && Some(hosts[j].ws) != exclude ==>
      hosts[j].lastSeenAt <= hosts[i].lastSeenAt && (j < i ==> hosts[j].lastSeenAt < hosts[i].lastSeenAt)
  }
}
