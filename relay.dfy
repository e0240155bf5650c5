/**
 * The worker-pool bookkeeping of tg_group_cloner.py as pure functions of the
 * state: which worker relays which sender (`clone_and_forward_message`,
 * lines 122-204), the reply/relay step (`forward_message_as`, lines 214-313)
 * and eviction (`cleanup_frozen_client`, lines 324-340). Platform calls are
 * outcomes given as parameters; one handler invocation runs at a time.
 */
module Relay {
  import opened Wrappers
  import opened Text
  import opened Media

  type WorkerId = int
  type SenderId = int

  /** One entry of `clients_pool`: a worker and the sender it is bound to, if any. */
  datatype Entry = Entry(worker: WorkerId, bound: Option<SenderId>)

  /** `message.is_reply` and what `event.get_reply_message()` gave back. */
  datatype Reply = NotAReply | ReplyUnavailable | ReplyTo(target: MessageId)

  /** An incoming message event from the source group. */
  datatype Event = Event(sender: SenderId, isBot: bool, id: MessageId, reply: Reply, media: Media, text: string)

  /** How the profile update of a newly chosen worker ends (lines 163-168). */
  datatype SetupOutcome = SetupOk | SetupFrozen | SetupFailed

  /** How the download and send inside `forward_message_as` end. */
  datatype SendOutcome = Sent(sentId: MessageId) | SendFailed

  /** The platform's answers for one handler invocation. */
  datatype Platform = Platform(setup: SetupOutcome, send: SendOutcome, disconnectOk: bool)

  /**
   * The mutable globals: `clients_pool` in insertion order, the key set of
   * `client_locks`, `cloned_users` and `message_id_mapping`.
   */
  datatype State = State(pool: seq<Entry>, locks: set<WorkerId>, cloned: set<SenderId>, mapping: map<MessageId, MessageId>)

  /** What one handler invocation did. */
  datatype Effect =
    | SkippedBot
    | SkippedBlacklisted
    | Relayed(worker: WorkerId, newlyBound: bool, request: Option<SendRequest>)
    | SetupFailedOn(worker: WorkerId, frozen: bool)
    | NoFreeWorker

  function Workers(pool: seq<Entry>): set<WorkerId>
  {
    set e | e in pool :: e.worker
  }

  function BoundSenders(pool: seq<Entry>): set<SenderId>
  {
    set e | e in pool && e.bound.Some? :: e.bound.value
  }

  /** The pool is a dict: no worker appears twice. */
  predicate DistinctWorkers(pool: seq<Entry>)
  {
    forall i, j :: 0 <= i < |pool| && 0 <= j < |pool| && pool[i].worker == pool[j].worker ==> i == j
  }

  /** Each sender is bound to at most one worker. */
  predicate UniqueBinding(pool: seq<Entry>)
  {
    forall i, j :: 0 <= i < |pool| && 0 <= j < |pool| && pool[i].bound.Some? && pool[i].bound == pool[j].bound ==> i == j
  }

  /** The invariant of the bookkeeping: a dict pool, unique bindings, one lock per pooled worker. */
  predicate Inv(st: State)
  {
    DistinctWorkers(st.pool) && UniqueBinding(st.pool) && st.locks == Workers(st.pool)
  }

  /** Every sender a worker is bound to is recorded in `cloned_users`. */
  predicate ClonedCovers(st: State)
  {
    BoundSenders(st.pool) <= st.cloned
  }

  /**
   * The scans at lines 137-138 (`b == Some(sender)`) and 152-154
   * (`b == None`): the index of the first entry, in pool order, whose binding is `b`.
   */
  function FirstWith(pool: seq<Entry>, b: Option<SenderId>): (r: Option<nat>)
    ensures r.Some? ==> r.value < |pool| && pool[r.value].bound == b
    ensures r.Some? ==> forall k :: 0 <= k < r.value ==> pool[k].bound != b
    ensures r.None? ==> forall k :: 0 <= k < |pool| ==> pool[k].bound != b
  {
    if pool == [] then None
    else if pool[0].bound == b then Some(0)
    else
      match FirstWith(pool[1..], b)
      case None => None
      case Some(k) => Some(k + 1)
  }

  /** Line 195: the worker at index `i` becomes bound to `s`. */
  function Bind(pool: seq<Entry>, i: nat, s: SenderId): seq<Entry>
    requires i < |pool|
  {
    pool[i := Entry(pool[i].worker, Some(s))]
  }

  /** `clients_pool.pop(client, None)` (line 333): the pool without the worker's entry. */
  function Evict(pool: seq<Entry>, w: WorkerId): (r: seq<Entry>)
    ensures forall e :: e in r <==> e in pool && e.worker != w
    ensures Workers(r) == Workers(pool) - {w}
    ensures BoundSenders(r) <= BoundSenders(pool)
  {
    if pool == [] then []
    else (if pool[0].worker == w then [] else [pool[0]]) + Evict(pool[1..], w)
  }

  /** `cleanup_frozen_client` (lines 324-340); a failing `disconnect()` skips everything (line 339). */
  function Cleanup(st: State, w: WorkerId, sender: Option<SenderId>, disconnectOk: bool): State
  {
    if !disconnectOk then st
    else
      State(Evict(st.pool, w), st.locks - {w},
            if sender.Some? && sender.value != 0 then st.cloned - {sender.value} else st.cloned,
            st.mapping)
  }

  /**
   * The send `forward_message_as` attempts, if any: the text passed through
   * the replacement table; a reply goes out only when the replied-to message
   * was fetched and its id is mapped, and then targets the mapped id.
   */
  function PlanSend(mapping: map<MessageId, MessageId>, table: Table, ev: Event): (r: Option<SendRequest>)
    requires KeysNonEmpty(table)
    ensures r.None? <==> ev.reply.ReplyUnavailable? || (ev.reply.ReplyTo? && ev.reply.target !in mapping)
    ensures r.Some? ==> r.value.replyTo == if ev.reply.ReplyTo? then Some(mapping[ev.reply.target]) else None
    ensures r.Some? ==> r.value == Dispatch(ev.media, ReplaceAll(table, ev.text), r.value.replyTo)
  {
    var text := ReplaceAll(table, ev.text);
    match ev.reply
    case NotAReply => Some(Dispatch(ev.media, text, None))
    case ReplyUnavailable => None
    case ReplyTo(target) =>
      if target in mapping then Some(Dispatch(ev.media, text, Some(mapping[target]))) else None
  }

  /** Lines 270 and 307: a send that went out records `message.id -> sent.id`. */
  function Record(mapping: map<MessageId, MessageId>, id: MessageId, request: Option<SendRequest>, send: SendOutcome): map<MessageId, MessageId>
  {
    if request.Some? && send.Sent? then mapping[id := send.sentId] else mapping
  }

  /** One invocation of `clone_and_forward_message`. */
  function HandleStep(st: State, blacklist: set<SenderId>, table: Table, ev: Event, pf: Platform): (State, Effect)
    requires KeysNonEmpty(table)
  {
    if ev.isBot then (st, SkippedBot)
    else if ev.sender in blacklist then (st, SkippedBlacklisted)
    else
      match FirstWith(st.pool, Some(ev.sender))
      case Some(i) =>
        var request := PlanSend(st.mapping, table, ev);
        (st.(mapping := Record(st.mapping, ev.id, request, pf.send)), Relayed(st.pool[i].worker, false, request))
      case None =>
        match FirstWith(st.pool, None)
        case None => (st, NoFreeWorker)
        case Some(i) =>
          var w := st.pool[i].worker;
          match pf.setup
          case SetupOk =>
            var request := PlanSend(st.mapping, table, ev);
            (State(Bind(st.pool, i, ev.sender), st.locks, st.cloned + {ev.sender}, Record(st.mapping, ev.id, request, pf.send)),
             Relayed(w, true, request))
          case SetupFrozen => (Cleanup(st, w, Some(ev.sender), pf.disconnectOk), SetupFailedOn(w, true))
          case SetupFailed => (st, SetupFailedOn(w, false))
  }

  /** The worker an effect went through, if any. */
  function UsedWorker(e: Effect): Option<WorkerId>
  {
    match e
    case Relayed(w, _, _) => Some(w)
    case SetupFailedOn(w, _) => Some(w)
    case _ => None
  }

  /** A sequence of handler invocations, one after the other. */
  function Run(st: State, blacklist: set<SenderId>, table: Table, evs: seq<Event>, pfs: seq<Platform>): (State, seq<Effect>)
    requires KeysNonEmpty(table) && |evs| == |pfs|
    decreases |evs|
  {
    if |evs| == 0 then (st, [])
    else
      var first := HandleStep(st, blacklist, table, evs[0], pfs[0]);
      var rest := Run(first.0, blacklist, table, evs[1..], pfs[1..]);
      (rest.0, [first.1] + rest.1)
  }

  // ---------------------------------------------------------------------
  // Eviction
  // ---------------------------------------------------------------------

  /** Eviction keeps the order of the remaining entries. */
  lemma {:induction false} EvictDistributes(a: seq<Entry>, b: seq<Entry>, w: WorkerId)
    ensures Evict(a + b, w) == Evict(a, w) + Evict(b, w)
    decreases |a|
  {
    if a != [] {
      assert (a + b)[1..] == a[1..] + b;
      EvictDistributes(a[1..], b, w);
    } else {
      assert a + b == b;
    }
  }

  /** Evicting an absent worker leaves the pool as it is. */
  lemma {:induction false} EvictAbsent(pool: seq<Entry>, w: WorkerId)
    requires w !in Workers(pool)
    ensures Evict(pool, w) == pool
    decreases |pool|
  {
    if pool != [] {
      assert pool[0] in pool;
      assert Workers(pool[1..]) <= Workers(pool) by {
        forall x | x in Workers(pool[1..]) ensures x in Workers(pool) {
          var e :| e in pool[1..] && e.worker == x;
          assert e in pool;
        }
      }
      EvictAbsent(pool[1..], w);
      assert pool == [pool[0]] + pool[1..];
    }
  }

  /** Dropping the first entry keeps workers distinct and bindings unique. */
  lemma ShapeOfTail(pool: seq<Entry>)
    requires pool != [] && DistinctWorkers(pool) && UniqueBinding(pool)
    ensures DistinctWorkers(pool[1..]) && UniqueBinding(pool[1..])
  {
    var tail := pool[1..];
    forall i, j | 0 <= i < |tail| && 0 <= j < |tail| && tail[i].worker == tail[j].worker ensures i == j {
      assert pool[i + 1].worker == pool[j + 1].worker;
    }
    forall i, j | 0 <= i < |tail| && 0 <= j < |tail| && tail[i].bound.Some? && tail[i].bound == tail[j].bound ensures i == j {
      assert pool[i + 1].bound == pool[j + 1].bound;
    }
  }

  /** An entry clashing with none of the rest can be put in front. */
  lemma ShapeOfCons(x: Entry, rest: seq<Entry>)
    requires DistinctWorkers(rest) && UniqueBinding(rest)
    requires forall e :: e in rest ==> e.worker != x.worker && (e.bound.Some? ==> e.bound != x.bound)
    ensures DistinctWorkers([x] + rest) && UniqueBinding([x] + rest)
  {
    var r := [x] + rest;
    forall k | 0 <= k < |rest| ensures rest[k].worker != x.worker && (rest[k].bound.Some? ==> rest[k].bound != x.bound) {
      assert rest[k] in rest;
    }
    forall i, j | 0 <= i < |r| && 0 <= j < |r| && r[i].worker == r[j].worker ensures i == j {
      if i > 0 && j > 0 {
        assert rest[i - 1].worker == rest[j - 1].worker;
      }
    }
    forall i, j | 0 <= i < |r| && 0 <= j < |r| && r[i].bound.Some? && r[i].bound == r[j].bound ensures i == j {
      if i > 0 && j > 0 {
        assert rest[i - 1].bound == rest[j - 1].bound;
      }
    }
  }

  /** Eviction keeps the pool a dict with unique bindings. */
  lemma {:induction false} EvictKeepsShape(pool: seq<Entry>, w: WorkerId)
    requires DistinctWorkers(pool) && UniqueBinding(pool)
    ensures DistinctWorkers(Evict(pool, w)) && UniqueBinding(Evict(pool, w))
    decreases |pool|
  {
    if pool != [] {
      var tail := pool[1..];
      ShapeOfTail(pool);
      EvictKeepsShape(tail, w);
      var rest := Evict(tail, w);
      if pool[0].worker != w {
        forall e | e in rest ensures e.worker != pool[0].worker && (e.bound.Some? ==> e.bound != pool[0].bound) {
          var m :| 0 <= m < |tail| && tail[m] == e;
          assert pool[m + 1] == e;
        }
        ShapeOfCons(pool[0], rest);
      }
    }
  }

  /** Cleanup keeps the invariant. */
  lemma CleanupKeepsInv(st: State, w: WorkerId, sender: Option<SenderId>, disconnectOk: bool)
    requires Inv(st)
    ensures Inv(Cleanup(st, w, sender, disconnectOk))
  {
    EvictKeepsShape(st.pool, w);
  }

  /**
   * Cleanup removes exactly the given worker from the pool (keeping the
   * others in order) and from the lock table, discards a truthy sender id
   * from `cloned_users`, and never touches the message mapping.
   */
  lemma CleanupEffect(st: State, w: WorkerId, sender: Option<SenderId>, a: seq<Entry>, b: seq<Entry>)
    requires st.pool == a + b
    ensures var st' := Cleanup(st, w, sender, true);
      && st'.pool == Evict(a, w) + Evict(b, w)
      && (forall e :: e in st'.pool <==> e in st.pool && e.worker != w)
      && w !in Workers(st'.pool)
      && st'.locks == st.locks - {w}
      && st'.cloned == (if sender == Some(0) || sender.None? then st.cloned else st.cloned - {sender.value})
      && st'.mapping == st.mapping
  {
    EvictDistributes(a, b, w);
  }

  /** A failed disconnect leaves every structure unchanged. */
  lemma CleanupAfterFailedDisconnect(st: State, w: WorkerId, sender: Option<SenderId>)
    ensures Cleanup(st, w, sender, false) == st
  {
  }

  /** Cleanup of a worker that is in neither dict leaves the pool and the lock table as they are. */
  lemma CleanupAbsentWorker(st: State, w: WorkerId, sender: Option<SenderId>)
    requires w !in Workers(st.pool) && w !in st.locks
    ensures Cleanup(st, w, sender, true).pool == st.pool
    ensures Cleanup(st, w, sender, true).locks == st.locks
  {
    EvictAbsent(st.pool, w);
  }

  /** Cleaning up the same worker twice is the same as once. */
  lemma CleanupIdempotent(st: State, w: WorkerId, sender: Option<SenderId>, disconnectOk: bool)
    ensures var once := Cleanup(st, w, sender, disconnectOk);
      Cleanup(once, w, sender, disconnectOk) == once
  {
    if disconnectOk {
      var once := Cleanup(st, w, sender, disconnectOk);
      EvictAbsent(once.pool, w);
    }
  }

  // ---------------------------------------------------------------------
  // One handler invocation
  // ---------------------------------------------------------------------

  lemma BindKeepsWorkers(pool: seq<Entry>, i: nat, s: SenderId)
    requires i < |pool|
    ensures Workers(Bind(pool, i, s)) == Workers(pool)
    ensures BoundSenders(Bind(pool, i, s)) <= BoundSenders(pool) + {s}
  {
    var p := Bind(pool, i, s);
    forall x | x in Workers(pool) ensures x in Workers(p) {
      var e :| e in pool && e.worker == x;
      var k :| 0 <= k < |pool| && pool[k] == e;
      assert p[k].worker == x;
    }
    forall x | x in Workers(p) ensures x in Workers(pool) {
      var e :| e in p && e.worker == x;
      var k :| 0 <= k < |p| && p[k] == e;
      assert pool[k].worker == x;
    }
    forall x | x in BoundSenders(p) ensures x in BoundSenders(pool) + {s} {
      var e :| e in p && e.bound == Some(x);
      var k :| 0 <= k < |p| && p[k] == e;
      if k != i {
        assert pool[k] == e;
      }
    }
  }

  /** Binding a sender no worker is bound to keeps the invariant. */
  lemma BindKeepsInv(st: State, i: nat, s: SenderId)
    requires Inv(st) && i < |st.pool|
    requires forall k :: 0 <= k < |st.pool| ==> st.pool[k].bound != Some(s)
    ensures Inv(st.(pool := Bind(st.pool, i, s)))
  {
    BindKeepsWorkers(st.pool, i, s);
    var p := Bind(st.pool, i, s);
    forall a, b | 0 <= a < |p| && 0 <= b < |p| && p[a].bound.Some? && p[a].bound == p[b].bound ensures a == b {
      if a != i && b != i {
        assert st.pool[a].bound == st.pool[b].bound;
      }
    }
  }

  /** A handler step keeps the invariant: in particular, each sender stays bound to at most one worker. */
  lemma HandleKeepsInv(st: State, blacklist: set<SenderId>, table: Table, ev: Event, pf: Platform)
    requires KeysNonEmpty(table) && Inv(st)
    ensures Inv(HandleStep(st, blacklist, table, ev, pf).0)
  {
    if !ev.isBot && ev.sender !in blacklist && FirstWith(st.pool, Some(ev.sender)).None? {
      match FirstWith(st.pool, None)
      case None =>
      case Some(i) =>
        match pf.setup
        case SetupOk => BindKeepsInv(st, i, ev.sender);
        case SetupFrozen => CleanupKeepsInv(st, st.pool[i].worker, Some(ev.sender), pf.disconnectOk);
        case SetupFailed =>
    }
  }

  /** A handler step keeps every bound sender recorded in `cloned_users`. */
  lemma HandleKeepsClonedCovers(st: State, blacklist: set<SenderId>, table: Table, ev: Event, pf: Platform)
    requires KeysNonEmpty(table) && ClonedCovers(st)
    ensures ClonedCovers(HandleStep(st, blacklist, table, ev, pf).0)
  {
    if !ev.isBot && ev.sender !in blacklist && FirstWith(st.pool, Some(ev.sender)).None? {
      match FirstWith(st.pool, None)
      case None =>
      case Some(i) =>
        match pf.setup
        case SetupOk => BindKeepsWorkers(st.pool, i, ev.sender);
        case SetupFrozen =>
          assert ev.sender !in BoundSenders(st.pool);
        case SetupFailed =>
    }
  }

  /** Bot senders and blacklisted senders change nothing and cause no send. */
  lemma DroppedSenderChangesNothing(st: State, blacklist: set<SenderId>, table: Table, ev: Event, pf: Platform)
    requires KeysNonEmpty(table) && (ev.isBot || ev.sender in blacklist)
    ensures HandleStep(st, blacklist, table, ev, pf) == (st, if ev.isBot then SkippedBot else SkippedBlacklisted)
  {
  }

  /**
   * A sender already bound is relayed through the first worker bound to it:
   * no binding changes and no profile update is attempted, so the result
   * does not depend on what a profile update or a disconnect would do.
   */
  lemma BoundSenderReusesWorker(st: State, blacklist: set<SenderId>, table: Table, ev: Event, pf: Platform, j: nat, other: Platform)
    requires KeysNonEmpty(table) && !ev.isBot && ev.sender !in blacklist
    requires j < |st.pool| && st.pool[j].bound == Some(ev.sender)
    requires forall k :: 0 <= k < j ==> st.pool[k].bound != Some(ev.sender)
    requires other.send == pf.send
    ensures var (st', e) := HandleStep(st, blacklist, table, ev, pf);
      && e == Relayed(st.pool[j].worker, false, PlanSend(st.mapping, table, ev))
      && st'.pool == st.pool && st'.locks == st.locks && st'.cloned == st.cloned
    ensures HandleStep(st, blacklist, table, ev, pf) == HandleStep(st, blacklist, table, ev, other)
  {
    var r := FirstWith(st.pool, Some(ev.sender));
    assert r.Some? && r.value == j;
  }

  /**
   * A sender bound to no worker is tried on the first unbound worker; a
   * successful profile update binds it and records the sender as cloned,
   * whether or not the relay then sent anything.
   */
  lemma FreshSenderBindsFirstFree(st: State, blacklist: set<SenderId>, table: Table, ev: Event, pf: Platform, j: nat)
    requires KeysNonEmpty(table) && !ev.isBot && ev.sender !in blacklist
    requires forall k :: 0 <= k < |st.pool| ==> st.pool[k].bound != Some(ev.sender)
    requires j < |st.pool| && st.pool[j].bound.None?
    requires forall k :: 0 <= k < j ==> st.pool[k].bound.Some?
    requires pf.setup == SetupOk
    ensures var (st', e) := HandleStep(st, blacklist, table, ev, pf);
      && e == Relayed(st.pool[j].worker, true, PlanSend(st.mapping, table, ev))
      && st'.pool == st.pool[j := Entry(st.pool[j].worker, Some(ev.sender))]
      && st'.locks == st.locks
      && st'.cloned == st.cloned + {ev.sender}
  {
    var r := FirstWith(st.pool, None);
    assert r.Some? && r.value == j;
  }

  /**
   * When the profile update of the chosen worker raises, nothing is bound:
   * an ordinary error changes nothing, a frozen error evicts that worker.
   * Only that one worker is tried.
   */
  lemma FailedSetupBindsNothing(st: State, blacklist: set<SenderId>, table: Table, ev: Event, pf: Platform, j: nat)
    requires KeysNonEmpty(table) && !ev.isBot && ev.sender !in blacklist
    requires forall k :: 0 <= k < |st.pool| ==> st.pool[k].bound != Some(ev.sender)
    requires j < |st.pool| && st.pool[j].bound.None?
    requires forall k :: 0 <= k < j ==> st.pool[k].bound.Some?
    requires pf.setup != SetupOk
    ensures var (st', e) := HandleStep(st, blacklist, table, ev, pf);
      && e == SetupFailedOn(st.pool[j].worker, pf.setup == SetupFrozen)
      && st' == (if pf.setup == SetupFrozen then Cleanup(st, st.pool[j].worker, Some(ev.sender), pf.disconnectOk) else st)
      && ev.sender !in BoundSenders(st'.pool)
  {
    var r := FirstWith(st.pool, None);
    assert r.Some? && r.value == j;
    assert ev.sender !in BoundSenders(st.pool);
  }

  /** With every worker bound to someone else, nothing changes and nothing is sent. */
  lemma ExhaustedPoolChangesNothing(st: State, blacklist: set<SenderId>, table: Table, ev: Event, pf: Platform)
    requires KeysNonEmpty(table) && !ev.isBot && ev.sender !in blacklist
    requires forall k :: 0 <= k < |st.pool| ==> st.pool[k].bound.Some? && st.pool[k].bound != Some(ev.sender)
    ensures HandleStep(st, blacklist, table, ev, pf) == (st, NoFreeWorker)
  {
    var r := FirstWith(st.pool, None);
    assert r.None?;
  }

  /**
   * The message mapping gains at most `ev.id`, mapped to the id of the sent
   * message, and only when a send went out; no other entry changes.
   */
  lemma HandleWritesOnlyMessageId(st: State, blacklist: set<SenderId>, table: Table, ev: Event, pf: Platform)
    requires KeysNonEmpty(table)
    ensures var (st', e) := HandleStep(st, blacklist, table, ev, pf);
      && (forall k :: k != ev.id ==> (k in st'.mapping <==> k in st.mapping))
      && (forall k :: k != ev.id && k in st.mapping ==> st'.mapping[k] == st.mapping[k])
      && (if e.Relayed? && e.request.Some? && pf.send.Sent?
          then ev.id in st'.mapping && st'.mapping[ev.id] == pf.send.sentId
          else st'.mapping == st.mapping)
  {
  }

  /**
   * A reply whose replied-to message is unavailable or unmapped sends
   * nothing and writes no mapping; otherwise the send targets the mapped id.
   */
  lemma ReplyIntegrity(st: State, blacklist: set<SenderId>, table: Table, ev: Event, pf: Platform)
    requires KeysNonEmpty(table)
    ensures var (st', e) := HandleStep(st, blacklist, table, ev, pf);
      && (e.Relayed? && (ev.reply.ReplyUnavailable? || (ev.reply.ReplyTo? && ev.reply.target !in st.mapping))
          ==> e.request.None? && st'.mapping == st.mapping)
      && (e.Relayed? && e.request.Some? && ev.reply.ReplyTo? ==> e.request.value.replyTo == Some(st.mapping[ev.reply.target]))
      && (e.Relayed? && ev.reply.NotAReply? ==> e.request.Some? && e.request.value.replyTo.None?)
  {
  }

  /**
   * A send failure never evicts: a bound worker whose relay fails stays in
   * the pool, still bound to its sender.
   */
  lemma SendFailureKeepsBinding(st: State, blacklist: set<SenderId>, table: Table, ev: Event, pf: Platform)
    requires KeysNonEmpty(table) && pf.send == SendFailed
    ensures var (st', e) := HandleStep(st, blacklist, table, ev, pf);
      e.Relayed? ==> st'.mapping == st.mapping && Workers(st'.pool) == Workers(st.pool)
  {
    var r := FirstWith(st.pool, Some(ev.sender));
    if !ev.isBot && ev.sender !in blacklist && r.None? {
      var f := FirstWith(st.pool, None);
      if f.Some? && pf.setup == SetupOk {
        BindKeepsWorkers(st.pool, f.value, ev.sender);
      }
    }
  }

  /** A step never adds workers, and the worker it uses is one of the pool's. */
  lemma HandleUsesPooledWorkers(st: State, blacklist: set<SenderId>, table: Table, ev: Event, pf: Platform)
    requires KeysNonEmpty(table)
    ensures var (st', e) := HandleStep(st, blacklist, table, ev, pf);
      && Workers(st'.pool) <= Workers(st.pool)
      && (UsedWorker(e).Some? ==> UsedWorker(e).value in Workers(st.pool))
  {
    if !ev.isBot && ev.sender !in blacklist {
      match FirstWith(st.pool, Some(ev.sender))
      case Some(i) =>
        assert st.pool[i] in st.pool;
      case None =>
        match FirstWith(st.pool, None)
        case None =>
        case Some(i) =>
          assert st.pool[i] in st.pool;
          BindKeepsWorkers(st.pool, i, ev.sender);
    }
  }

  /** A step binds no sender other than the event's, and binds nobody when the event is dropped. */
  lemma HandleBindsOnlyEventSender(st: State, blacklist: set<SenderId>, table: Table, ev: Event, pf: Platform)
    requires KeysNonEmpty(table)
    ensures var (st', e) := HandleStep(st, blacklist, table, ev, pf);
      && BoundSenders(st'.pool) <= BoundSenders(st.pool) + {ev.sender}
      && (ev.isBot || ev.sender in blacklist ==> st' == st)
  {
    if !ev.isBot && ev.sender !in blacklist && FirstWith(st.pool, Some(ev.sender)).None? {
      match FirstWith(st.pool, None)
      case None =>
      case Some(i) =>
        BindKeepsWorkers(st.pool, i, ev.sender);
    }
  }

  // ---------------------------------------------------------------------
  // Runs of many invocations
  // ---------------------------------------------------------------------

  /** Uniqueness holds after every run of handler invocations. */
  lemma {:induction false} RunKeepsInv(st: State, blacklist: set<SenderId>, table: Table, evs: seq<Event>, pfs: seq<Platform>)
    requires KeysNonEmpty(table) && |evs| == |pfs| && Inv(st)
    ensures Inv(Run(st, blacklist, table, evs, pfs).0)
    decreases |evs|
  {
    if |evs| > 0 {
      HandleKeepsInv(st, blacklist, table, evs[0], pfs[0]);
      RunKeepsInv(HandleStep(st, blacklist, table, evs[0], pfs[0]).0, blacklist, table, evs[1..], pfs[1..]);
    }
  }

  /** A worker that is not in the pool is never used by any later invocation, and never comes back. */
  lemma {:induction false} AbsentWorkerNeverUsed(st: State, blacklist: set<SenderId>, table: Table, evs: seq<Event>, pfs: seq<Platform>, w: WorkerId)
    requires KeysNonEmpty(table) && |evs| == |pfs| && w !in Workers(st.pool)
    ensures var (st', es) := Run(st, blacklist, table, evs, pfs);
      && w !in Workers(st'.pool)
      && |es| == |evs|
      && forall i :: 0 <= i < |es| ==> UsedWorker(es[i]) != Some(w)
    decreases |evs|
  {
    if |evs| > 0 {
      var first := HandleStep(st, blacklist, table, evs[0], pfs[0]);
      HandleUsesPooledWorkers(st, blacklist, table, evs[0], pfs[0]);
      AbsentWorkerNeverUsed(first.0, blacklist, table, evs[1..], pfs[1..], w);
      var rest := Run(first.0, blacklist, table, evs[1..], pfs[1..]);
      assert Run(st, blacklist, table, evs, pfs).1 == [first.1] + rest.1;
    }
  }

  /** An evicted worker can never be chosen again: not for binding, not for relaying. */
  lemma EvictedWorkerNeverChosen(st: State, blacklist: set<SenderId>, table: Table, evs: seq<Event>, pfs: seq<Platform>, w: WorkerId, sender: Option<SenderId>)
    requires KeysNonEmpty(table) && |evs| == |pfs|
    ensures var (st', es) := Run(Cleanup(st, w, sender, true), blacklist, table, evs, pfs);
      && w !in Workers(st'.pool)
      && forall i :: 0 <= i < |es| ==> UsedWorker(es[i]) != Some(w)
  {
    AbsentWorkerNeverUsed(Cleanup(st, w, sender, true), blacklist, table, evs, pfs, w);
  }

  /** A blacklisted sender that no worker is bound to stays unbound through any run. */
  lemma {:induction false} BlacklistedNeverBound(st: State, blacklist: set<SenderId>, table: Table, evs: seq<Event>, pfs: seq<Platform>, s: SenderId)
    requires KeysNonEmpty(table) && |evs| == |pfs|
    requires s in blacklist && s !in BoundSenders(st.pool)
    ensures s !in BoundSenders(Run(st, blacklist, table, evs, pfs).0.pool)
    decreases |evs|
  {
    if |evs| > 0 {
      HandleBindsOnlyEventSender(st, blacklist, table, evs[0], pfs[0]);
      BlacklistedNeverBound(HandleStep(st, blacklist, table, evs[0], pfs[0]).0, blacklist, table, evs[1..], pfs[1..], s);
    }
  }
}
