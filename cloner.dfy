/**
 * The module-level state of tg_group_cloner.py and the operations that
 * update it in place, as a class. Each method is proved against the pure
 * functions of module Relay, whose properties are proved there.
 */
module Cloner {
  import opened Wrappers
  import opened Text
  import opened Media
  import opened Relay
  import Config

  class Cloner {
    /** `clients_pool` (line 16), in insertion order. */
    var pool: seq<Entry>
    /** The key set of `client_locks` (line 17); the locks themselves are sequential no-ops here. */
    var locks: set<WorkerId>
    /** `cloned_users` (line 20). */
    var cloned: set<SenderId>
    /** `message_id_mapping` (line 19): source message id to destination message id. */
    var mapping: map<MessageId, MessageId>
    /** `blacklist` (line 21). */
    var blacklist: set<SenderId>
    /** `replacements` (line 22), as loaded from the configuration. */
    var replacements: Table

    ghost predicate Valid()
      reads this
    {
      Inv(Snapshot()) && KeysNonEmpty(replacements)
    }

    /** The bookkeeping the handler changes. */
    function Snapshot(): State
      reads this
    {
      State(pool, locks, cloned, mapping)
    }

    /** The state at start-up: empty collections and the configured replacement table. */
    constructor (table: Table)
      requires KeysNonEmpty(table)
      ensures Valid()
      ensures Snapshot() == State([], {}, {}, map[])
      ensures blacklist == {} && replacements == table
    {
      pool, locks, cloned, mapping := [], {}, {}, map[];
      blacklist, replacements := {}, table;
    }

    /**
     * Lines 79-80 of `load_existing_sessions`: a newly started session joins
     * the pool unbound and gets its lock. Each session is a new client object.
     */
    method RegisterWorker(w: WorkerId)
      requires Valid() && w !in Workers(pool)
      modifies this`pool, this`locks
      ensures Valid()
      ensures pool == old(pool) + [Entry(w, None)] && locks == old(locks) + {w}
    {
      pool := pool + [Entry(w, None)];
      locks := locks + {w};
      forall i, j | 0 <= i < |pool| && 0 <= j < |pool| && pool[i].worker == pool[j].worker ensures i == j {
        if i < |old(pool)| && j < |old(pool)| {
          assert old(pool)[i].worker == old(pool)[j].worker;
        }
      }
      assert Workers(pool) == Workers(old(pool)) + {w} by {
        forall x | x in Workers(pool) ensures x in Workers(old(pool)) + {w} {
          var e :| e in pool && e.worker == x;
          if e != Entry(w, None) {
            var k :| 0 <= k < |pool| && pool[k] == e;
            assert old(pool)[k] == e;
          }
        }
        forall x | x in Workers(old(pool)) ensures x in Workers(pool) {
          var e :| e in old(pool) && e.worker == x;
          var k :| 0 <= k < |old(pool)| && old(pool)[k] == e;
          assert pool[k] == e;
        }
        assert pool[|pool| - 1] == Entry(w, None);
      }
    }

    /** Lines 387-389: the blacklist is cleared, then filled from the configured value. */
    method LoadBlacklist(value: string)
      modifies this`blacklist
      ensures blacklist == Config.BlacklistIds(value)
    {
      blacklist := {};
      var ids := Config.BlacklistIds(value);
      blacklist := blacklist + set id | id in ids :: id as SenderId;
    }

    /**
     * `forward_message_as` (lines 214-313) through worker `w`; which worker
     * sends plays no part in the bookkeeping, so `w` is not otherwise used.
     * It raises nothing: an unavailable or unmapped replied-to message ends it without
     * a send, a failed download or send ends it without a mapping entry.
     */
    method ForwardMessageAs(w: WorkerId, ev: Event, send: SendOutcome) returns (request: Option<SendRequest>)
      requires KeysNonEmpty(replacements)
      modifies this`mapping
      ensures request == PlanSend(old(mapping), replacements, ev)
      ensures mapping == Record(old(mapping), ev.id, request, send)
    {
      var text := ApplyReplacements(replacements, ev.text);
      var replyTo: Option<MessageId> := None;
      match ev.reply {
        case NotAReply =>
        case ReplyUnavailable =>
          return None;
        case ReplyTo(target) =>
          if target !in mapping {
            return None;
          }
          replyTo := Some(mapping[target]);
      }
      request := Some(Dispatch(ev.media, text, replyTo));
      if send.Sent? {
        mapping := mapping[ev.id := send.sentId];
      }
    }

    /** `cleanup_frozen_client` (lines 324-340). */
    method CleanupFrozenClient(w: WorkerId, sender: Option<SenderId>, disconnectOk: bool)
      requires Valid()
      modifies this`pool, this`locks, this`cloned
      ensures Valid()
      ensures Snapshot() == Cleanup(old(Snapshot()), w, sender, disconnectOk)
    {
      CleanupKeepsInv(Snapshot(), w, sender, disconnectOk);
      if !disconnectOk {
        return;
      }
      pool := Evict(pool, w);
      locks := locks - {w};
      if sender.Some? && sender.value != 0 {
        cloned := cloned - {sender.value};
      }
    }

    /**
     * `clone_and_forward_message` (lines 122-204), one invocation at a time.
     * The re-check at line 159 repeats the test at line 154, which nothing
     * can falsify between the two when invocations do not interleave.
     */
    method HandleMessage(ev: Event, pf: Platform) returns (e: Effect)
      requires Valid()
      modifies this
      ensures Valid()
      ensures (Snapshot(), e) == HandleStep(old(Snapshot()), old(blacklist), old(replacements), ev, pf)
      ensures blacklist == old(blacklist) && replacements == old(replacements)
    {
      if ev.isBot {
        return SkippedBot;
      }
      if ev.sender in blacklist {
        return SkippedBlacklisted;
      }
      var i := 0;
      while i < |pool|
        invariant 0 <= i <= |pool|
        invariant unchanged(this)
        invariant forall k :: 0 <= k < i ==> pool[k].bound != Some(ev.sender)
      {
        if pool[i].bound == Some(ev.sender) {
          assert FirstWith(pool, Some(ev.sender)) == Some(i);
          var w := pool[i].worker;
          var request := ForwardMessageAs(w, ev, pf.send);
          return Relayed(w, false, request);
        }
        i := i + 1;
      }
      assert FirstWith(pool, Some(ev.sender)).None?;
      i := 0;
      while i < |pool|
        invariant 0 <= i <= |pool|
        invariant unchanged(this)
        invariant forall k :: 0 <= k < i ==> pool[k].bound.Some?
      {
        if pool[i].bound.None? {
          assert FirstWith(pool, None) == Some(i);
          var w := pool[i].worker;
          match pf.setup {
            case SetupOk =>
              BindKeepsInv(Snapshot(), i, ev.sender);
              var request := ForwardMessageAs(w, ev, pf.send);
              pool := pool[i := Entry(w, Some(ev.sender))];
              cloned := cloned + {ev.sender};
              e := Relayed(w, true, request);
            case SetupFrozen =>
              CleanupFrozenClient(w, Some(ev.sender), pf.disconnectOk);
              e := SetupFailedOn(w, true);
            case SetupFailed =>
              e := SetupFailedOn(w, false);
          }
          return;
        }
        i := i + 1;
      }
      assert FirstWith(pool, None).None?;
      e := NoFreeWorker;
    }
  }
}

/**
 * A client of the class: usage scenarios, derived from the method contracts
 * alone, on a pool of two workers 1 and 2.
 */
module Scenarios {
  import opened Wrappers
  import opened Media
  import opened Relay
  import opened Cloner

  method TwoIdleWorkers() returns (c: Cloner)
    ensures fresh(c) && c.Valid()
    ensures c.Snapshot() == State([Entry(1, None), Entry(2, None)], {1, 2}, {}, map[])
    ensures c.blacklist == {} && c.replacements == []
  {
    c := new Cloner([]);
    c.RegisterWorker(1);
    c.RegisterWorker(2);
  }

  /** A first message binds the first worker; the second message reuses it and its reply is re-targeted. */
  method BindThenReuse()
  {
    var c := TwoIdleWorkers();
    var pool := [Entry(1, None), Entry(2, None)];
    assert FirstWith(pool, Some(10)).None?;
    var e := c.HandleMessage(Event(10, false, 100, NotAReply, NoMedia, "hello"), Platform(SetupOk, Sent(500), true));
    assert e == Relayed(1, true, Some(SendText("hello", None)));
    pool := [Entry(1, Some(10)), Entry(2, None)];
    assert c.pool == pool && c.mapping == map[100 := 500];
    assert FirstWith(pool, Some(10)) == Some(0);
    e := c.HandleMessage(Event(10, false, 101, ReplyTo(100), NoMedia, "world"), Platform(SetupFailed, Sent(501), true));
    assert e == Relayed(1, false, Some(SendText("world", Some(500))));
    assert c.pool == pool;
  }

  /** A frozen profile update evicts the worker; the sender's next message binds the other one. */
  method FrozenSetupThenRebind()
  {
    var c := TwoIdleWorkers();
    var e := c.HandleMessage(Event(10, false, 100, NotAReply, NoMedia, "hello"), Platform(SetupFrozen, Sent(500), true));
    assert e == SetupFailedOn(1, true);
    assert Evict([Entry(1, None), Entry(2, None)], 1) == [Entry(2, None)];
    assert c.pool == [Entry(2, None)] && c.locks == {2} && c.mapping == map[];
    e := c.HandleMessage(Event(10, false, 101, NotAReply, NoMedia, "again"), Platform(SetupOk, Sent(501), true));
    assert e == Relayed(2, true, Some(SendText("again", None)));
  }

  /** A reply to an unmapped message sends nothing, yet the worker is bound. */
  method UnmappedReplyStillBinds()
  {
    var c := TwoIdleWorkers();
    var e := c.HandleMessage(Event(20, false, 102, ReplyTo(99), NoMedia, "hi"), Platform(SetupOk, Sent(502), true));
    assert e == Relayed(1, true, None);
    assert c.pool == [Entry(1, Some(20)), Entry(2, None)] && c.mapping == map[];
  }
}
