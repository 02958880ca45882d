/** Who follows which node operator, kept twice: per operator for delivery and per chat for display
    (sentinel/app/storage.py, sentinel/handlers/tracking.py, sentinel/handlers/start.py,
    sentinel/app/telegram_adapters.py). A chat has an entry in `follows` once its data exists. */
module FollowIndex {
  import opened Windows

  datatype Index = Index(
    byOperator: map<string, set<int>>, follows: map<int, set<string>>,
    users: set<int>, groups: set<int>, channels: set<int>)
  {
    function ChatsOf(op: string): set<int> {
      if op in byOperator then byOperator[op] else {}
    }

    function FollowsOf(chat: int): set<string> {
      if chat in follows then follows[chat] else {}
    }

    function Active(): set<int> {
      users + groups + channels
    }

    predicate In(kind: Kind, chat: int) {
      match kind
      case User => chat in users
      case Group => chat in groups
      case Channel => chat in channels
    }
  }

  datatype Kind = User | Group | Channel

  /** What the other chats follow is the same. */
  ghost predicate OthersSame(s: Index, t: Index, chat: int) {
    forall c :: c != chat ==> t.FollowsOf(c) == s.FollowsOf(c)
  }

  ghost predicate SameChats(s: Index, t: Index) {
    t.users == s.users && t.groups == s.groups && t.channels == s.channels
  }

  datatype Action =
    | Follow(chat: int, ops: seq<string>)
    | Unfollow(chat: int, ops: seq<string>)
    | Migrate(oldId: int, newId: int)
    | Join(chat: int, kind: Kind)
    | Leave(chat: int, kind: Kind)

  /** A dictionary of sets with one value added to the sets of the given keys. */
  function Added<K, V>(m: map<K, set<V>>, keys: set<K>, v: V): map<K, set<V>> {
    map k | k in m.Keys + keys :: if k in keys then Get(m, k) + {v} else Get(m, k)
  }

  function Get<K, V>(m: map<K, set<V>>, k: K): set<V> {
    if k in m then m[k] else {}
  }

  lemma {:induction false} AddedNone<K, V>(m: map<K, set<V>>, v: V)
    ensures Added(m, {}, v) == m
  {
    var r := Added(m, {}, v);
    assert r.Keys == m.Keys;
    assert forall k :: k in m ==> r[k] == m[k];
  }

  lemma {:induction false} IsAdded<K, V>(m: map<K, set<V>>, keys: set<K>, v: V, r: map<K, set<V>>)
    requires forall k :: k in r <==> k in m || k in keys
    requires forall k :: k in r ==> r[k] == if k in keys then Get(m, k) + {v} else Get(m, k)
    ensures r == Added(m, keys, v)
  {
    assert r.Keys == Added(m, keys, v).Keys;
  }

  /** Adds the value to the set of each key, in no particular order, making the sets that are missing. */
  method AddToEach<K(==), V(==)>(m: map<K, set<V>>, keys: set<K>, v: V) returns (r: map<K, set<V>>)
    ensures r == Added(m, keys, v)
  {
    r := m;
    var todo := keys;
    while todo != {}
      invariant forall k :: k in todo ==> k in keys
      invariant forall k :: k in r <==> k in m || (k in keys && k !in todo)
      invariant forall k :: k in r ==> r[k] == if k in keys && k !in todo then Get(m, k) + {v} else Get(m, k)
      decreases |todo|
    {
      var k :| k in todo;
      r := r[k := (if k in r then r[k] else {}) + {v}];
      todo := todo - {k};
    }
    IsAdded(m, keys, v, r);
  }

  // ---------------------------------------------------------------- what each action does

  function Subscribed(s: Index, op: string, chat: int): Index {
    s.(byOperator := s.byOperator[op := s.ChatsOf(op) + {chat}])
  }

  function Followed(s: Index, chat: int, op: string): Index {
    Subscribed(s, op, chat).(follows := s.follows[chat := s.FollowsOf(chat) + {op}])
  }

  function FollowedAll(s: Index, chat: int, ops: seq<string>): Index {
    if ops == [] then s else Followed(FollowedAll(s, chat, ops[..|ops| - 1]), chat, ops[|ops| - 1])
  }

  function Unfollowed(s: Index, chat: int, op: string): Index {
    var t := if op in s.byOperator then s.(byOperator := s.byOperator[op := s.byOperator[op] - {chat}]) else s;
    t.(follows := s.follows[chat := s.FollowsOf(chat) - {op}])
  }

  function UnfollowedAll(s: Index, chat: int, ops: seq<string>): Index {
    if ops == [] then s else Unfollowed(UnfollowedAll(s, chat, ops[..|ops| - 1]), chat, ops[|ops| - 1])
  }

  /** `_migrate_chat_subscriptions`: move the old chat's data, or merge it into the new chat's. */
  function MovedFollows(follows: map<int, set<string>>, oldId: int, newId: int): map<int, set<string>> {
    if oldId !in follows then follows
    else if newId !in follows then follows[newId := follows[oldId]] - {oldId}
    else follows[newId := follows[newId] + follows[oldId]] - {oldId}
  }

  function MovedIn(chats: set<int>, oldId: int, newId: int): set<int> {
    if oldId == newId || oldId !in chats then chats else chats - {oldId} + {newId}
  }

  function Migrated(s: Index, oldId: int, newId: int): Index {
    var follows := MovedFollows(s.follows, oldId, newId);
    var moved := map op | op in s.byOperator :: MovedIn(s.byOperator[op], oldId, newId);
    var t := Index(moved, follows, MovedIn(s.users, oldId, newId), MovedIn(s.groups, oldId, newId),
      MovedIn(s.channels, oldId, newId));
    t.(byOperator := Added(moved, t.FollowsOf(newId), newId))
  }

  function Counted(s: Index, chat: int, kind: Kind, present: bool): Index {
    var change := (chats: set<int>) => if present then chats + {chat} else chats - {chat};
    match kind
    case User => s.(users := change(s.users))
    case Group => s.(groups := change(s.groups))
    case Channel => s.(channels := change(s.channels))
  }

  /** An unfollow message is refused unless it names only followed operators. */
  function Next(s: Index, a: Action): Index {
    match a
    case Follow(chat, ops) => FollowedAll(s, chat, ops)
    case Unfollow(chat, ops) =>
      if forall op :: op in ops ==> op in s.FollowsOf(chat) then UnfollowedAll(s, chat, ops) else s
    case Migrate(oldId, newId) => Migrated(s, oldId, newId)
    case Join(chat, kind) => Counted(s, chat, kind, true)
    case Leave(chat, kind) => Counted(s, chat, kind, false)
  }

  function Run(s: Index, actions: seq<Action>): Index {
    if actions == [] then s else Next(Run(s, actions[..|actions| - 1]), actions[|actions| - 1])
  }

  // ---------------------------------------------------------------- agreement

  /** A chat is in an operator's set exactly when the operator is in the chat's. */
  ghost predicate Agrees(s: Index) {
    forall op: string, chat: int :: chat in s.ChatsOf(op) <==> op in s.FollowsOf(chat)
  }

  lemma {:induction false} FollowKeeps(s: Index, chat: int, ops: seq<string>)
    requires Agrees(s)
    ensures Agrees(FollowedAll(s, chat, ops))
    ensures FollowedAll(s, chat, ops).FollowsOf(chat) == s.FollowsOf(chat) + (set op | op in ops)
    ensures OthersSame(s, FollowedAll(s, chat, ops), chat) && SameChats(s, FollowedAll(s, chat, ops))
  {
    if ops == [] {
    } else {
      var t, op := FollowedAll(s, chat, ops[..|ops| - 1]), ops[|ops| - 1];
      FollowKeeps(s, chat, ops[..|ops| - 1]);
      assert ops == ops[..|ops| - 1] + [op];
      forall o: string, c: int
        ensures c in Followed(t, chat, op).ChatsOf(o) <==> o in Followed(t, chat, op).FollowsOf(c)
      {
        assert c in t.ChatsOf(o) <==> o in t.FollowsOf(c);
      }
    }
  }

  lemma {:induction false} UnfollowKeeps(s: Index, chat: int, ops: seq<string>)
    requires Agrees(s)
    ensures Agrees(UnfollowedAll(s, chat, ops))
    ensures UnfollowedAll(s, chat, ops).FollowsOf(chat) == s.FollowsOf(chat) - (set op | op in ops)
    ensures OthersSame(s, UnfollowedAll(s, chat, ops), chat) && SameChats(s, UnfollowedAll(s, chat, ops))
  {
    if ops == [] {
    } else {
      var t, op := UnfollowedAll(s, chat, ops[..|ops| - 1]), ops[|ops| - 1];
      UnfollowKeeps(s, chat, ops[..|ops| - 1]);
      assert ops == ops[..|ops| - 1] + [op];
      forall o: string, c: int
        ensures c in Unfollowed(t, chat, op).ChatsOf(o) <==> o in Unfollowed(t, chat, op).FollowsOf(c)
      {
        assert c in t.ChatsOf(o) <==> o in t.FollowsOf(c);
      }
    }
  }

  /** The new chat ends up following what either followed, and every other chat what it did. */
  lemma {:induction false} MigrateMoves(s: Index, oldId: int, newId: int)
    requires Agrees(s) && oldId != newId
    ensures Agrees(Migrated(s, oldId, newId)) && NoTrace(Migrated(s, oldId, newId), oldId)
    ensures Migrated(s, oldId, newId).FollowsOf(newId) == s.FollowsOf(newId) + s.FollowsOf(oldId)
    ensures forall c :: c != oldId && c != newId ==> Migrated(s, oldId, newId).FollowsOf(c) == s.FollowsOf(c)
    ensures newId in Migrated(s, oldId, newId).Active() <==> newId in s.Active() || oldId in s.Active()
    ensures forall kind, c :: Migrated(s, oldId, newId).In(kind, c) <==>
      c != oldId && (s.In(kind, c) || (c == newId && s.In(kind, oldId)))
  {
    var t := Migrated(s, oldId, newId);
    forall op: string, chat: int ensures chat in t.ChatsOf(op) <==> op in t.FollowsOf(chat) {
      assert oldId in s.ChatsOf(op) <==> op in s.FollowsOf(oldId);
      assert newId in s.ChatsOf(op) <==> op in s.FollowsOf(newId);
      assert chat in s.ChatsOf(op) <==> op in s.FollowsOf(chat);
    }
  }

  /** No index mentions the chat. */
  ghost predicate NoTrace(s: Index, chat: int) {
    && chat !in s.follows && chat !in s.Active()
    && forall op :: op in s.byOperator ==> chat !in s.byOperator[op]
  }

  /** Telegram announces a migration twice, in either chat first; the second time changes nothing. */
  lemma {:induction false} MigrateTwice(s: Index, oldId: int, newId: int)
    requires Agrees(s) && oldId != newId
    ensures Migrated(Migrated(s, oldId, newId), oldId, newId) == Migrated(s, oldId, newId)
  {
    MigrateMoves(s, oldId, newId);
    MigrateNothing(Migrated(s, oldId, newId), oldId, newId);
  }

  lemma {:induction false} MigrateNothing(s: Index, oldId: int, newId: int)
    requires Agrees(s) && oldId != newId && NoTrace(s, oldId)
    ensures Migrated(s, oldId, newId) == s
  {
    var t := Migrated(s, oldId, newId);
    forall op ensures (op in t.byOperator <==> op in s.byOperator) && t.ChatsOf(op) == s.ChatsOf(op) {
      assert newId in s.ChatsOf(op) <==> op in s.FollowsOf(newId);
    }
    assert t.byOperator.Keys == s.byOperator.Keys;
    assert forall op :: op in s.byOperator ==> t.byOperator[op] == t.ChatsOf(op) && s.byOperator[op] == s.ChatsOf(op);
    assert t.byOperator == s.byOperator;
  }

  /** A migration of a chat to itself, which Telegram does not send, would break the agreement exactly
      when the chat follows something: its own data is merged into itself and then dropped. */
  lemma {:induction false} MigrateKeepsIff(s: Index, oldId: int, newId: int)
    requires Agrees(s)
    ensures Agrees(Migrated(s, oldId, newId)) <==> oldId != newId || s.FollowsOf(oldId) == {}
  {
    if oldId != newId {
      MigrateMoves(s, oldId, newId);
    } else {
      var t := Migrated(s, oldId, oldId);
      if s.FollowsOf(oldId) == {} {
        forall op: string, chat: int ensures chat in t.ChatsOf(op) <==> op in t.FollowsOf(chat) {
          assert chat in s.ChatsOf(op) <==> op in s.FollowsOf(chat);
        }
      } else {
        var op :| op in s.FollowsOf(oldId);
        assert oldId in s.ChatsOf(op);
        assert oldId in t.ChatsOf(op) && op !in t.FollowsOf(oldId);
      }
    }
  }

  ghost predicate RealMigrations(actions: seq<Action>) {
    forall k :: 0 <= k < |actions| && actions[k].Migrate? ==> actions[k].oldId != actions[k].newId
  }

  lemma {:induction false} CountedKeeps(s: Index, chat: int, kind: Kind, present: bool)
    requires Agrees(s)
    ensures Agrees(Counted(s, chat, kind, present))
  {
    var t := Counted(s, chat, kind, present);
    forall o: string, c: int ensures c in t.ChatsOf(o) <==> o in t.FollowsOf(c) {
      assert c in s.ChatsOf(o) <==> o in s.FollowsOf(c);
    }
  }

  /** Joining and leaving change whether that chat is active, as that kind, and nothing else. */
  lemma {:induction false} CountedMeans(s: Index, chat: int, kind: Kind, present: bool, k: Kind, c: int)
    ensures var t := Next(s, if present then Join(chat, kind) else Leave(chat, kind));
            && t.byOperator == s.byOperator && t.follows == s.follows
            && (t.In(k, c) <==> if k == kind && c == chat then present else s.In(k, c))
            && (c in t.Active() <==> t.In(User, c) || t.In(Group, c) || t.In(Channel, c))
  {
    match kind {
      case User => assert k == User || k == Group || k == Channel;
      case Group => assert k == User || k == Group || k == Channel;
      case Channel => assert k == User || k == Group || k == Channel;
    }
  }

  /** In every run the two indexes agree. */
  lemma {:induction false} EveryRunAgrees(s: Index, actions: seq<Action>)
    requires Agrees(s) && RealMigrations(actions)
    ensures Agrees(Run(s, actions))
  {
    if actions == [] {
    } else {
      var front, last := actions[..|actions| - 1], actions[|actions| - 1];
      EveryRunAgrees(s, front);
      match last {
        case Follow(chat, ops) => FollowKeeps(Run(s, front), chat, ops);
        case Unfollow(chat, ops) => UnfollowKeeps(Run(s, front), chat, ops);
        case Migrate(oldId, newId) => MigrateMoves(Run(s, front), oldId, newId);
        case Join(chat, kind) => CountedKeeps(Run(s, front), chat, kind, true);
        case Leave(chat, kind) => CountedKeeps(Run(s, front), chat, kind, false);
      }
    }
  }

  // ---------------------------------------------------------------- the storage

  class BotStorage {
    var index: Index

    constructor ()
      ensures index == Index(map[], map[], {}, {}, {}) && Agrees(index)
    {
      index := Index(map[], map[], {}, {}, {});
    }

    /** The follow handlers, once every named operator was found to exist. */
    method FollowMessage(chat: int, ops: seq<string>)
      requires Agrees(index)
      modifies this
      ensures Agrees(index) && index == Next(old(index), Follow(chat, ops))
      ensures index.FollowsOf(chat) == old(index).FollowsOf(chat) + (set op | op in ops)
      ensures forall op :: op in ops ==> chat in index.ChatsOf(op)
      ensures OthersSame(old(index), index, chat) && SameChats(old(index), index)
    {
      FollowKeeps(index, chat, ops);
      for k := 0 to |ops|
        invariant index == FollowedAll(old(index), chat, ops[..k])
      {
        assert ops[..k + 1][..k] == ops[..k];
        index := Subscribed(index, ops[k], chat);
        index := index.(follows := index.follows[chat := index.FollowsOf(chat) + {ops[k]}]);
      }
      assert ops[..|ops|] == ops;
    }

    /** The unfollow handlers: nothing happens when an operator is not followed. */
    method UnfollowMessage(chat: int, ops: seq<string>) returns (done: bool)
      requires Agrees(index)
      modifies this
      ensures Agrees(index) && index == Next(old(index), Unfollow(chat, ops))
      ensures done <==> ops != [] && forall op :: op in ops ==> chat in old(index).ChatsOf(op)
      ensures done ==> index.FollowsOf(chat) == old(index).FollowsOf(chat) - (set op | op in ops)
      ensures done ==> forall op :: op in ops ==> chat !in index.ChatsOf(op)
      ensures !done ==> index == old(index)
      ensures OthersSame(old(index), index, chat) && SameChats(old(index), index)
    {
      UnfollowKeeps(index, chat, ops);
      ghost var before := index;
      assert forall op :: op in ops ==> (chat in index.ChatsOf(op) <==> op in index.FollowsOf(chat));
      for k := 0 to |ops|
        invariant index == before && forall j :: 0 <= j < k ==> ops[j] in index.FollowsOf(chat)
      {
        if ops[k] !in index.FollowsOf(chat) {
          assert ops[k] in ops;
          return false;
        }
      }
      assert forall op :: op in ops ==> op in index.FollowsOf(chat);
      for k := 0 to |ops|
        invariant index == UnfollowedAll(before, chat, ops[..k])
      {
        assert ops[..k + 1][..k] == ops[..k];
        ghost var s := index;
        index := index.(follows := index.follows[chat := index.FollowsOf(chat) - {ops[k]}]);
        if ops[k] in index.byOperator {
          index := index.(byOperator := index.byOperator[ops[k] := index.byOperator[ops[k]] - {chat}]);
        }
        assert index == Unfollowed(s, chat, ops[k]);
      }
      assert ops[..|ops|] == ops;
      done := ops != [];
    }

    /** `chat_migration`. */
    method ChatMigration(oldId: int, newId: int)
      requires Agrees(index) && oldId != newId
      modifies this
      ensures Agrees(index) && index == Next(old(index), Migrate(oldId, newId)) && NoTrace(index, oldId)
      ensures index.FollowsOf(newId) == old(index).FollowsOf(oldId) + old(index).FollowsOf(newId)
      ensures forall c :: c != oldId && c != newId ==> index.FollowsOf(c) == old(index).FollowsOf(c)
      ensures forall kind, c :: index.In(kind, c) <==>
        c != oldId && (old(index).In(kind, c) || (c == newId && old(index).In(kind, oldId)))
    {
      ghost var s := index;
      MigrateMoves(s, oldId, newId);
      MigrateSubscriptions(oldId, newId);
      index := index.(users := MovedIn(index.users, oldId, newId), groups := MovedIn(index.groups, oldId, newId),
                      channels := MovedIn(index.channels, oldId, newId));
      MigrateOperatorSets(oldId, newId);
      if newId in index.follows {
        SubscribeAll(newId, index.follows[newId]);
      } else {
        AddedNone(index.byOperator, newId);
      }
    }

    /** `_migrate_chat_subscriptions`. */
    method MigrateSubscriptions(oldId: int, newId: int)
      modifies this
      ensures index == old(index).(follows := MovedFollows(old(index).follows, oldId, newId))
    {
      if oldId !in index.follows {
        return;
      }
      if newId !in index.follows {
        index := index.(follows := index.follows[newId := index.follows[oldId]] - {oldId});
        return;
      }
      var todo := index.follows[oldId];
      ghost var s := index;
      while todo != {}
        invariant newId in index.follows && todo <= s.follows[oldId]
        invariant index == s.(follows := s.follows[newId := index.follows[newId]])
        invariant index.follows[newId] + todo == s.follows[newId] + s.follows[oldId]
        decreases |todo|
      {
        var op :| op in todo;
        index := index.(follows := index.follows[newId := index.follows[newId] + {op}]);
        todo := todo - {op};
      }
      index := index.(follows := index.follows - {oldId});
    }

    /** `NodeOperatorChats.migrate_chat_id`. */
    method MigrateOperatorSets(oldId: int, newId: int)
      modifies this
      ensures index == old(index).(byOperator :=
        map op | op in old(index).byOperator :: MovedIn(old(index).byOperator[op], oldId, newId))
    {
      ghost var m := index.byOperator;
      var todo := index.byOperator.Keys;
      while todo != {}
        invariant index == old(index).(byOperator := index.byOperator)
        invariant todo <= m.Keys && index.byOperator.Keys == m.Keys
        invariant forall op :: op in m ==>
          index.byOperator[op] == if op in todo then m[op] else MovedIn(m[op], oldId, newId)
        decreases |todo|
      {
        var op :| op in todo;
        var chats := index.byOperator[op];
        if oldId != newId && oldId in chats {
          index := index.(byOperator := index.byOperator[op := chats - {oldId} + {newId}]);
        }
        todo := todo - {op};
      }
    }

    /** The closing loop of `chat_migration`. */
    method SubscribeAll(chat: int, ops: set<string>)
      modifies this
      ensures index == old(index).(byOperator := Added(old(index).byOperator, ops, chat))
    {
      var byOperator := AddToEach(index.byOperator, ops, chat);
      index := index.(byOperator := byOperator);
    }

    // -------------------------------------------------------------- delivery

    /** `_deliver_per_chat`: each active chat that follows one of the operators is rendered once, for
        exactly the delivery's operators it follows. */
    method DeliverPerChat(ops: seq<string>) returns (byChat: map<int, set<string>>)
      requires Agrees(index)
      ensures forall c :: c in byChat <==> c in index.Active() && index.FollowsOf(c) * (set op | op in ops) != {}
      ensures forall c :: c in byChat ==> byChat[c] == index.FollowsOf(c) * (set op | op in ops)
    {
      byChat := map[];
      for k := 0 to |ops|
        invariant forall c :: c in byChat <==>
          c in index.Active() && exists j :: 0 <= j < k && c in index.ChatsOf(ops[j])
        invariant forall c :: c in byChat ==> byChat[c] == set j | 0 <= j < k && c in index.ChatsOf(ops[j]) :: ops[j]
      {
        var active := index.ChatsOf(ops[k]) * index.Active();
        byChat := AddToEach(byChat, active, ops[k]);
      }
      forall c: int ensures c in byChat <==> c in index.Active() && index.FollowsOf(c) * (set op | op in ops) != {} {
        if c in index.Active() && index.FollowsOf(c) * (set op | op in ops) != {} {
          var op :| op in index.FollowsOf(c) * (set op | op in ops);
          var j :| 0 <= j < |ops| && ops[j] == op;
          assert c in index.ChatsOf(ops[j]);
        }
        if c in byChat {
          var j :| 0 <= j < |ops| && c in index.ChatsOf(ops[j]);
          assert ops[j] in index.FollowsOf(c) * (set op | op in ops);
        }
      }
    }

    /** `_deliver_broadcast`: every active chat, or those that follow one of the operators. */
    method BroadcastTargets(ops: Option<seq<string>>) returns (chats: set<int>)
      requires Agrees(index)
      ensures ops.None? ==> forall c :: c in chats <==> c in index.users || c in index.groups || c in index.channels
      ensures ops.Some? ==> forall c :: c in chats <==>
        c in index.Active() && index.FollowsOf(c) * (set op | op in ops.value) != {}
    {
      if ops.None? {
        return index.Active();
      }
      var targets: set<int> := {};
      for k := 0 to |ops.value|
        invariant forall c :: c in targets <==> exists j :: 0 <= j < k && c in index.ChatsOf(ops.value[j])
      {
        targets := targets + index.ChatsOf(ops.value[k]);
      }
      chats := targets * index.Active();
      forall c: int ensures c in targets <==> index.FollowsOf(c) * (set op | op in ops.value) != {} {
        if index.FollowsOf(c) * (set op | op in ops.value) != {} {
          var op :| op in index.FollowsOf(c) * (set op | op in ops.value);
          var j :| 0 <= j < |ops.value| && ops.value[j] == op;
          assert c in index.ChatsOf(ops.value[j]);
        }
        if c in targets {
          var j :| 0 <= j < |ops.value| && c in index.ChatsOf(ops.value[j]);
          assert ops.value[j] in index.FollowsOf(c) * (set op | op in ops.value);
        }
      }
    }
  }
}
