/**
 * The bookkeeping of the option-chain stream manager, as values: which
 * websockets are registered under which (symbol, expiry) topic, which upstream
 * task serves each topic, and which tasks were cancelled. The class
 * `OptionChainStreamer.StreamManager` updates its fields in place and is proved
 * to follow these functions step by step.
 */
module TopicRegistry {

  /** A client websocket, identified opaquely. */
  type Socket = nat

  /** The topic key `(symbol, expiry)`. */
  datatype Key = Key(symbol: string, expiry: string)

  /** The `id`-th task `asyncio.create_task` started, running `start_stream` for `topic`. */
  datatype Task = Task(id: nat, topic: Key)

  /**
   * `order` lists the keys of the `clients` dictionary in insertion order (the
   * order `disconnect` scans them in); `launched` counts the tasks created so
   * far; `cancelled` logs every `task.cancel()` call.
   */
  datatype Registry = Registry(
    order: seq<Key>,
    clients: map<Key, set<Socket>>,
    tasks: map<Key, Task>,
    launched: nat,
    cancelled: seq<Task>)

  /** The manager as its constructor leaves it. */
  const Initial := Registry([], map[], map[], 0, [])

  predicate Distinct<T(==)>(s: seq<T>)
  {
    forall i, j :: 0 <= i < j < |s| ==> s[i] != s[j]
  }

  function Elems<T>(s: seq<T>): set<T>
  {
    set x | x in s
  }

  /** `order` really is the key list of the `clients` dictionary. */
  ghost predicate WellFormed(r: Registry)
  {
    Distinct(r.order) && r.clients.Keys == Elems(r.order)
  }

  /**
   * What the manager maintains: a task for exactly the topics that have
   * clients, no topic with an empty client set, and every task streaming its
   * own topic.
   */
  ghost predicate Inv(r: Registry)
  {
    r.tasks.Keys == r.clients.Keys &&
    (forall k :: k in r.clients ==> r.clients[k] != {}) &&
    (forall k :: k in r.tasks ==> r.tasks[k].topic == k && r.tasks[k].id < r.launched)
  }

  /** No websocket is registered under two topics (one `connect` per connection). */
  ghost predicate Exclusive(r: Registry)
  {
    forall k1, k2, ws :: Holds(r.clients, k1, ws) && Holds(r.clients, k2, ws) ==> k1 == k2
  }

  predicate Holds(clients: map<Key, set<Socket>>, k: Key, ws: Socket)
  {
    k in clients && ws in clients[k]
  }

  /** `connect`: register `ws` under `key`, creating the set and the task when absent. */
  function Connect(r: Registry, ws: Socket, key: Key): (r': Registry)
    requires WellFormed(r)
    ensures WellFormed(r')
    ensures key in r'.clients
    ensures r'.order == if key in r.clients then r.order else r.order + [key]
    ensures r'.clients[key] == (if key in r.clients then r.clients[key] else {}) + {ws}
    ensures r'.clients - {key} == r.clients - {key}
    ensures key in r.tasks ==> r'.tasks == r.tasks && r'.launched == r.launched
    ensures key !in r.tasks ==> r'.tasks == r.tasks[key := Task(r.launched, key)] && r'.launched == r.launched + 1
    ensures r'.cancelled == r.cancelled
  {
    var order := if key in r.clients then r.order else r.order + [key];
    var members := if key in r.clients then r.clients[key] else {};
    var r1 := r.(order := order, clients := r.clients[key := members + {ws}]);
    if key in r.tasks then r1
    else r1.(tasks := r.tasks[key := Task(r.launched, key)], launched := r.launched + 1)
  }

  /** `connect` keeps the manager's invariant. */
  lemma ConnectKeepsInv(r: Registry, ws: Socket, key: Key)
    requires WellFormed(r) && Inv(r)
    ensures Inv(Connect(r, ws, key))
  {
    var r' := Connect(r, ws, key);
    assert r'.clients.Keys == r.clients.Keys + {key};
    forall k | k in r'.tasks ensures r'.tasks[k].topic == k && r'.tasks[k].id < r'.launched {
      if k != key {
        assert r'.tasks[k] == r.tasks[k];
      }
    }
  }

  /** Index of the first key, in dictionary order, whose set holds `ws`; |order| if none does. */
  function Holder(order: seq<Key>, clients: map<Key, set<Socket>>, ws: Socket): (i: nat)
    ensures i <= |order|
    ensures i < |order| ==> Holds(clients, order[i], ws)
    ensures forall j :: 0 <= j < i ==> !Holds(clients, order[j], ws)
  {
    if order == [] then 0
    else if Holds(clients, order[0], ws) then 0
    else 1 + Holder(order[1..], clients, ws)
  }

  lemma RemoveAt(order: seq<Key>, i: nat)
    requires Distinct(order) && i < |order|
    ensures Distinct(order[..i] + order[i + 1..])
    ensures forall k :: k in order[..i] + order[i + 1..] <==> k in order && k != order[i]
  {
    var s := order[..i] + order[i + 1..];
    assert forall j :: 0 <= j < |s| ==> s[j] == order[if j < i then j else j + 1];
    forall k | k in order && k != order[i] ensures k in s {
      var j :| 0 <= j < |order| && order[j] == k;
      assert s[if j < i then j else j - 1] == k;
    }
  }

  /**
   * `disconnect`: take `ws` out of the first topic that holds it and stop
   * looking; a topic left empty has its task (if any) cancelled and is dropped
   * from both dictionaries.
   */
  function Disconnect(r: Registry, ws: Socket): (r': Registry)
    requires WellFormed(r)
    ensures WellFormed(r')
    ensures r'.launched == r.launched
    ensures forall k :: k in r'.clients ==> k in r.clients && r'.clients[k] <= r.clients[k]
  {
    var i := Holder(r.order, r.clients, ws);
    if i == |r.order| then r else TakeOut(r, i, ws)
  }

  /** The body of `disconnect`'s loop for the key at position `i`. */
  function TakeOut(r: Registry, i: nat, ws: Socket): (r': Registry)
    requires WellFormed(r) && i < |r.order|
    ensures WellFormed(r')
    ensures r'.launched == r.launched
    ensures forall k :: k in r'.clients ==> k in r.clients && r'.clients[k] <= r.clients[k]
  {
    var key := r.order[i];
    var rest := r.clients[key] - {ws};
    if rest != {} then r.(clients := r.clients[key := rest])
    else
      RemoveAt(r.order, i);
      Registry(
        r.order[..i] + r.order[i + 1..],
        r.clients - {key},
        r.tasks - {key},
        r.launched,
        if key in r.tasks then r.cancelled + [r.tasks[key]] else r.cancelled)
  }

  /** `order` without `key`, the other keys keeping their order: what `del` does to a dictionary's key list. */
  function Drop(order: seq<Key>, key: Key): (r: seq<Key>)
    ensures forall k :: k in r <==> k in order && k != key
  {
    if order == [] then []
    else
      assert forall k :: k in order <==> k == order[0] || k in order[1..] by {
        assert order == [order[0]] + order[1..];
      }
      (if order[0] == key then [] else [order[0]]) + Drop(order[1..], key)
  }

  lemma {:induction false} DropAbsent(order: seq<Key>, key: Key)
    requires key !in order
    ensures Drop(order, key) == order
  {
    if order != [] {
      assert order[0] != key;
      assert key !in order[1..];
      DropAbsent(order[1..], key);
      assert [order[0]] + order[1..] == order;
    }
  }

  /** Deleting the key at position `i` of a duplicate-free key list drops it and nothing else. */
  lemma {:induction false} DropAt(order: seq<Key>, i: nat)
    requires Distinct(order) && i < |order|
    ensures Drop(order, order[i]) == order[..i] + order[i + 1..]
  {
    var key := order[i];
    if i == 0 {
      assert key !in order[1..];
      DropAbsent(order[1..], key);
    } else {
      var tail := order[1..];
      assert tail[i - 1] == key && order[0] != key;
      assert Distinct(tail);
      DropAt(tail, i - 1);
      assert [order[0]] + (tail[..i - 1] + tail[i..]) == order[..i] + order[i + 1..];
    }
  }

  /**
   * `r'` is `r` with the client set of `key` cut down to `kept`: when `kept` is
   * empty the topic is gone from both dictionaries, its key from their key
   * order, and its task has been cancelled; otherwise the topic keeps its task
   * and its place. No other topic changes, and the other keys keep their order.
   */
  ghost predicate Narrowed(r: Registry, r': Registry, key: Key, kept: set<Socket>)
    requires Inv(r) && key in r.clients
  {
    && r'.launched == r.launched
    && r'.order == (if kept == {} then Drop(r.order, key) else r.order)
    && r'.clients == (if kept == {} then r.clients - {key} else r.clients[key := kept])
    && r'.tasks == (if kept == {} then r.tasks - {key} else r.tasks)
    && r'.cancelled == (if kept == {} then r.cancelled + [r.tasks[key]] else r.cancelled)
  }

  /**
   * What `disconnect` does to the first topic, in dictionary order, that holds
   * `ws`: the last client's departure tears the topic down (its task is
   * cancelled and the key leaves both dictionaries), any other departure keeps
   * both entries. Every other topic, including later ones that also hold `ws`,
   * is left as it was.
   */
  lemma DisconnectFirstHolder(r: Registry, ws: Socket, i: nat)
    requires WellFormed(r) && Inv(r)
    requires i < |r.order| && Holds(r.clients, r.order[i], ws)
    requires forall j :: 0 <= j < i ==> !Holds(r.clients, r.order[j], ws)
    ensures Narrowed(r, Disconnect(r, ws), r.order[i], r.clients[r.order[i]] - {ws})
  {
    HolderIs(r, ws, i);
    DropAt(r.order, i);
  }

  lemma HolderIs(r: Registry, ws: Socket, i: nat)
    requires i <= |r.order|
    requires i < |r.order| ==> Holds(r.clients, r.order[i], ws)
    requires forall j :: 0 <= j < i ==> !Holds(r.clients, r.order[j], ws)
    ensures Holder(r.order, r.clients, ws) == i
  {
  }

  /** The same, for a websocket that only one topic holds. */
  lemma DisconnectOnlyHolder(r: Registry, ws: Socket, key: Key)
    requires WellFormed(r) && Inv(r)
    requires Holds(r.clients, key, ws)
    requires forall k :: Holds(r.clients, k, ws) ==> k == key
    ensures Narrowed(r, Disconnect(r, ws), key, r.clients[key] - {ws})
  {
    var i :| 0 <= i < |r.order| && r.order[i] == key;
    forall j | 0 <= j < i ensures !Holds(r.clients, r.order[j], ws) {
      assert r.order[j] != r.order[i];
    }
    DisconnectFirstHolder(r, ws, i);
  }

  /** Narrowing a topic to a non-empty part of its clients, or dropping it, keeps the invariant. */
  lemma NarrowedKeepsInv(r: Registry, r': Registry, key: Key, kept: set<Socket>)
    requires Inv(r) && key in r.clients && Narrowed(r, r', key, kept)
    ensures Inv(r')
  {
    if kept == {} {
      assert r'.clients.Keys == r.clients.Keys - {key};
    } else {
      assert r'.clients.Keys == r.clients.Keys;
    }
  }

  /** `disconnect` keeps the manager's invariant. */
  lemma DisconnectKeepsInv(r: Registry, ws: Socket)
    requires WellFormed(r)
    ensures Inv(r) ==> Inv(Disconnect(r, ws))
  {
    var i := Holder(r.order, r.clients, ws);
    if Inv(r) && i < |r.order| {
      DisconnectFirstHolder(r, ws, i);
      NarrowedKeepsInv(r, Disconnect(r, ws), r.order[i], r.clients[r.order[i]] - {ws});
    }
  }

  /** A socket no topic holds is disconnected without effect. */
  lemma DisconnectUnknown(r: Registry, ws: Socket)
    requires WellFormed(r)
    requires forall k :: k in r.clients ==> ws !in r.clients[k]
    ensures Disconnect(r, ws) == r
  {
  }

  /** `for client in to_remove: self.disconnect(client)`. */
  function DisconnectAll(r: Registry, socks: seq<Socket>): (r': Registry)
    requires WellFormed(r)
    ensures WellFormed(r')
    ensures r'.launched == r.launched
    ensures forall k :: k in r'.clients ==> k in r.clients && r'.clients[k] <= r.clients[k]
    ensures Inv(r) ==> Inv(r')
    decreases |socks|
  {
    if socks == [] then r
    else
      var r1 := DisconnectAll(r, socks[..|socks| - 1]);
      DisconnectKeepsInv(r1, socks[|socks| - 1]);
      Disconnect(r1, socks[|socks| - 1])
  }
  /** Disconnecting one more websocket extends the batch by one step. */
  lemma DisconnectAllStep(r: Registry, socks: seq<Socket>, n: nat)
    requires WellFormed(r) && n < |socks|
    ensures DisconnectAll(r, socks[..n + 1]) == Disconnect(DisconnectAll(r, socks[..n]), socks[n])
  {
    assert socks[..n + 1][..n] == socks[..n];
  }


  /** The `to_remove` list `broadcast` builds: the attempted sockets whose send raised, in attempt order. */
  function Failures(attempts: seq<Socket>, failing: set<Socket>): (f: seq<Socket>)
    ensures forall s :: s in f <==> s in attempts && s in failing
    ensures Distinct(attempts) ==> Distinct(f)
    decreases |attempts|
  {
    if attempts == [] then []
    else
      var init, last := attempts[..|attempts| - 1], attempts[|attempts| - 1];
      assert attempts == init + [last];
      var f := Failures(init, failing);
      if last in failing then
        assert Distinct(attempts) ==> last !in init;
        f + [last]
      else f
  }

  lemma ExclusiveShrinks(r: Registry, r': Registry)
    requires Exclusive(r)
    requires forall k :: k in r'.clients ==> k in r.clients && r'.clients[k] <= r.clients[k]
    ensures Exclusive(r')
  {
    forall k1, k2, ws | Holds(r'.clients, k1, ws) && Holds(r'.clients, k2, ws) ensures k1 == k2 {
      assert Holds(r.clients, k1, ws) && Holds(r.clients, k2, ws);
    }
  }

  /** Narrowing twice is narrowing once. */
  lemma NarrowedTwice(r: Registry, r1: Registry, r2: Registry, key: Key, kept1: set<Socket>, kept2: set<Socket>)
    requires Inv(r) && key in r.clients && kept1 != {}
    requires Narrowed(r, r1, key, kept1)
    requires Inv(r1) && Narrowed(r1, r2, key, kept2)
    ensures Narrowed(r, r2, key, kept2)
  {
    if kept2 == {} {
      assert r.clients[key := kept1] - {key} == r.clients - {key};
    } else {
      assert r.clients[key := kept1][key := kept2] == r.clients[key := kept2];
    }
  }

  /** A websocket held by one topic of a registry with no shared websockets is held by no other. */
  lemma OnlyHolder(r: Registry, key: Key, ws: Socket)
    requires Exclusive(r) && Holds(r.clients, key, ws)
    ensures forall k :: Holds(r.clients, k, ws) ==> k == key
  {
  }

  /** One more client of a narrowed topic leaves. */
  lemma NarrowStep(r: Registry, r1: Registry, key: Key, kept: set<Socket>, ws: Socket)
    requires WellFormed(r) && Inv(r) && Exclusive(r) && key in r.clients
    requires WellFormed(r1) && Inv(r1) && kept != {} && Narrowed(r, r1, key, kept)
    requires ws in kept && kept <= r.clients[key]
    ensures Narrowed(r, Disconnect(r1, ws), key, kept - {ws})
  {
    assert r1.clients == r.clients[key := kept];
    ExclusiveShrinks(r, r1);
    OnlyHolder(r1, key, ws);
    DisconnectOnlyHolder(r1, ws, key);
    NarrowedTwice(r, r1, Disconnect(r1, ws), key, kept, kept - {ws});
  }

  /**
   * Taking distinct clients of one topic out, one by one, leaves that topic
   * with the remaining clients, or tears it down when none remain; no other
   * topic changes.
   */
  lemma {:induction false} DisconnectClientsOfTopic(r: Registry, key: Key, socks: seq<Socket>)
    requires WellFormed(r) && Inv(r) && Exclusive(r)
    requires key in r.clients
    requires Distinct(socks) && Elems(socks) <= r.clients[key]
    ensures Narrowed(r, DisconnectAll(r, socks), key, r.clients[key] - Elems(socks))
    decreases |socks|
  {
    if socks == [] {
      assert r.clients[key] - Elems(socks) == r.clients[key];
      assert r.clients[key := r.clients[key]] == r.clients;
    } else {
      var init, last := socks[..|socks| - 1], socks[|socks| - 1];
      DistinctSnoc(socks);
      DisconnectClientsOfTopic(r, key, init);
      var r1 := DisconnectAll(r, init);
      var kept := r.clients[key] - Elems(init);
      assert last in kept;
      assert kept - {last} == r.clients[key] - Elems(socks);
      NarrowStep(r, r1, key, kept, last);
      DisconnectAllStep(r, socks, |socks| - 1);
      assert socks[..|socks| - 1] == init;
    }
  }

  lemma DistinctSnoc<T>(s: seq<T>)
    requires Distinct(s) && s != []
    ensures Distinct(s[..|s| - 1]) && s[|s| - 1] !in s[..|s| - 1]
    ensures Elems(s) == Elems(s[..|s| - 1]) + {s[|s| - 1]}
  {
    assert s == s[..|s| - 1] + [s[|s| - 1]];
  }

  lemma DistinctAppend<T>(s: seq<T>, x: T)
    requires Distinct(s) && x !in s
    ensures Distinct(s + [x])
    ensures Elems(s + [x]) == Elems(s) + {x}
  {
  }

  lemma ElemsEmpty<T>(s: seq<T>)
    ensures Elems(s) == {} ==> s == []
  {
    if s != [] {
      assert s[0] in Elems(s);
    }
  }

  /**
   * `broadcast` with one websocket per topic: after one send attempt to each
   * client of `key`, exactly the clients whose send failed are gone, the
   * others stay, and the topic is torn down when every send failed. An unknown
   * topic gets no attempt and nothing changes.
   */
  lemma BroadcastEvicts(r: Registry, key: Key, attempts: seq<Socket>, failing: set<Socket>)
    requires WellFormed(r) && Inv(r) && Exclusive(r)
    requires Distinct(attempts)
    requires Elems(attempts) == if key in r.clients then r.clients[key] else {}
    ensures key !in r.clients ==> DisconnectAll(r, Failures(attempts, failing)) == r
    ensures key in r.clients ==>
      Narrowed(r, DisconnectAll(r, Failures(attempts, failing)), key, r.clients[key] - failing)
  {
    var f := Failures(attempts, failing);
    if key !in r.clients {
      ElemsEmpty(attempts);
    } else {
      DisconnectClientsOfTopic(r, key, f);
      assert r.clients[key] - Elems(f) == r.clients[key] - failing;
    }
  }

  /**
   * Two clients on one topic share one upstream task; the first to leave keeps
   * it running, the second cancels it and removes the topic.
   */
  lemma TopicLifecycle(r: Registry, a: Socket, b: Socket, key: Key)
    requires WellFormed(r) && Inv(r)
    requires key !in r.clients && a != b
    requires forall k :: k in r.clients ==> a !in r.clients[k] && b !in r.clients[k]
    ensures var r2 := Connect(Connect(r, a, key), b, key);
      && r2.launched == r.launched + 1 && r2.tasks[key] == Task(r.launched, key)
      && var r3 := Disconnect(r2, a);
      && r3.tasks == r2.tasks && r3.cancelled == r.cancelled
      && var r4 := Disconnect(r3, b);
      && r4.clients == r.clients && r4.tasks == r.tasks
      && r4.cancelled == r.cancelled + [Task(r.launched, key)]
  {
    JoinTwo(r, a, b, key);
    var r2 := Connect(Connect(r, a, key), b, key);
    assert r2.tasks - {key} == r.tasks by {
      assert r2.tasks == r.tasks[key := Task(r.launched, key)];
      assert r.tasks[key := Task(r.launched, key)] - {key} == r.tasks;
    }
    LeaveTwo(r, r2, a, b, key);
  }

  /** The two arrivals of `TopicLifecycle`. */
  lemma JoinTwo(r: Registry, a: Socket, b: Socket, key: Key)
    requires WellFormed(r) && Inv(r) && key !in r.clients
    ensures var r2 := Connect(Connect(r, a, key), b, key);
      && Inv(r2)
      && r2.clients == r.clients[key := {a, b}]
      && r2.tasks == r.tasks[key := Task(r.launched, key)]
      && r2.launched == r.launched + 1
      && r2.cancelled == r.cancelled
  {
    var r1 := Connect(r, a, key);
    ConnectKeepsInv(r, a, key);
    ConnectFresh(r, a, key);
    ConnectKeepsInv(r1, b, key);
    ConnectFresh2(r1, r, b, key);
    assert {a} + {b} == {a, b};
  }

  /** The two departures of `TopicLifecycle`. */
  lemma LeaveTwo(r: Registry, r2: Registry, a: Socket, b: Socket, key: Key)
    requires WellFormed(r2) && Inv(r2) && key !in r.clients && a != b
    requires r2.clients == r.clients[key := {a, b}]
    requires forall k :: k in r.clients ==> a !in r.clients[k] && b !in r.clients[k]
    ensures Disconnect(r2, a).tasks == r2.tasks && Disconnect(r2, a).cancelled == r2.cancelled
    ensures var r4 := Disconnect(Disconnect(r2, a), b);
      r4.clients == r.clients && r4.tasks == r2.tasks - {key} &&
      r4.cancelled == r2.cancelled + [r2.tasks[key]]
  {
    LeaveFirst(r, r2, a, b, key);
    var r3 := Disconnect(r2, a);
    LeaveLast(r, r3, b, key);
  }

  lemma LeaveFirst(r: Registry, r2: Registry, a: Socket, b: Socket, key: Key)
    requires WellFormed(r2) && Inv(r2) && key !in r.clients && a != b
    requires r2.clients == r.clients[key := {a, b}]
    requires forall k :: k in r.clients ==> a !in r.clients[k]
    ensures var r3 := Disconnect(r2, a);
      r3.clients == r.clients[key := {b}] && r3.tasks == r2.tasks && r3.cancelled == r2.cancelled && Inv(r3)
  {
    DisconnectOnlyHolder(r2, a, key);
    assert {a, b} - {a} == {b};
    NarrowedKeepsInv(r2, Disconnect(r2, a), key, {b});
  }

  lemma LeaveLast(r: Registry, r3: Registry, b: Socket, key: Key)
    requires WellFormed(r3) && Inv(r3) && key !in r.clients
    requires r3.clients == r.clients[key := {b}]
    requires forall k :: k in r.clients ==> b !in r.clients[k]
    ensures var r4 := Disconnect(r3, b);
      r4.clients == r.clients && r4.tasks == r3.tasks - {key} && r4.cancelled == r3.cancelled + [r3.tasks[key]]
  {
    DisconnectOnlyHolder(r3, b, key);
    assert r.clients[key := {b}] - {key} == r.clients;
  }

  lemma UpdateFromParts<K, V>(m1: map<K, V>, m2: map<K, V>, key: K)
    requires key in m1 && m1 - {key} == m2 - {key}
    ensures m1 == m2[key := m1[key]]
  {
    forall k | k != key ensures k in m1 <==> k in m2 {
      assert k in m1 <==> k in m1 - {key};
      assert k in m2 <==> k in m2 - {key};
    }
    forall k | k != key && k in m1 ensures m1[k] == m2[k] {
      assert m1[k] == (m1 - {key})[k];
      assert m2[k] == (m2 - {key})[k];
    }
  }

  /** `connect` on a topic nobody has joined yet. */
  lemma ConnectFresh(r: Registry, ws: Socket, key: Key)
    requires WellFormed(r) && Inv(r) && key !in r.clients
    ensures Connect(r, ws, key).clients == r.clients[key := {ws}]
    ensures Connect(r, ws, key).tasks == r.tasks[key := Task(r.launched, key)]
  {
    var r' := Connect(r, ws, key);
    assert r'.clients[key] == {ws};
    UpdateFromParts(r'.clients, r.clients, key);
  }

  lemma ConnectFresh2(r1: Registry, r: Registry, ws: Socket, key: Key)
    requires WellFormed(r1) && key in r1.clients && key in r1.tasks
    requires r1.clients == r.clients[key := r1.clients[key]]
    ensures Connect(r1, ws, key).clients == r.clients[key := r1.clients[key] + {ws}]
    ensures Connect(r1, ws, key).tasks == r1.tasks
  {
    var r2 := Connect(r1, ws, key);
    UpdateFromParts(r2.clients, r1.clients, key);
    assert r.clients[key := r1.clients[key]][key := r1.clients[key] + {ws}] == r.clients[key := r1.clients[key] + {ws}];
  }
}
