/**
 * The option-chain stream manager: a registry of websocket clients per
 * (symbol, expiry) topic with one upstream task per topic, the fan-out of each
 * upstream event to a topic's clients, and the checks `start_stream` makes
 * before it subscribes to the feed.
 *
 * The manager's dictionaries are fields updated in place; each method is
 * proved to move the state exactly as the matching function of
 * `TopicRegistry` says, and the properties are proved about those functions.
 */
module OptionChainStreamer {
  import opened Wrappers
  import opened TopicRegistry
  import opened IsoDate

  /** What `start_stream` reads of each option of the chain. */
  datatype ChainOption = ChainOption(streamerSymbol: string, underlyingSymbol: string)

  /** How `start_stream` ends its checks: one of four early returns, or the two subscriptions. */
  datatype StreamPlan =
    | NoChain
    | InvalidExpiry
    | ExpiryNotInChain
    | NoOptions
    | Subscribe(quoteSymbols: set<string>, greeksSymbols: seq<string>)

  /**
   * The prefix of `start_stream`: given the option chain of the symbol (by
   * expiry date) and the requested expiry text, either stop early or name the
   * symbols to subscribe to. The quote subscription list is built from a
   * Python set, so only its elements, not their order, are determined.
   */
  function PlanStream(chain: map<Date, seq<ChainOption>>, expiry: string): (p: StreamPlan)
    ensures p.NoChain? <==> chain == map[]
    ensures p.InvalidExpiry? <==> chain != map[] && ParseYmd(expiry).None?
    ensures p.ExpiryNotInChain? <==>
      chain != map[] && ParseYmd(expiry).Some? && ParseYmd(expiry).value !in chain
    ensures p.NoOptions? <==>
      chain != map[] && ParseYmd(expiry).Some? && ParseYmd(expiry).value in chain &&
      chain[ParseYmd(expiry).value] == []
    ensures p.Subscribe? ==>
      ParseYmd(expiry).Some? && ParseYmd(expiry).value in chain &&
      var options := chain[ParseYmd(expiry).value];
      && options != []
      && |p.greeksSymbols| == |options|
      && (forall i :: 0 <= i < |options| ==> p.greeksSymbols[i] == options[i].streamerSymbol)
      && (forall u :: u in p.quoteSymbols <==> exists o :: o in options && o.underlyingSymbol == u)
  {
    if chain == map[] then NoChain
    else match ParseYmd(expiry)
      case None => InvalidExpiry
      case Some(date) =>
        if date !in chain then ExpiryNotInChain
        else
          var options := chain[date];
          if options == [] then NoOptions
          else Subscribe(
            set o | o in options :: o.underlyingSymbol,
            seq(|options|, i requires 0 <= i < |options| => options[i].streamerSymbol))
  }

  /** The underlying quote subscription never names more symbols than there are options. */
  lemma {:induction false} QuoteSymbolsDeduplicated(chain: map<Date, seq<ChainOption>>, expiry: string)
    requires PlanStream(chain, expiry).Subscribe?
    ensures |PlanStream(chain, expiry).quoteSymbols| <= |PlanStream(chain, expiry).greeksSymbols|
  {
    var options := chain[ParseYmd(expiry).value];
    UnderlyingsBounded(options);
  }

  lemma {:induction false} UnderlyingsBounded(options: seq<ChainOption>)
    ensures |set o | o in options :: o.underlyingSymbol| <= |options|
  {
    if options != [] {
      var rest := options[1..];
      UnderlyingsBounded(rest);
      assert options == [options[0]] + rest;
      assert (set o | o in options :: o.underlyingSymbol)
          == (set o | o in rest :: o.underlyingSymbol) + {options[0].underlyingSymbol};
    }
  }

  /** One iteration of the send loop keeps its invariants. */
  lemma SendStep(attempts: seq<Socket>, pending: set<Socket>, members: set<Socket>,
                 failing: set<Socket>, client: Socket)
    requires Distinct(attempts) && Elems(attempts) !! pending
    requires Elems(attempts) + pending == members && client in pending
    ensures Distinct(attempts + [client])
    ensures Elems(attempts + [client]) !! pending - {client}
    ensures Elems(attempts + [client]) + (pending - {client}) == members
    ensures Failures(attempts + [client], failing)
        == Failures(attempts, failing) + (if client in failing then [client] else [])
  {
    var next := attempts + [client];
    assert next[..|next| - 1] == attempts;
    DistinctAppend(attempts, client);
  }

  /** One send attempt per client of a topic, in some order; the clients
      whose send fails are collected, in attempt order, for removal. */
  method SendToAll(members: set<Socket>, failing: set<Socket>)
    returns (attempts: seq<Socket>, toRemove: seq<Socket>)
    ensures Distinct(attempts)
    ensures Elems(attempts) == members
    ensures toRemove == Failures(attempts, failing)
  {
    var pending := members;
    toRemove := [];
    attempts := [];
    while pending != {}
      invariant Distinct(attempts)
      invariant Elems(attempts) !! pending
      invariant Elems(attempts) + pending == members
      invariant toRemove == Failures(attempts, failing)
      decreases |pending|
    {
      var client :| client in pending;
      SendStep(attempts, pending, members, failing, client);
      attempts := attempts + [client];
      if client in failing {
        toRemove := toRemove + [client];
      }
      pending := pending - {client};
    }
  }

  /**
   * `StreamManager`: the `clients` and `tasks` dictionaries of the source,
   * with `order` holding the insertion order of `clients` (the order
   * `disconnect` scans it in), `launched` counting the tasks created with
   * `asyncio.create_task`, and `cancelled` logging `task.cancel()` calls.
   */
  class StreamManager {
    var order: seq<Key>
    var clients: map<Key, set<Socket>>
    var tasks: map<Key, Task>
    var launched: nat
    var cancelled: seq<Task>

    function State(): Registry
      reads this
    {
      Registry(order, clients, tasks, launched, cancelled)
    }

    ghost predicate Valid()
      reads this
    {
      WellFormed(State()) && Inv(State())
    }

    constructor ()
      ensures Valid() && State() == Initial
    {
      order, clients, tasks, launched, cancelled := [], map[], map[], 0, [];
    }

    /** `connect(websocket, symbol, expiry)`; accepting the websocket is I/O and not modelled. */
    method Connect(ws: Socket, symbol: string, expiry: string)
      requires Valid()
      modifies this
      ensures Valid()
      ensures State() == TopicRegistry.Connect(old(State()), ws, Key(symbol, expiry))
    {
      ghost var r := State();
      var key := Key(symbol, expiry);
      if key !in clients {
        clients := clients[key := {}];
        order := order + [key];
      }
      clients := clients[key := clients[key] + {ws}];
      if key !in tasks {
        tasks := tasks[key := Task(launched, key)];
        launched := launched + 1;
      }
      assert clients == r.clients[key := (if key in r.clients then r.clients[key] else {}) + {ws}];
      assert State() == TopicRegistry.Connect(r, ws, key);
      ConnectKeepsInv(r, ws, key);
    }

    /**
     * The body of the `disconnect` loop for the first topic found holding
     * `ws`: drop `ws` from its clients and, when none are left, cancel the
     * topic's task and forget the topic.
     */
    method TakeOut(i: nat, ws: Socket)
      requires WellFormed(State()) && i < |order|
      modifies this
      ensures State() == TopicRegistry.TakeOut(old(State()), i, ws)
    {
      var key := order[i];
      clients := clients[key := clients[key] - {ws}];
      if clients[key] == {} {
        if key in tasks {
          cancelled := cancelled + [tasks[key]];
          tasks := tasks - {key};
        }
        clients := clients - {key};
        order := order[..i] + order[i + 1..];
        assert clients == old(clients) - {key};
      } else {
        assert clients == old(clients)[key := old(clients)[key] - {ws}];
      }
    }

    /** `disconnect(websocket)`: scan the topics in order, remove from the first holder, stop. */
    method Disconnect(ws: Socket)
      requires Valid()
      modifies this
      ensures Valid()
      ensures State() == TopicRegistry.Disconnect(old(State()), ws)
    {
      ghost var r := State();
      var i := 0;
      while i < |order|
        invariant 0 <= i <= |order|
        invariant State() == r
        invariant forall j :: 0 <= j < i ==> !Holds(clients, order[j], ws)
      {
        var key := order[i];
        if ws in clients[key] {
          HolderIs(r, ws, i);
          TakeOut(i, ws);
          break;
        }
        i := i + 1;
      }
      if i == |order| {
        HolderIs(r, ws, i);
      }
      DisconnectKeepsInv(r, ws);
    }

    /**
     * `broadcast(symbol, expiry, data)`: one send attempt per client of the
     * topic, in the set's iteration order, returned as `attempts`; `failing`
     * names the websockets whose send raises. Those are then disconnected, in
     * attempt order.
     */
    method Broadcast(symbol: string, expiry: string, failing: set<Socket>) returns (attempts: seq<Socket>)
      requires Valid()
      modifies this
      ensures Valid()
      ensures Distinct(attempts)
      ensures var key := Key(symbol, expiry);
        Elems(attempts) == if key in old(clients) then old(clients)[key] else {}
      ensures State() == DisconnectAll(old(State()), Failures(attempts, failing))
    {
      var key := Key(symbol, expiry);
      var toRemove;
      attempts, toRemove := SendToAll(if key in clients then clients[key] else {}, failing);
      ghost var r := State();
      for n := 0 to |toRemove|
        invariant Valid()
        invariant State() == DisconnectAll(r, toRemove[..n])
      {
        DisconnectAllStep(r, toRemove, n);
        Disconnect(toRemove[n]);
      }
      assert toRemove[..|toRemove|] == toRemove;
    }
  }
}
