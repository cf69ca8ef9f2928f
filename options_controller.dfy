/**
 * `GET /equity-options`: from the stock tickers the client names, collect
 * up to five call and five put OCC symbols per ticker from its option
 * chain, ask the upstream API for their metadata, and translate every
 * failure into an HTTP error. The two upstream calls are inputs.
 */
module OptionsController {
  import opened Wrappers
  import opened Http

  /** One entry of a chain's "items": its "option-type" and "symbol", either possibly absent. */
  datatype ChainItem = ChainItem(optionType: Option<string>, symbol: Option<string>)

  /** What `get_option_chain` gives for a ticker: an exception's text, or the chain with or without "items". */
  datatype ChainOutcome = ChainRaised(message: string) | Chain(items: Option<seq<ChainItem>>)

  /** The metadata `get_equity_options` returns: a list of instruments, or a dict (an error dict among them). */
  datatype Metadata = Listing(instruments: seq<map<string, string>>) | Mapping(entries: map<string, string>)

  datatype MetadataOutcome = MetadataRaised(message: string) | Fetched(metadata: Metadata)

  /** `str(KeyError('symbol'))`. */
  const MissingSymbol := "'symbol'"

  const NoTickers := "Please provide at least one stock symbol in 'stock[]'."
  const NoSymbols := "No OCC option symbols found for selected stocks."

  /** An item of type `t` without a symbol: `item["symbol"]` raises. */
  predicate Unnamed(item: ChainItem, t: string)
  {
    item.optionType == Some(t) && item.symbol.None?
  }

  /**
   * `[item["symbol"] for item in chain_items if item.get("option-type") == t]`:
   * every item is visited, so an unnamed item of type `t` anywhere in the
   * chain raises `KeyError`.
   */
  function Pick(items: seq<ChainItem>, t: string): (r: Result<seq<string>, string>)
    ensures r.Failure? <==> exists i :: 0 <= i < |items| && Unnamed(items[i], t)
    ensures r.Failure? ==> r.error == MissingSymbol
    ensures r.Success? ==> |r.value| <= |items|
  {
    if items == [] then Success([])
    else
      var last := items[|items| - 1];
      assert forall i :: 0 <= i < |items| - 1 ==> items[..|items| - 1][i] == items[i];
      match Pick(items[..|items| - 1], t)
      case Failure(e) => Failure(e)
      case Success(prev) =>
        if last.optionType != Some(t) then Success(prev)
        else if last.symbol.None? then Failure(MissingSymbol)
        else Success(prev + [last.symbol.value])
  }

  /** Picking distributes over concatenation of chains: the order of the chain is kept. */
  lemma {:induction false} PickConcat(a: seq<ChainItem>, b: seq<ChainItem>, t: string)
    requires Pick(a, t).Success? && Pick(b, t).Success?
    ensures Pick(a + b, t) == Success(Pick(a, t).value + Pick(b, t).value)
    decreases |b|
  {
    if b == [] {
      assert a + b == a;
      assert Pick(a, t).value + [] == Pick(a, t).value;
    } else {
      var init := b[..|b| - 1];
      assert (a + b)[..|a + b| - 1] == a + init;
      assert (a + b)[|a + b| - 1] == b[|b| - 1];
      assert Pick(init, t).Success?;
      PickConcat(a, init, t);
      var last := b[|b| - 1];
      var pa, pi := Pick(a, t).value, Pick(init, t).value;
      if last.optionType == Some(t) {
        assert pa + (pi + [last.symbol.value]) == (pa + pi) + [last.symbol.value];
      }
    }
  }

  /** A named item of type `t` contributes its symbol; an item of another or no type contributes nothing. */
  lemma PickOne(item: ChainItem, t: string)
    ensures item.optionType != Some(t) ==> Pick([item], t) == Success([])
    ensures item.optionType == Some(t) && item.symbol.Some? ==> Pick([item], t) == Success([item.symbol.value])
  {
    assert [item][..|[item]| - 1] == [];
    if item.symbol.Some? {
      assert [] + [item.symbol.value] == [item.symbol.value];
    }
  }

  /** `[...][:5]`: the first five elements, or all of them when there are fewer. */
  function Take5(s: seq<string>): (r: seq<string>)
    ensures r <= s
    ensures |r| == if |s| <= 5 then |s| else 5
  {
    if |s| <= 5 then s else s[..5]
  }

  /** The symbols one ticker contributes: its first five calls, then its first five puts. */
  function TickerSymbols(chain: ChainOutcome): (r: Result<seq<string>, string>)
    ensures chain.ChainRaised? ==> r == Failure(chain.message)
    ensures chain.Chain? && chain.items.None? ==> r == Success([])
    ensures chain.Chain? && chain.items.Some? ==>
      (r.Success? <==> Pick(chain.items.value, "C").Success? && Pick(chain.items.value, "P").Success?)
    ensures r.Success? && chain.Chain? && chain.items.Some? ==>
      r.value == Take5(Pick(chain.items.value, "C").value) + Take5(Pick(chain.items.value, "P").value)
    ensures chain.Chain? && r.Failure? ==> r.error == MissingSymbol
    ensures r.Success? ==> |r.value| <= 10
  {
    match chain
    case ChainRaised(message) => Failure(message)
    case Chain(items) =>
      var chainItems := if items.Some? then items.value else [];
      match Pick(chainItems, "C")
      case Failure(e) => Failure(e)
      case Success(calls) =>
        match Pick(chainItems, "P")
        case Failure(e) => Failure(e)
        case Success(puts) => Success(Take5(calls) + Take5(puts))
  }

  /**
   * `occ_symbols` after the loop over the tickers: the per-ticker
   * selections concatenated in ticker order, or the text of the first
   * exception raised.
   */
  function Collect(tickers: seq<string>, fetchChain: string -> ChainOutcome): (r: Result<seq<string>, string>)
    ensures r.Success? ==> |r.value| <= 10 * |tickers|
  {
    if tickers == [] then Success([])
    else Extend(Collect(tickers[..|tickers| - 1], fetchChain), fetchChain(tickers[|tickers| - 1]))
  }

  /** One turn of the loop: `occ_symbols.extend(calls + puts)`, unless an exception has ended it. */
  function Extend(occ: Result<seq<string>, string>, chain: ChainOutcome): (r: Result<seq<string>, string>)
    ensures occ.Failure? ==> r == occ
    ensures occ.Success? && TickerSymbols(chain).Failure? ==> r == Failure(TickerSymbols(chain).error)
    ensures r.Success? <==> occ.Success? && TickerSymbols(chain).Success?
    ensures r.Success? ==> occ.Success? && r.value == occ.value + TickerSymbols(chain).value
  {
    match occ
    case Failure(e) => Failure(e)
    case Success(prev) =>
      match TickerSymbols(chain)
      case Failure(e) => Failure(e)
      case Success(sel) => Success(prev + sel)
  }

  /** One more ticker is one more turn of the loop. */
  lemma CollectSnoc(tickers: seq<string>, ticker: string, fetchChain: string -> ChainOutcome)
    ensures Collect(tickers + [ticker], fetchChain) == Extend(Collect(tickers, fetchChain), fetchChain(ticker))
  {
    assert (tickers + [ticker])[..|tickers + [ticker]| - 1] == tickers;
  }

  /** Extending a run that carries a prefix extends the run without it, and keeps the prefix. */
  lemma ExtendPrefixed(prefix: seq<string>, occ: Result<seq<string>, string>, chain: ChainOutcome)
    requires Extend(occ, chain).Success?
    ensures occ.Success?
    ensures Extend(Success(prefix + occ.value), chain) == Success(prefix + Extend(occ, chain).value)
  {
    var sel := TickerSymbols(chain).value;
    assert prefix + (occ.value + sel) == (prefix + occ.value) + sel;
  }

  /** Collecting over two runs of tickers concatenates their symbols. */
  lemma {:induction false} CollectConcat(a: seq<string>, b: seq<string>, fetchChain: string -> ChainOutcome)
    requires Collect(a, fetchChain).Success? && Collect(b, fetchChain).Success?
    ensures Collect(a + b, fetchChain) == Success(Collect(a, fetchChain).value + Collect(b, fetchChain).value)
    decreases |b|
  {
    if b != [] {
      var init := b[..|b| - 1];
      assert (a + b)[..|a + b| - 1] == a + init;
      assert (a + b)[|a + b| - 1] == b[|b| - 1];
      CollectConcat(a, init, fetchChain);
      ExtendPrefixed(Collect(a, fetchChain).value, Collect(init, fetchChain), fetchChain(b[|b| - 1]));
    } else {
      assert a + b == a;
      assert Collect(a, fetchChain).value + [] == Collect(a, fetchChain).value;
    }
  }

  /** A ticker whose chain has no "items" (an error dict, say) contributes nothing and raises nothing. */
  lemma CollectSkipsEmptyChain(tickers: seq<string>, ticker: string, fetchChain: string -> ChainOutcome)
    requires fetchChain(ticker) == Chain(None)
    ensures Collect(tickers + [ticker], fetchChain) == Collect(tickers, fetchChain)
  {
    CollectSnoc(tickers, ticker, fetchChain);
    assert TickerSymbols(fetchChain(ticker)) == Success([]);
    if Collect(tickers, fetchChain).Success? {
      assert Collect(tickers, fetchChain).value + [] == Collect(tickers, fetchChain).value;
    }
  }

  /** The loop runs to the end exactly when no ticker's selection raises. */
  lemma {:induction false} CollectSucceedsIffAllDo(tickers: seq<string>, fetchChain: string -> ChainOutcome)
    ensures Collect(tickers, fetchChain).Success? <==>
      forall j :: 0 <= j < |tickers| ==> TickerSymbols(fetchChain(tickers[j])).Success?
    decreases |tickers|
  {
    if tickers != [] {
      var init, last := tickers[..|tickers| - 1], tickers[|tickers| - 1];
      CollectSucceedsIffAllDo(init, fetchChain);
      assert Collect(tickers, fetchChain) == Extend(Collect(init, fetchChain), fetchChain(last));
      assert forall j :: 0 <= j < |init| ==> init[j] == tickers[j];
    }
  }

  lemma {:induction false} CollectPrefixSucceeds(tickers: seq<string>, i: nat, fetchChain: string -> ChainOutcome)
    requires i <= |tickers|
    requires forall j :: 0 <= j < i ==> TickerSymbols(fetchChain(tickers[j])).Success?
    ensures Collect(tickers[..i], fetchChain).Success?
  {
    if i > 0 {
      CollectPrefixSucceeds(tickers, i - 1, fetchChain);
      assert tickers[..i][..i - 1] == tickers[..i - 1];
    }
  }

  lemma CollectStep(tickers: seq<string>, i: nat, fetchChain: string -> ChainOutcome)
    requires i < |tickers|
    ensures Collect(tickers[..i + 1], fetchChain) == Extend(Collect(tickers[..i], fetchChain), fetchChain(tickers[i]))
  {
    assert tickers[..i + 1][..i] == tickers[..i];
  }

  /** Every ticker's selection succeeds. */
  predicate AllSelect(tickers: seq<string>, fetchChain: string -> ChainOutcome)
  {
    forall j :: 0 <= j < |tickers| ==> TickerSymbols(fetchChain(tickers[j])).Success?
  }

  /** The per-ticker selections concatenated in ticker order, built from the front. */
  function Concatenated(tickers: seq<string>, fetchChain: string -> ChainOutcome): (r: seq<string>)
    requires AllSelect(tickers, fetchChain)
    ensures |r| <= 10 * |tickers|
  {
    if tickers == [] then []
    else
      assert AllSelect(tickers[1..], fetchChain) by {
        assert forall j :: 0 <= j < |tickers[1..]| ==> tickers[1..][j] == tickers[j + 1];
      }
      TickerSymbols(fetchChain(tickers[0])).value + Concatenated(tickers[1..], fetchChain)
  }

  /** `occ_symbols`, after a loop that raised nothing, is every ticker's selection in ticker order. */
  lemma {:induction false} CollectIsConcatenation(tickers: seq<string>, fetchChain: string -> ChainOutcome)
    requires Collect(tickers, fetchChain).Success?
    ensures AllSelect(tickers, fetchChain)
    ensures Collect(tickers, fetchChain).value == Concatenated(tickers, fetchChain)
    decreases |tickers|
  {
    CollectSucceedsIffAllDo(tickers, fetchChain);
    if tickers != [] {
      var head, rest := [tickers[0]], tickers[1..];
      assert tickers == head + rest;
      assert forall j :: 0 <= j < |rest| ==> rest[j] == tickers[j + 1];
      CollectSucceedsIffAllDo(rest, fetchChain);
      CollectSucceedsIffAllDo(head, fetchChain);
      CollectConcat(head, rest, fetchChain);
      CollectIsConcatenation(rest, fetchChain);
      assert head[..0] == [];
      assert Collect(head, fetchChain) == Extend(Success([]), fetchChain(tickers[0]));
      var first := TickerSymbols(fetchChain(tickers[0])).value;
      assert [] + first == first;
      assert Collect(head, fetchChain).value == first;
      assert Collect(tickers, fetchChain).value == first + Collect(rest, fetchChain).value;
      assert Concatenated(tickers, fetchChain) == first + Concatenated(rest, fetchChain);
    }
  }

  /**
   * A failing loop fails with the text of the first ticker whose selection
   * raises: its chain fetch's exception, or the `KeyError` of an unnamed item.
   */
  lemma {:induction false} FirstFailingTicker(tickers: seq<string>, i: nat, fetchChain: string -> ChainOutcome)
    requires i < |tickers| && TickerSymbols(fetchChain(tickers[i])).Failure?
    requires forall j :: 0 <= j < i ==> TickerSymbols(fetchChain(tickers[j])).Success?
    ensures Collect(tickers, fetchChain) == Failure(TickerSymbols(fetchChain(tickers[i])).error)
    ensures Collect(tickers, fetchChain).error ==
      if fetchChain(tickers[i]).ChainRaised? then fetchChain(tickers[i]).message else MissingSymbol
    decreases |tickers|
  {
    if |tickers| == i + 1 {
      CollectPrefixSucceeds(tickers, i, fetchChain);
      CollectStep(tickers, i, fetchChain);
      assert tickers[..i + 1] == tickers;
    } else {
      var init := tickers[..|tickers| - 1];
      assert forall j :: 0 <= j <= i ==> init[j] == tickers[j];
      FirstFailingTicker(init, i, fetchChain);
    }
  }

  /**
   * The whole handler: 400 for no tickers, outside the `try`; inside it,
   * every exception — the handler's own 404 and 502 among them — becomes a
   * 500 carrying `str(e)`.
   */
  function EquityOptions(tickers: seq<string>, active: bool, withExpired: bool,
                         fetchChain: string -> ChainOutcome,
                         fetchMetadata: (seq<string>, bool, bool) -> MetadataOutcome): (r: Result<Metadata, HttpError>)
    ensures tickers == [] ==> r == Failure(HttpError(400, NoTickers))
    ensures (r.Failure? && r.error.status == 400) <==> tickers == []
    ensures r.Failure? ==> r.error.status in {400, 500}
  {
    if tickers == [] then Failure(HttpError(400, NoTickers))
    else
      match Collect(tickers, fetchChain)
      case Failure(message) => Failure(HttpError(500, message))
      case Success(occ) =>
        if occ == [] then Failure(HttpError(500, Render(HttpError(404, NoSymbols))))
        else
          match fetchMetadata(occ, active, withExpired)
          case MetadataRaised(message) => Failure(HttpError(500, message))
          case Fetched(metadata) =>
            if metadata.Mapping? && "error" in metadata.entries then
              Failure(HttpError(500, Render(HttpError(502, metadata.entries["error"]))))
            else Success(metadata)
  }

  /** `get_equity_options`: the loop over the tickers extends `occ_symbols` in place. */
  method GetEquityOptions(tickers: seq<string>, active: bool, withExpired: bool,
                          fetchChain: string -> ChainOutcome,
                          fetchMetadata: (seq<string>, bool, bool) -> MetadataOutcome)
    returns (r: Result<Metadata, HttpError>)
    ensures r == EquityOptions(tickers, active, withExpired, fetchChain, fetchMetadata)
  {
    if tickers == [] {
      return Failure(HttpError(400, NoTickers));
    }
    var occ: seq<string> := [];
    for i := 0 to |tickers|
      invariant Collect(tickers[..i], fetchChain) == Success(occ)
    {
      assert tickers[..i + 1][..i] == tickers[..i];
      var chain := fetchChain(tickers[i]);
      var selected := TickerSymbols(chain);
      if selected.Failure? {
        assert Collect(tickers[..i + 1], fetchChain) == Failure(selected.error);
        CollectFailureSticks(tickers, i + 1, fetchChain);
        return Failure(HttpError(500, selected.error));
      }
      occ := occ + selected.value;
    }
    assert tickers[..|tickers|] == tickers;
    if occ == [] {
      return Failure(HttpError(500, Render(HttpError(404, NoSymbols))));
    }
    var fetched := fetchMetadata(occ, active, withExpired);
    match fetched
    case MetadataRaised(message) =>
      r := Failure(HttpError(500, message));
    case Fetched(metadata) =>
      if metadata.Mapping? && "error" in metadata.entries {
        return Failure(HttpError(500, Render(HttpError(502, metadata.entries["error"]))));
      }
      r := Success(metadata);
  }

  /** Once a ticker raises, the rest of the loop never runs: the first failure is the result. */
  lemma {:induction false} CollectFailureSticks(tickers: seq<string>, n: nat, fetchChain: string -> ChainOutcome)
    requires n <= |tickers| && Collect(tickers[..n], fetchChain).Failure?
    ensures Collect(tickers, fetchChain) == Collect(tickers[..n], fetchChain)
    decreases |tickers| - n
  {
    if n < |tickers| {
      assert tickers[..n + 1][..n] == tickers[..n];
      CollectFailureSticks(tickers, n + 1, fetchChain);
    } else {
      assert tickers[..n] == tickers;
    }
  }

  /**
   * The upstream metadata comes back unchanged whenever the handler
   * succeeds, and it never is an error dict.
   */
  lemma SuccessIsUpstreamMetadata(tickers: seq<string>, active: bool, withExpired: bool,
                                  fetchChain: string -> ChainOutcome,
                                  fetchMetadata: (seq<string>, bool, bool) -> MetadataOutcome)
    ensures var r := EquityOptions(tickers, active, withExpired, fetchChain, fetchMetadata);
      r.Success? ==>
        && Collect(tickers, fetchChain).Success?
        && Collect(tickers, fetchChain).value != []
        && fetchMetadata(Collect(tickers, fetchChain).value, active, withExpired) == Fetched(r.value)
        && !(r.value.Mapping? && "error" in r.value.entries)
    ensures var occ := Collect(tickers, fetchChain);
      tickers != [] && occ.Success? && occ.value != [] ==>
        var fetched := fetchMetadata(occ.value, active, withExpired);
        fetched.Fetched? && !(fetched.metadata.Mapping? && "error" in fetched.metadata.entries) ==>
          EquityOptions(tickers, active, withExpired, fetchChain, fetchMetadata) == Success(fetched.metadata)
  {
  }

  /**
   * Inside the `try`, every failure becomes a 500 whose detail is `str(e)`:
   * the raised text itself, or the string form of the handler's own 404 and
   * 502.
   */
  lemma InTryFailuresCarryText(tickers: seq<string>, active: bool, withExpired: bool,
                               fetchChain: string -> ChainOutcome,
                               fetchMetadata: (seq<string>, bool, bool) -> MetadataOutcome)
    requires tickers != []
    ensures var r := EquityOptions(tickers, active, withExpired, fetchChain, fetchMetadata);
      Collect(tickers, fetchChain).Failure? ==> r == Failure(HttpError(500, Collect(tickers, fetchChain).error))
    ensures var r := EquityOptions(tickers, active, withExpired, fetchChain, fetchMetadata);
      Collect(tickers, fetchChain) == Success([]) ==>
        r == Failure(HttpError(500, "404: " + NoSymbols))
    ensures var r := EquityOptions(tickers, active, withExpired, fetchChain, fetchMetadata);
      var occ := Collect(tickers, fetchChain);
      occ.Success? && occ.value != [] ==>
        var fetched := fetchMetadata(occ.value, active, withExpired);
        && (fetched.MetadataRaised? ==> r == Failure(HttpError(500, fetched.message)))
        && (fetched.Fetched? && fetched.metadata.Mapping? && "error" in fetched.metadata.entries ==>
              r == Failure(HttpError(500, "502: " + fetched.metadata.entries["error"])))
  {
    RenderedStatuses(NoSymbols);
    var occ := Collect(tickers, fetchChain);
    if occ.Success? && occ.value != [] {
      var fetched := fetchMetadata(occ.value, active, withExpired);
      if fetched.Fetched? && fetched.metadata.Mapping? && "error" in fetched.metadata.entries {
        RenderedStatuses(fetched.metadata.entries["error"]);
      }
    }
  }
}
