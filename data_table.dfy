/**
 * The option-chain table in the browser: the state it keeps (the option
 * rows and the underlying quote) and how each streamed message and the
 * cleanup on a symbol/expiry change update that state. React's state
 * updates replace values wholesale, so the model is a pure reducer.
 */
module DataTable {
  import opened Wrappers

  /**
   * A parsed message. `ttType`, `symbol` and `expiry` are the fields the
   * reducer inspects (`None` when the message has no such field); every
   * other field is carried along untouched in `fields`.
   */
  datatype Message = Message(ttType: Option<string>, symbol: Option<string>, expiry: Option<string>,
                             fields: map<string, string>)

  /** The component's state: `optionData` (initially `[]`) and `underlyingQuote` (initially `null`). */
  datatype View = View(optionData: seq<Message>, underlyingQuote: Option<Message>)

  const Initial := View([], None)

  const UnderlyingQuote := "underlying_quote"
  const GroupedOptionData := "grouped_option_data"

  /** No two rows of the table share a symbol. */
  predicate UniqueSymbols(rows: seq<Message>)
  {
    forall i, j :: 0 <= i < j < |rows| ==> rows[i].symbol != rows[j].symbol
  }

  /** `sub` can be obtained from `rows` by dropping elements, the rest keeping their order. */
  predicate IsSubsequence(sub: seq<Message>, rows: seq<Message>)
    decreases |rows|
  {
    || sub == []
    || (rows != [] && (IsSubsequence(sub, rows[1..]) || (sub[0] == rows[0] && IsSubsequence(sub[1..], rows[1..]))))
  }

  /** `prev.filter(item => item.symbol !== data.symbol)`. */
  function WithoutSymbol(rows: seq<Message>, symbol: Option<string>): (r: seq<Message>)
    ensures forall m :: m in r <==> m in rows && m.symbol != symbol
    ensures |r| <= |rows|
  {
    if rows == [] then []
    else
      assert forall m :: m in rows <==> m == rows[0] || m in rows[1..] by {
        assert rows == [rows[0]] + rows[1..];
      }
      (if rows[0].symbol != symbol then [rows[0]] else []) + WithoutSymbol(rows[1..], symbol)
  }

  /** The filtered rows followed by the message: `[...updated, data]`. */
  function Upsert(rows: seq<Message>, msg: Message): (r: seq<Message>)
    ensures |r| >= 1 && r[|r| - 1] == msg
    ensures forall m :: m in r <==> m == msg || (m in rows && m.symbol != msg.symbol)
    ensures forall i :: 0 <= i < |r| - 1 ==> r[i].symbol != msg.symbol
  {
    var kept := WithoutSymbol(rows, msg.symbol);
    assert forall i :: 0 <= i < |kept| ==> kept[i] in kept;
    kept + [msg]
  }

  /** The `onmessage` handler, for the expiry the table was opened with. */
  function OnMessage(v: View, expiry: string, msg: Message): (r: View)
    ensures msg.ttType == Some(UnderlyingQuote) ==> r == v.(underlyingQuote := Some(msg))
    ensures msg.ttType == Some(GroupedOptionData) && msg.expiry == Some(expiry) ==>
      r == v.(optionData := Upsert(v.optionData, msg))
    ensures msg.ttType != Some(UnderlyingQuote) && !(msg.ttType == Some(GroupedOptionData) && msg.expiry == Some(expiry)) ==>
      r == v
  {
    if msg.ttType == Some(UnderlyingQuote) then v.(underlyingQuote := Some(msg))
    else if msg.ttType == Some(GroupedOptionData) && msg.expiry == Some(expiry) then
      v.(optionData := Upsert(v.optionData, msg))
    else v
  }

  /** The effect's cleanup: the rows are cleared, the underlying quote is kept. */
  function Cleanup(v: View): (r: View)
    ensures r.optionData == [] && r.underlyingQuote == v.underlyingQuote
  {
    v.(optionData := [])
  }

  /** The state after the handler has seen `msgs`, in order, starting from `v`. */
  function Replay(v: View, expiry: string, msgs: seq<Message>): View
  {
    if msgs == [] then v else OnMessage(Replay(v, expiry, msgs[..|msgs| - 1]), expiry, msgs[|msgs| - 1])
  }

  /** The last underlying-quote message of `msgs`, if there is one. */
  function LastQuote(msgs: seq<Message>): (r: Option<Message>)
    ensures r.Some? ==> r.value in msgs && r.value.ttType == Some(UnderlyingQuote)
    ensures r.None? <==> forall i :: 0 <= i < |msgs| ==> msgs[i].ttType != Some(UnderlyingQuote)
    ensures r.Some? ==>
      exists i :: 0 <= i < |msgs| && msgs[i] == r.value && forall j :: i < j < |msgs| ==> msgs[j].ttType != Some(UnderlyingQuote)
  {
    if msgs == [] then None
    else if msgs[|msgs| - 1].ttType == Some(UnderlyingQuote) then Some(msgs[|msgs| - 1])
    else
      var init := msgs[..|msgs| - 1];
      var r := LastQuote(init);
      assert forall i :: 0 <= i < |init| ==> init[i] == msgs[i];
      assert r.Some? ==> r.value in msgs by {
        assert msgs == init + [msgs[|msgs| - 1]];
      }
      r
  }

  /** Every row was a grouped-option message for `expiry`. */
  predicate RowsFor(rows: seq<Message>, expiry: string)
  {
    forall i :: 0 <= i < |rows| ==> rows[i].ttType == Some(GroupedOptionData) && rows[i].expiry == Some(expiry)
  }

  // ---------------------------------------------------------------- the upsert

  /** The filter keeps the other rows in their order. */
  lemma {:induction false} WithoutSymbolIsSubsequence(rows: seq<Message>, symbol: Option<string>)
    ensures IsSubsequence(WithoutSymbol(rows, symbol), rows)
    decreases |rows|
  {
    if rows != [] {
      WithoutSymbolIsSubsequence(rows[1..], symbol);
      var w := WithoutSymbol(rows, symbol);
      if rows[0].symbol != symbol {
        assert w[0] == rows[0] && w[1..] == WithoutSymbol(rows[1..], symbol);
      } else {
        assert w == WithoutSymbol(rows[1..], symbol);
      }
    }
  }

  /** Everything before the upserted message is the old rows, in their old order. */
  lemma UpsertKeepsOrder(rows: seq<Message>, msg: Message)
    ensures IsSubsequence(Upsert(rows, msg)[..|Upsert(rows, msg)| - 1], rows)
  {
    var r := Upsert(rows, msg);
    assert r[..|r| - 1] == WithoutSymbol(rows, msg.symbol);
    WithoutSymbolIsSubsequence(rows, msg.symbol);
  }

  lemma {:induction false} SubsequenceKeepsUnique(sub: seq<Message>, rows: seq<Message>)
    requires IsSubsequence(sub, rows) && UniqueSymbols(rows)
    ensures UniqueSymbols(sub)
    decreases |rows|
  {
    if sub != [] {
      assert UniqueSymbols(rows[1..]) by {
        forall i, j | 0 <= i < j < |rows[1..]|
          ensures rows[1..][i].symbol != rows[1..][j].symbol
        {
          assert rows[1..][i] == rows[i + 1] && rows[1..][j] == rows[j + 1];
        }
      }
      if IsSubsequence(sub, rows[1..]) {
        SubsequenceKeepsUnique(sub, rows[1..]);
      } else {
        SubsequenceKeepsUnique(sub[1..], rows[1..]);
        SubsequenceMembers(sub[1..], rows[1..]);
        forall j | 0 < j < |sub|
          ensures sub[0].symbol != sub[j].symbol
        {
          assert sub[j] == sub[1..][j - 1];
          assert sub[j] in rows[1..];
          var k :| 0 <= k < |rows[1..]| && rows[1..][k] == sub[j];
          assert rows[k + 1] == sub[j];
        }
        forall i, j | 0 <= i < j < |sub|
          ensures sub[i].symbol != sub[j].symbol
        {
          if i > 0 {
            assert sub[i] == sub[1..][i - 1] && sub[j] == sub[1..][j - 1];
          }
        }
      }
    }
  }

  lemma {:induction false} SubsequenceMembers(sub: seq<Message>, rows: seq<Message>)
    requires IsSubsequence(sub, rows)
    ensures forall m :: m in sub ==> m in rows
    decreases |rows|
  {
    if sub != [] {
      assert rows == [rows[0]] + rows[1..];
      if IsSubsequence(sub, rows[1..]) {
        SubsequenceMembers(sub, rows[1..]);
      } else {
        SubsequenceMembers(sub[1..], rows[1..]);
        assert sub == [sub[0]] + sub[1..];
      }
    }
  }

  /** An upsert keeps "at most one row per symbol". */
  lemma UpsertKeepsUnique(rows: seq<Message>, msg: Message)
    requires UniqueSymbols(rows)
    ensures UniqueSymbols(Upsert(rows, msg))
  {
    var r := Upsert(rows, msg);
    var kept := r[..|r| - 1];
    assert kept == WithoutSymbol(rows, msg.symbol);
    WithoutSymbolIsSubsequence(rows, msg.symbol);
    SubsequenceKeepsUnique(kept, rows);
    forall i, j | 0 <= i < j < |r|
      ensures r[i].symbol != r[j].symbol
    {
      if j < |r| - 1 {
        assert r[i] == kept[i] && r[j] == kept[j];
      }
    }
  }

  lemma {:induction false} WithoutSymbolAppend(a: seq<Message>, b: seq<Message>, symbol: Option<string>)
    ensures WithoutSymbol(a + b, symbol) == WithoutSymbol(a, symbol) + WithoutSymbol(b, symbol)
    decreases |a|
  {
    if a == [] {
      assert a + b == b;
    } else {
      assert (a + b)[0] == a[0] && (a + b)[1..] == a[1..] + b;
      WithoutSymbolAppend(a[1..], b, symbol);
    }
  }

  lemma {:induction false} WithoutSymbolIdempotent(rows: seq<Message>, symbol: Option<string>)
    ensures WithoutSymbol(WithoutSymbol(rows, symbol), symbol) == WithoutSymbol(rows, symbol)
    decreases |rows|
  {
    if rows != [] {
      WithoutSymbolIdempotent(rows[1..], symbol);
      var w := WithoutSymbol(rows[1..], symbol);
      if rows[0].symbol != symbol {
        assert WithoutSymbol(rows, symbol) == [rows[0]] + w;
        WithoutSymbolAppend([rows[0]], w, symbol);
        assert WithoutSymbol([rows[0]], symbol) == [rows[0]];
      } else {
        assert WithoutSymbol(rows, symbol) == w;
      }
    }
  }

  /** Receiving the same option message twice in a row leaves the rows as after the first. */
  lemma UpsertIdempotent(rows: seq<Message>, msg: Message)
    ensures Upsert(Upsert(rows, msg), msg) == Upsert(rows, msg)
  {
    var w := WithoutSymbol(rows, msg.symbol);
    WithoutSymbolAppend(w, [msg], msg.symbol);
    assert WithoutSymbol([msg], msg.symbol) == [];
    WithoutSymbolIdempotent(rows, msg.symbol);
    assert w + [] == w;
  }

  // ---------------------------------------------------------------- a stream of messages

  /** However many messages arrive, the table never shows two rows for one symbol. */
  lemma {:induction false} ReplayKeepsUnique(v: View, expiry: string, msgs: seq<Message>)
    requires UniqueSymbols(v.optionData)
    ensures UniqueSymbols(Replay(v, expiry, msgs).optionData)
    decreases |msgs|
  {
    if msgs != [] {
      var before := Replay(v, expiry, msgs[..|msgs| - 1]);
      ReplayKeepsUnique(v, expiry, msgs[..|msgs| - 1]);
      UpsertKeepsUnique(before.optionData, msgs[|msgs| - 1]);
    }
  }

  /** Rows only ever come from grouped-option messages for the table's own expiry. */
  lemma {:induction false} ReplayRowsFor(v: View, expiry: string, msgs: seq<Message>)
    requires RowsFor(v.optionData, expiry)
    ensures RowsFor(Replay(v, expiry, msgs).optionData, expiry)
    decreases |msgs|
  {
    if msgs != [] {
      var before := Replay(v, expiry, msgs[..|msgs| - 1]);
      ReplayRowsFor(v, expiry, msgs[..|msgs| - 1]);
      var msg := msgs[|msgs| - 1];
      if msg.ttType == Some(GroupedOptionData) && msg.expiry == Some(expiry) {
        var r := Upsert(before.optionData, msg);
        forall i | 0 <= i < |r|
          ensures r[i].ttType == Some(GroupedOptionData) && r[i].expiry == Some(expiry)
        {
          assert r[i] in r;
          if r[i] != msg {
            var k :| 0 <= k < |before.optionData| && before.optionData[k] == r[i];
          }
        }
      }
    }
  }

  /** The quote shown is the latest underlying-quote message, or the one held before if none arrived. */
  lemma {:induction false} ReplayQuoteIsLatest(v: View, expiry: string, msgs: seq<Message>)
    ensures Replay(v, expiry, msgs).underlyingQuote ==
      (if LastQuote(msgs).Some? then LastQuote(msgs) else v.underlyingQuote)
    decreases |msgs|
  {
    if msgs != [] {
      ReplayQuoteIsLatest(v, expiry, msgs[..|msgs| - 1]);
    }
  }

  /**
   * After the cleanup for a change of expiry, the table holds only rows of
   * the new expiry, one per symbol, whatever it showed before.
   */
  lemma CleanupThenReplay(v: View, expiry: string, msgs: seq<Message>)
    ensures UniqueSymbols(Replay(Cleanup(v), expiry, msgs).optionData)
    ensures RowsFor(Replay(Cleanup(v), expiry, msgs).optionData, expiry)
    ensures Replay(Cleanup(v), expiry, msgs).underlyingQuote ==
      (if LastQuote(msgs).Some? then LastQuote(msgs) else v.underlyingQuote)
  {
    ReplayKeepsUnique(Cleanup(v), expiry, msgs);
    ReplayRowsFor(Cleanup(v), expiry, msgs);
    ReplayQuoteIsLatest(Cleanup(v), expiry, msgs);
  }
}
