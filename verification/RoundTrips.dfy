// FIFO matching of fills into round trips, and how it accounts for every yuan and every
// share of a run.

module RoundTrips {
  import opened BacktestTypes
  import opened Execution
  import opened Simulation
  import opened Sequences

  // An open lot: per-share cost includes the buy's fees.
  datatype Lot = Lot(date: int, cost: real, shares: nat)

  datatype RoundTrip = RoundTrip(entryDate: int, exitDate: int, shares: nat, pnl: real)

  // `unmatched` counts shares sold without an open lot.
  datatype Matching = Matching(lots: seq<Lot>, trips: seq<RoundTrip>, unmatched: nat)

  function PerShare(amount: real, shares: Pos): real {
    amount / shares as real
  }

  function Pnl(shares: nat, net: real, cost: real): real {
    shares as real * (net - cost)
  }

  // Sell `remaining` shares out of the lots, oldest first.
  function Close(lots: seq<Lot>, remaining: nat, date: int, net: real): Matching
    decreases |lots|
  {
    if remaining == 0 || lots == [] then Matching(lots, [], remaining)
    else
      var lot := lots[0];
      var take := if remaining < lot.shares then remaining else lot.shares;
      var trip := RoundTrip(lot.date, date, take, Pnl(take, net, lot.cost));
      if take == lot.shares then
        var rest := Close(lots[1..], remaining - take, date, net);
        rest.(trips := [trip] + rest.trips)
      else
        Matching([lot.(shares := lot.shares - take)] + lots[1..], [trip], 0)
  }

  function MatchFill(m: Matching, fill: Fill): Matching {
    match fill.side
    case Buy => m.(lots := m.lots + [Lot(fill.date, fill.price + PerShare(fill.fees, fill.shares), fill.shares)])
    case Sell =>
      var closed := Close(m.lots, fill.shares, fill.date, fill.price - PerShare(fill.fees, fill.shares));
      Matching(closed.lots, m.trips + closed.trips, m.unmatched + closed.unmatched)
  }

  function MatchAll(fills: seq<Fill>): Matching {
    if fills == [] then Matching([], [], 0)
    else MatchFill(MatchAll(fills[..|fills| - 1]), fills[|fills| - 1])
  }

  // Pop and shorten lots from the front until the sale is covered or none is left.
  method CloseLots(lots: seq<Lot>, shares: nat, date: int, net: real)
    returns (open: seq<Lot>, trips: seq<RoundTrip>, remaining: nat)
    ensures Matching(open, trips, remaining) == Close(lots, shares, date, net)
  {
    hide Pnl;
    open, trips, remaining := lots, [], shares;
    while remaining > 0 && open != []
      invariant var d := Close(open, remaining, date, net);
                Close(lots, shares, date, net) == d.(trips := trips + d.trips)
      decreases |open|, remaining
    {
      var lot := open[0];
      var take := if remaining < lot.shares then remaining else lot.shares;
      var trip := RoundTrip(lot.date, date, take, Pnl(take, net, lot.cost));
      ghost var before := trips;
      trips := trips + [trip];
      remaining := remaining - take;
      if lot.shares - take == 0 {
        open := open[1..];
      } else {
        open := [lot.(shares := lot.shares - take)] + open[1..];
      }
      Associate(before, [trip], Close(open, remaining, date, net).trips);
    }
  }

  method MatchRoundTrips(fills: seq<Fill>) returns (trips: seq<RoundTrip>)
    ensures trips == MatchAll(fills).trips
  {
    hide PerShare, Close;
    var open: seq<Lot> := [];
    trips := [];
    ghost var unmatched: nat := 0;
    for i := 0 to |fills|
      invariant Matching(open, trips, unmatched) == MatchAll(fills[..i])
    {
      var fill := fills[i];
      LastFill(fills[..i], fill, 0);
      assert fills[..i + 1] == fills[..i] + [fill];
      match fill.side {
        case Buy =>
          open := open + [Lot(fill.date, fill.price + PerShare(fill.fees, fill.shares), fill.shares)];
        case Sell =>
          var made, remaining;
          open, made, remaining :=
              CloseLots(open, fill.shares, fill.date, fill.price - PerShare(fill.fees, fill.shares));
          trips := trips + made;
          unmatched := unmatched + remaining;
      }
    }
    assert fills[..|fills|] == fills;
  }

  // ---- Totals -----------------------------------------------------------------------------

  function Held(lots: seq<Lot>): nat {
    if lots == [] then 0 else lots[0].shares + Held(lots[1..])
  }

  function HeldBefore(lots: seq<Lot>, date: int): nat {
    if lots == [] then 0 else (if lots[0].date < date then lots[0].shares else 0) + HeldBefore(lots[1..], date)
  }

  function LotCost(lot: Lot): real {
    lot.shares as real * lot.cost
  }

  function Cost(lots: seq<Lot>): real {
    if lots == [] then 0.0 else LotCost(lots[0]) + Cost(lots[1..])
  }

  function TotalPnl(trips: seq<RoundTrip>): real {
    if trips == [] then 0.0 else trips[0].pnl + TotalPnl(trips[1..])
  }

  function Fees(fills: seq<Fill>): real {
    if fills == [] then 0.0 else Fees(fills[..|fills| - 1]) + fills[|fills| - 1].fees
  }

  // Shares bought on dates before `date`.
  function BoughtBefore(fills: seq<Fill>, date: int): nat {
    if fills == [] then 0
    else
      var f := fills[|fills| - 1];
      BoughtBefore(fills[..|fills| - 1], date) + if f.side == Buy && f.date < date then f.shares else 0
  }

  function Sold(fills: seq<Fill>): nat {
    if fills == [] then 0
    else
      var f := fills[|fills| - 1];
      Sold(fills[..|fills| - 1]) + if f.side == Sell then f.shares else 0
  }

  lemma {:induction false} AppendLot(lots: seq<Lot>, lot: Lot, date: int)
    ensures Held(lots + [lot]) == Held(lots) + lot.shares
    ensures HeldBefore(lots + [lot], date) == HeldBefore(lots, date) + if lot.date < date then lot.shares else 0
    ensures Cost(lots + [lot]) == Cost(lots) + LotCost(lot)
  {
    hide LotCost;
    if lots == [] {
      assert [lot][1..] == [];
      assert lots + [lot] == [lot];
    } else {
      AppendLot(lots[1..], lot, date);
      assert (lots + [lot])[1..] == lots[1..] + [lot];
    }
  }

  lemma {:induction false} AppendTrips(a: seq<RoundTrip>, b: seq<RoundTrip>)
    ensures TotalPnl(a + b) == TotalPnl(a) + TotalPnl(b)
  {
    if a == [] {
      assert a + b == b;
    } else {
      AppendTrips(a[1..], b);
      assert (a + b)[1..] == a[1..] + b;
    }
  }

  // ---- Lots ---------------------------------------------------------------------------------

  // Lots are non-empty, oldest first, none from after `today`.
  ghost predicate Queue(lots: seq<Lot>, today: int) {
    && (forall i :: 0 <= i < |lots| ==> lots[i].shares > 0 && lots[i].date <= today)
    && (forall i, j :: 0 <= i < j < |lots| ==> lots[i].date <= lots[j].date)
  }

  ghost predicate HeldOvernight(trips: seq<RoundTrip>) {
    forall i :: 0 <= i < |trips| ==> trips[i].entryDate < trips[i].exitDate && trips[i].shares > 0
  }

  lemma {:induction false} BeforeIsPart(lots: seq<Lot>, date: int)
    ensures HeldBefore(lots, date) <= Held(lots)
    ensures (forall lot :: lot in lots ==> lot.date < date) ==> HeldBefore(lots, date) == Held(lots)
  {
    if lots != [] {
      BeforeIsPart(lots[1..], date);
    }
  }

  // What selling `remaining` old shares leaves and earns.
  ghost predicate ClosesOld(lots: seq<Lot>, remaining: nat, today: int, net: real, c: Matching) {
    && c.unmatched == 0 && Queue(c.lots, today) && HeldOvernight(c.trips)
    && Held(c.lots) == Held(lots) - remaining
    && HeldBefore(c.lots, today) == HeldBefore(lots, today) - remaining
    && TotalPnl(c.trips) == Amount(remaining, net) - (Cost(lots) - Cost(c.lots))
  }

  // Selling no more than was bought before today consumes only lots from before today,
  // and its profit is the proceeds less the cost of what left.
  lemma {:induction false} CloseOld(lots: seq<Lot>, remaining: nat, today: int, net: real)
    requires Queue(lots, today) && remaining <= HeldBefore(lots, today)
    ensures ClosesOld(lots, remaining, today, net, Close(lots, remaining, today, net))
    decreases |lots|
  {
    hide Pnl, Amount, Queue, ClosesOld;
    if remaining == 0 {
      CloseNothing(lots, today, net);
    } else {
      FirstIsOld(lots, today);
      if remaining < lots[0].shares {
        ClosePart(lots, remaining, today, net);
      } else {
        CloseOld(lots[1..], remaining - lots[0].shares, today, net);
        CloseWhole(lots, remaining, today, net);
      }
    }
  }

  // Lots leave from the front: those before the first one left are closed whole, each by a
  // trip of its own, and the first one left may have been closed in part. A trip earns, on
  // each of its shares, the net price less its lot's cost.
  ghost predicate LeavesInOrder(lots: seq<Lot>, date: int, net: real, c: Matching) {
    && |c.lots| <= |lots|
    && var gone := |lots| - |c.lots|;
       && gone <= |c.trips| <= gone + 1
       && (forall i :: 0 <= i < |c.trips| ==>
             && i < |lots| && c.trips[i].entryDate == lots[i].date && c.trips[i].exitDate == date
             && c.trips[i].pnl == Pnl(c.trips[i].shares, net, lots[i].cost))
       && (forall i :: 0 <= i < gone ==> c.trips[i].shares == lots[i].shares)
       && (c.lots != [] ==>
             && c.lots[1..] == lots[gone + 1..]
             && c.lots[0] == lots[gone].(shares := c.lots[0].shares)
             && lots[gone].shares == c.lots[0].shares + if |c.trips| > gone then c.trips[gone].shares else 0)
  }

  lemma {:induction false} CloseIsFifo(lots: seq<Lot>, remaining: nat, date: int, net: real)
    ensures LeavesInOrder(lots, date, net, Close(lots, remaining, date, net))
    decreases |lots|
  {
    hide Pnl, LeavesInOrder;
    if remaining == 0 || lots == [] {
      NothingLeaves(lots, date, net, remaining);
    } else if lots[0].shares <= remaining {
      var r := remaining - lots[0].shares;
      CloseIsFifo(lots[1..], r, date, net);
      assert lots == [lots[0]] + lots[1..];
      FirstLeaves(lots[0], lots[1..], date, net, Close(lots[1..], r, date, net));
    } else {
      assert lots == [lots[0]] + lots[1..];
      PartLeaves(lots[0], lots[1..], remaining, date, net);
    }
  }

  lemma NothingLeaves(lots: seq<Lot>, date: int, net: real, remaining: nat)
    ensures LeavesInOrder(lots, date, net, Matching(lots, [], remaining))
  {
  }

  lemma FirstLeaves(lot: Lot, others: seq<Lot>, date: int, net: real, c: Matching)
    requires LeavesInOrder(others, date, net, c)
    ensures var trip := RoundTrip(lot.date, date, lot.shares, Pnl(lot.shares, net, lot.cost));
            LeavesInOrder([lot] + others, date, net, c.(trips := [trip] + c.trips))
  {
    hide Pnl;
    var trip := RoundTrip(lot.date, date, lot.shares, Pnl(lot.shares, net, lot.cost));
    var lots, trips := [lot] + others, [trip] + c.trips;
    assert forall i :: 0 < i < |lots| ==> lots[i] == others[i - 1];
    assert forall i :: 0 < i < |trips| ==> trips[i] == c.trips[i - 1];
    forall i | 0 <= i < |trips|
      ensures && i < |lots| && trips[i].entryDate == lots[i].date && trips[i].exitDate == date
              && trips[i].pnl == Pnl(trips[i].shares, net, lots[i].cost)
    {
      assert i > 0 ==> c.trips[i - 1].exitDate == date;
    }
    var gone := |others| - |c.lots|;
    assert forall i :: 0 <= i < gone ==> c.trips[i].shares == others[i].shares;
    if c.lots != [] {
      assert lots[gone + 2..] == others[gone + 1..] && lots[gone + 1] == others[gone];
      assert |trips| > gone + 1 ==> trips[gone + 1] == c.trips[gone];
    }
  }

  lemma PartLeaves(lot: Lot, others: seq<Lot>, take: nat, date: int, net: real)
    requires take < lot.shares
    ensures var trip := RoundTrip(lot.date, date, take, Pnl(take, net, lot.cost));
            LeavesInOrder([lot] + others, date, net, Matching([lot.(shares := lot.shares - take)] + others, [trip], 0))
  {
    hide Pnl;
    assert ([lot] + others)[1..] == others;
  }

  // Fill by fill: a buy opens a lot behind the others that cost its amount and its fees, and
  // a sale closes lots from the front at a price that brings its amount less its fees.
  lemma FillIsMatched(m: Matching, fill: Fill)
    ensures var after := MatchFill(m, fill);
            var amount := fill.shares as real * fill.price;
            if fill.side == Buy then
              && after == m.(lots := after.lots) && |after.lots| == |m.lots| + 1 && m.lots == after.lots[..|m.lots|]
              && var lot := after.lots[|m.lots|];
                 && lot.date == fill.date && lot.shares == fill.shares
                 && lot.shares as real * lot.cost == amount + fill.fees
            else
              exists net :: && fill.shares as real * net == amount - fill.fees
                            && Sells(m, fill.shares, fill.date, net, after)
  {
    hide Close, LeavesInOrder, PerShare, Sells;
    PerShareTotal(fill.price, fill.fees, fill.shares);
    if fill.side == Sell {
      var net := fill.price - PerShare(fill.fees, fill.shares);
      SaleLeaves(m, fill.shares, fill.date, net);
      assert fill.shares as real * net == Amount(fill.shares, net);
    } else {
      var lot := Lot(fill.date, fill.price + PerShare(fill.fees, fill.shares), fill.shares);
      assert (m.lots + [lot])[..|m.lots|] == m.lots;
    }
  }

  // Lots of that many shares leave, and their trips are added.
  ghost predicate Sells(m: Matching, shares: nat, date: int, net: real, after: Matching) {
    && |m.trips| <= |after.trips| && m.trips == after.trips[..|m.trips|]
    && after.unmatched >= m.unmatched
    && Held(m.lots) + after.unmatched == Held(after.lots) + m.unmatched + shares
    && LeavesInOrder(m.lots, date, net, Matching(after.lots, after.trips[|m.trips|..], after.unmatched - m.unmatched))
  }

  lemma SaleLeaves(m: Matching, shares: nat, date: int, net: real)
    ensures var c := Close(m.lots, shares, date, net);
            Sells(m, shares, date, net, Matching(c.lots, m.trips + c.trips, m.unmatched + c.unmatched))
  {
    hide LeavesInOrder, Close;
    CloseIsFifo(m.lots, shares, date, net);
    CloseFlow(m.lots, shares, date, net);
    var c := Close(m.lots, shares, date, net);
    assert (m.trips + c.trips)[|m.trips|..] == c.trips;
    assert Matching(c.lots, c.trips, c.unmatched) == c;
  }

  lemma CloseNothing(lots: seq<Lot>, today: int, net: real)
    requires Queue(lots, today)
    ensures ClosesOld(lots, 0, today, net, Matching(lots, [], 0))
  {
    AmountSplits(0, 0, net);
  }

  lemma FirstIsOld(lots: seq<Lot>, today: int)
    requires Queue(lots, today) && HeldBefore(lots, today) > 0
    ensures lots != [] && lots[0].date < today && lots[0].shares > 0 && Queue(lots[1..], today)
  {
    if lots[0].date >= today {
      NoneBefore(lots, today);
    }
  }

  lemma ClosePart(lots: seq<Lot>, take: nat, today: int, net: real)
    requires Queue(lots, today) && lots != [] && 0 < take < lots[0].shares && lots[0].date < today
    ensures ClosesOld(lots, take, today, net, Close(lots, take, today, net))
  {
    hide Pnl, LotCost, Amount;
    var lot := lots[0];
    var less, trip := lot.(shares := lot.shares - take), RoundTrip(lot.date, today, take, Pnl(take, net, lot.cost));
    assert ([less] + lots[1..])[1..] == lots[1..];
    assert [trip][1..] == [];
    assert TotalPnl([trip]) == trip.pnl;
    LotSplits(lot, take);
    PnlIsNetLessCost(take, net, lot.(shares := take));
  }

  lemma CloseWhole(lots: seq<Lot>, remaining: nat, today: int, net: real)
    requires Queue(lots, today) && lots != [] && 0 < lots[0].shares <= remaining && lots[0].date < today
    requires var r := remaining - lots[0].shares;
             ClosesOld(lots[1..], r, today, net, Close(lots[1..], r, today, net))
    ensures ClosesOld(lots, remaining, today, net, Close(lots, remaining, today, net))
  {
    hide Pnl, LotCost, Amount, Queue;
    var lot := lots[0];
    var rest := Close(lots[1..], remaining - lot.shares, today, net);
    var trip := RoundTrip(lot.date, today, lot.shares, Pnl(lot.shares, net, lot.cost));
    assert Close(lots, remaining, today, net) == rest.(trips := [trip] + rest.trips);
    assert ([trip] + rest.trips)[1..] == rest.trips;
    AmountSplits(lot.shares, remaining - lot.shares, net);
    PnlIsNetLessCost(lot.shares, net, lot);
  }

  lemma {:induction false} NoneBefore(lots: seq<Lot>, today: int)
    requires forall i :: 0 <= i < |lots| ==> lots[i].date >= today
    ensures HeldBefore(lots, today) == 0
  {
    if lots != [] {
      NoneBefore(lots[1..], today);
    }
  }

  lemma AmountSplits(a: nat, b: nat, price: real)
    ensures Amount(a + b, price) == Amount(a, price) + Amount(b, price)
    ensures Amount(0, price) == 0.0
  {
  }

  lemma PnlIsNetLessCost(take: nat, net: real, lot: Lot)
    requires lot.shares == take
    ensures Pnl(take, net, lot.cost) == Amount(take, net) - LotCost(lot)
  {
  }

  lemma LotSplits(lot: Lot, take: nat)
    requires take <= lot.shares
    ensures LotCost(lot) == LotCost(lot.(shares := take)) + LotCost(lot.(shares := lot.shares - take))
  {
  }

  lemma PerShareTotal(price: real, fees: real, shares: Pos)
    ensures Amount(shares, price + PerShare(fees, shares)) == Amount(shares, price) + fees
    ensures Amount(shares, price - PerShare(fees, shares)) == Amount(shares, price) - fees
  {
    var n, each := shares as real, fees / shares as real;
    assert n * each == fees;
    assert n * (price + each) == n * price + n * each;
    assert n * (price - each) == n * price - n * each;
  }

  // ---- The account identity -----------------------------------------------------------------

  // The books agree with the FIFO matching of the fills so far, on day `today`.
  ghost predicate Balanced(book: Book, initial: real, today: int) {
    var m := MatchAll(book.fills);
    && m.unmatched == 0 && Queue(m.lots, today) && HeldOvernight(m.trips)
    && Held(m.lots) == book.shares && HeldBefore(m.lots, today) == book.sellable
    && book.cash == initial + TotalPnl(m.trips) - Cost(m.lots)
    && book.feesCum == Fees(book.fills)
    && Sold(book.fills) + book.sellable == BoughtBefore(book.fills, today)
  }

  lemma LastFill(fills: seq<Fill>, f: Fill, today: int)
    ensures var all := fills + [f];
            && MatchAll(all) == MatchFill(MatchAll(fills), f)
            && Fees(all) == Fees(fills) + f.fees
            && Sold(all) == Sold(fills) + (if f.side == Sell then f.shares else 0)
            && BoughtBefore(all, today)
               == BoughtBefore(fills, today) + if f.side == Buy && f.date < today then f.shares else 0
  {
    assert (fills + [f])[..|fills + [f]| - 1] == fills;
  }

  lemma QueueGrows(lots: seq<Lot>, lot: Lot, today: int)
    requires Queue(lots, today) && lot.shares > 0 && lot.date == today
    ensures Queue(lots + [lot], today)
  {
  }

  lemma BuyBalances(board: Board, order: Order, book: Book, bar: Bar, price: real, initial: real)
    requires Balanced(book, initial, bar.date)
    ensures Balanced(ExecuteBuy(board, order, book, bar, price), initial, bar.date)
  {
    hide RoundLot, Shrink, Affordable, Queue, HeldOvernight, PerShare, LotCost, Amount,
         MatchAll, Close, Held, HeldBefore, Cost, TotalPnl, Fees, Sold, BoughtBefore;
    var after := ExecuteBuy(board, order, book, bar, price);
    if after.fills != book.fills {
      var f := after.fills[|book.fills|];
      var lots := MatchAll(book.fills).lots;
      var lot := Lot(bar.date, f.price + PerShare(f.fees, f.shares), f.shares);
      LastFill(book.fills, f, bar.date);
      AppendLot(lots, lot, bar.date);
      QueueGrows(lots, lot, bar.date);
      PerShareTotal(f.price, f.fees, f.shares);
      LotCostIsAmount(lot);
      assert f.amount == Amount(f.shares, price);
    }
  }

  lemma LotCostIsAmount(lot: Lot)
    ensures LotCost(lot) == Amount(lot.shares, lot.cost)
  {
  }

  lemma SellBalances(board: Board, order: Order, book: Book, bar: Bar, price: real, initial: real)
    requires Balanced(book, initial, bar.date)
    ensures Balanced(ExecuteSell(board, order, book, bar, price), initial, bar.date)
  {
    hide BasisAfterSale, Queue, HeldOvernight, PerShare, Amount,
         MatchAll, Close, Held, HeldBefore, Cost, TotalPnl, Fees, Sold, BoughtBefore;
    var after := ExecuteSell(board, order, book, bar, price);
    if after.fills != book.fills {
      var f := after.fills[|book.fills|];
      var m := MatchAll(book.fills);
      var net := f.price - PerShare(f.fees, f.shares);
      LastFill(book.fills, f, bar.date);
      CloseOld(m.lots, f.shares, bar.date, net);
      var c := Close(m.lots, f.shares, bar.date, net);
      AppendTrips(m.trips, c.trips);
      HeldOvernightAppend(m.trips, c.trips);
      PerShareTotal(f.price, f.fees, f.shares);
      assert f.amount == Amount(f.shares, price);
    }
  }

  lemma HeldOvernightAppend(a: seq<RoundTrip>, b: seq<RoundTrip>)
    requires HeldOvernight(a) && HeldOvernight(b)
    ensures HeldOvernight(a + b)
  {
  }

  lemma RejectBalances(book: Book, bar: Bar, order: Order, reason: Reason, initial: real)
    requires Balanced(book, initial, bar.date)
    ensures Balanced(book.Reject(bar, order, reason), initial, bar.date)
  {
  }

  lemma ExecuteBalances(engine: Engine, order: Order, book: Book, bars: seq<Bar>, t: nat, rawPrice: real, initial: real)
    requires t < |bars| && Balanced(book, initial, bars[t].date)
    ensures Balanced(Execute(engine, order, book, bars, t, rawPrice), initial, bars[t].date)
  {
    hide ExecuteBuy, ExecuteSell, SlippedPrice, Balanced;
    var price := SlippedPrice(engine.slippageBps, order.side, rawPrice);
    forall reason { RejectBalances(book, bars[t], order, reason, initial); }
    BuyBalances(engine.board, order, book, bars[t], price, initial);
    SellBalances(engine.board, order, book, bars[t], price, initial);
  }

  lemma {:induction false} ExecuteAllBalances(
      engine: Engine, orders: seq<Order>, book: Book, bars: seq<Bar>, t: nat, rawPrice: real, initial: real)
    requires t < |bars| && Balanced(book, initial, bars[t].date)
    ensures Balanced(ExecuteAll(engine, orders, book, bars, t, rawPrice), initial, bars[t].date)
    decreases |orders|
  {
    hide Balanced, Execute;
    if orders != [] {
      ExecuteBalances(engine, orders[0], book, bars, t, rawPrice, initial);
      ExecuteAllBalances(engine, orders[1..], Execute(engine, orders[0], book, bars, t, rawPrice), bars, t, rawPrice,
          initial);
    }
  }

  // On a later day all that is held was bought before it.
  lemma OpenBalances(book: Book, initial: real, yesterday: int, today: int)
    requires Balanced(book, initial, yesterday) && yesterday < today
    requires forall f :: f in book.fills ==> f.date <= yesterday
    ensures Balanced(Open(book), initial, today)
  {
    var lots := MatchAll(book.fills).lots;
    BeforeIsPart(lots, today);
    AllBoughtBefore(book.fills, today);
    SharesFlow(book.fills);
  }

  lemma {:induction false} AllBoughtBefore(fills: seq<Fill>, today: int)
    requires forall f :: f in fills ==> f.date < today
    ensures BoughtBefore(fills, today) == Bought(fills)
  {
    if fills != [] {
      AllBoughtBefore(fills[..|fills| - 1], today);
    }
  }

  function Bought(fills: seq<Fill>): nat {
    if fills == [] then 0
    else
      var f := fills[|fills| - 1];
      Bought(fills[..|fills| - 1]) + if f.side == Buy then f.shares else 0
  }

  // What is bought is held or sold, except that selling without a lot sells nothing held.
  lemma {:induction false} SharesFlow(fills: seq<Fill>)
    ensures var m := MatchAll(fills);
            Bought(fills) + m.unmatched == Held(m.lots) + Sold(fills)
  {
    hide Pnl, PerShare;
    if fills != [] {
      var rest, f := fills[..|fills| - 1], fills[|fills| - 1];
      SharesFlow(rest);
      if f.side == Buy {
        AppendLot(MatchAll(rest).lots, Lot(f.date, f.price + PerShare(f.fees, f.shares), f.shares), 0);
      } else {
        CloseFlow(MatchAll(rest).lots, f.shares, f.date, f.price - PerShare(f.fees, f.shares));
      }
    }
  }

  lemma {:induction false} CloseFlow(lots: seq<Lot>, remaining: nat, date: int, net: real)
    ensures var c := Close(lots, remaining, date, net);
            Held(lots) + c.unmatched == Held(c.lots) + remaining
    decreases |lots|
  {
    hide Pnl;
    if remaining != 0 && lots != [] {
      var take := if remaining < lots[0].shares then remaining else lots[0].shares;
      if take == lots[0].shares {
        CloseFlow(lots[1..], remaining - take, date, net);
      } else {
        var less := lots[0].(shares := lots[0].shares - take);
        assert ([less] + lots[1..])[1..] == lots[1..];
      }
    }
  }

  lemma TradeBalances<S>(engine: Engine, strategy: Strategy<S>, bars: seq<Bar>, t: nat, run: Run<S>, initial: real)
    requires t < |bars| && Balanced(Open(run.book), initial, bars[t].date)
    ensures Balanced(Trade(engine, strategy, bars, t, run).book, initial, bars[t].date)
  {
    hide Balanced, ExecuteAll, Visible;
    var opening := Open(run.book);
    ExecuteAllBalances(engine, run.pending, opening, bars, t, bars[t].open, initial);
    ExecuteAllBalances(engine, run.pending, opening, bars, t, bars[t].close, initial);
    var (state, orders) := strategy.onBar(run.strategy, Visible(engine, bars[..t + 1]), opening.View(), t);
    ExecuteAllBalances(engine, orders, opening, bars, t, bars[t].close, initial);
  }

  lemma {:induction false} RunIsBalanced<S>(engine: Engine, strategy: Strategy<S>, bars: seq<Bar>, k: nat)
    requires bars != [] && k <= |bars| && StrictDates(bars)
    ensures Balanced(RunTo(engine, strategy, bars, k).book, engine.initialCash,
                     if k == 0 then bars[0].date - 1 else bars[k - 1].date)
    decreases k
  {
    hide Balanced, Trade;
    if k == 0 {
      EmptyBalanced(engine.initialCash, bars[0].date - 1);
    } else {
      var run := RunTo(engine, strategy, bars, k - 1);
      var yesterday := if k == 1 then bars[0].date - 1 else bars[k - 2].date;
      RunIsBalanced(engine, strategy, bars, k - 1);
      RunGrows(engine, strategy, bars, k - 1, k - 1);
      OpenBalances(run.book, engine.initialCash, yesterday, bars[k - 1].date);
      TradeBalances(engine, strategy, bars, k - 1, run, engine.initialCash);
    }
  }

  lemma EmptyBalanced(initial: real, today: int)
    ensures Balanced(BookRecord(initial, 0, 0, 0.0, 0.0, [], []), initial, today)
  {
  }

  // T+1 makes FIFO matching total: in every run no more is sold through a bar than was
  // bought on earlier dates, every round trip ends after the day it began, no sale lacks an
  // open lot, and the open lots are the position.
  lemma TPlusOneMeetsFifo<S>(engine: Engine, strategy: Strategy<S>, bars: seq<Bar>, k: nat)
    requires 0 < k <= |bars| && StrictDates(bars)
    ensures var book := RunTo(engine, strategy, bars, k).book;
            var m := MatchAll(book.fills);
            && Sold(book.fills) <= BoughtBefore(book.fills, bars[k - 1].date)
            && HeldOvernight(m.trips) && m.unmatched == 0
            && Held(m.lots) == book.shares
  {
    RunIsBalanced(engine, strategy, bars, k);
  }

  lemma {:induction false} NothingHeld(lots: seq<Lot>, today: int)
    requires Queue(lots, today) && Held(lots) == 0
    ensures lots == []
  {
  }

  // Conservation: the cash of a run is what it started with, plus what its round trips
  // made, less what its open lots cost; the fees booked are those of the fills; and a run
  // that ends flat ends with exactly its profit added.
  lemma Conservation<S>(engine: Engine, strategy: Strategy<S>, bars: seq<Bar>, k: nat)
    requires 0 < k <= |bars| && StrictDates(bars)
    ensures var run := RunTo(engine, strategy, bars, k);
            var m := MatchAll(run.book.fills);
            && run.book.cash == engine.initialCash + TotalPnl(m.trips) - Cost(m.lots)
            && run.book.feesCum == Fees(run.book.fills)
            && |run.equity| == k
            && (run.book.shares == 0 ==> run.equity[k - 1].equity == engine.initialCash + TotalPnl(m.trips))
  {
    hide MatchAll, Trade;
    RunIsBalanced(engine, strategy, bars, k);
    RunGrows(engine, strategy, bars, k, k);
    var run := RunTo(engine, strategy, bars, k);
    if run.book.shares == 0 {
      NothingHeld(MatchAll(run.book.fills).lots, bars[k - 1].date);
    }
  }
}
