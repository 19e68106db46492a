/**
 The client's trade engine: where a response from the exchange reaches first the position and then the managed order.
 */
module TradeEngines {
  import opened Types
  import opened ClientBook
  import opened OrderManagement
  import opened PositionKeeping
  import P = OrderProtocol

  class TradeEngine {
    const manager: OrderManager
    const positions: seq<PositionInfo>

    ghost predicate Valid()
      reads positions
    {
      && manager.Valid() && |positions| == ME_MAX_TICKERS
      && (forall i, j :: 0 <= i < j < |positions| ==> positions[i] != positions[j])
      && (forall i :: 0 <= i < |positions| ==> OneSided(positions[i].State()))
    }

    ghost function Positions(): (ps: seq<int>)
      reads positions
      ensures |ps| == |positions|
    {
      seq(|positions|, i requires 0 <= i < |positions| reads positions => positions[i].position)
    }

    constructor (client: ClientId, positions: seq<PositionInfo>)
      requires |positions| == ME_MAX_TICKERS
      requires forall i, j :: 0 <= i < j < |positions| ==> positions[i] != positions[j]
      requires forall i :: 0 <= i < |positions| ==> positions[i].State() == FLAT
      ensures Valid() && this.positions == positions && fresh(manager) && fresh(manager.tickerSideOrder)
      ensures forall t: TickerId {:trigger positions[t]} :: t < ME_MAX_TICKERS ==> Kept(positions[t].State(), [], t)
    {
      hide Kept;
      forall t: TickerId ensures Kept(FLAT, [], t) {
        StartsFlat(t);
      }
      this.positions := positions;
      manager := new OrderManager(client);
    }

    /** A response moves the position and the managed order exactly as one step of the order protocol does. */
    method OnOrderUpdate(r: ClientResponse)
      requires Valid() && r.ticker < ME_MAX_TICKERS && (r.kind == Filled ==> r.side != NoSide)
      modifies positions, manager.tickerSideOrder
      ensures Valid()
      ensures Positions() == P.Responded(old(Positions()), r)
      ensures manager.State() == OrderManagement.OnOrderUpdate(old(manager.State()), r)
      ensures forall i :: 0 <= i < |positions| ==> positions[i].State() == Heard(old(positions[i].State()), i, r)
    {
      hide AfterFill;
      hide SideValue;
      hide OneSided;
      hide OrderManagement.OnOrderUpdate;
      if r.kind == Filled {
        positions[r.ticker].AddFill(Fill(r.side, r.price, r.execQty));
        FillMoves(old(positions[r.ticker].State()), Fill(r.side, r.price, r.execQty));
      }
      manager.OnUpdate(r);
    }

    /** A change of a book's best bid and offer revalues the position of its ticker. */
    method OnOrderBookUpdate(ticker: TickerId, bbo: BBO)
      requires Valid() && ticker < ME_MAX_TICKERS
      modifies positions
      ensures Valid() && manager.State() == old(manager.State())
      ensures forall i :: 0 <= i < |positions| ==>
        positions[i].State() == Noted(old(positions[i].State()), i, Quote(ticker, bbo))
    {
      hide PaperProfit;
      positions[ticker].UpdateBBO(bbo);
    }

    /**
     Take in responses and quotes as they come.  Position, profit and open cost of every ticker are at any time what the
     fills so far make them.
     */
    method Run(events: seq<Event>, ghost before: seq<Event>)
      requires Valid() && forall e :: e in events ==> Sane(e)
      requires forall t: TickerId {:trigger positions[t]} :: t < ME_MAX_TICKERS ==>
        Kept(positions[t].State(), before, t)
      modifies positions, manager.tickerSideOrder
      ensures Valid()
      ensures forall t: TickerId {:trigger positions[t]} :: t < ME_MAX_TICKERS ==>
        Kept(positions[t].State(), before + events, t)
    {
      hide Kept;
      hide Noted;
      hide OneSided;
      assert before + events[..0] == before;
      for i := 0 to |events|
        invariant Valid()
        invariant forall t: TickerId {:trigger positions[t]} :: t < ME_MAX_TICKERS ==>
          Kept(positions[t].State(), before + events[..i], t)
      {
        var e := events[i];
        assert e in events;
        label taken:
        ghost var so := before + events[..i];
        forall t: TickerId {:trigger positions[t]} | t < ME_MAX_TICKERS
          ensures Kept(Noted(positions[t].State(), t, e), so + [e], t)
        {
          KeepsCount(positions[t].State(), so, e, t);
        }
        match e {
          case Response(r) =>
            OnOrderUpdate(r);
            ResponseNoted(r);
          case Quote(ticker, bbo) =>
            OnOrderBookUpdate(ticker, bbo);
        }
        assert forall t: TickerId {:trigger positions[t]} :: t < ME_MAX_TICKERS ==>
          positions[t].State() == Noted(old@taken(positions[t].State()), t, e);
        assert so + [e] == before + events[..i + 1];
      }
      assert before + events[..|events|] == before + events;
    }
  }

  /** What a response means for the position of a ticker. */
  function Heard(p: Position, t: TickerId, r: ClientResponse): Position {
    if t == r.ticker && r.kind == Filled then AfterFill(p, Fill(r.side, r.price, r.execQty)) else p
  }

  // What the engine hears of: a response of the exchange, or a change of a book's best bid and offer.
  datatype Event = Response(r: ClientResponse) | Quote(ticker: TickerId, bbo: BBO)

  predicate Sane(e: Event) {
    match e
    case Response(r) => r.ticker < ME_MAX_TICKERS && (r.kind == Filled ==> r.side != NoSide)
    case Quote(ticker, _) => ticker < ME_MAX_TICKERS
  }

  function Noted(p: Position, t: TickerId, e: Event): Position {
    match e
    case Response(r) => Heard(p, t, r)
    case Quote(ticker, bbo) => if t == ticker then Quoted(p, bbo) else p
  }

  lemma ResponseNoted(r: ClientResponse)
    ensures forall p, t {:trigger Heard(p, t, r)} :: Noted(p, t, Response(r)) == Heard(p, t, r)
  {
  }

  // --- Profit, counted from the responses themselves -----------------------------------------------------------

  /** The event is a fill of this ticker on this side. */
  predicate FillsOn(e: Event, t: TickerId, side: Side) {
    e.Response? && e.r.kind == Filled && e.r.ticker == t && e.r.side == side
  }

  /** What was bought less what was sold. */
  function NetIn(es: seq<Event>, t: TickerId): int {
    if es == [] then 0
    else
      var e := es[|es| - 1];
      NetIn(es[..|es| - 1], t)
        + (if FillsOn(e, t, Buy) then e.r.execQty else if FillsOn(e, t, Sell) then -(e.r.execQty as int) else 0)
  }

  function VolumeIn(es: seq<Event>, t: TickerId): nat {
    if es == [] then 0
    else
      var e := es[|es| - 1];
      VolumeIn(es[..|es| - 1], t) + (if FillsOn(e, t, Buy) || FillsOn(e, t, Sell) then e.r.execQty else 0)
  }

  /** What was received for sales less what was paid for purchases. */
  function CashIn(es: seq<Event>, t: TickerId): real {
    if es == [] then 0.0
    else
      var e := es[|es| - 1];
      CashIn(es[..|es| - 1], t)
        + (if FillsOn(e, t, Buy) then -(e.r.price as real * e.r.execQty as real)
           else if FillsOn(e, t, Sell) then e.r.price as real * e.r.execQty as real
           else 0.0)
  }

  /** The price the position stands at: that of the last fill, or the middle of a later quote with both sides. */
  function ValueIn(es: seq<Event>, t: TickerId): real {
    if es == [] then 0.0
    else
      var e, most := es[|es| - 1], es[..|es| - 1];
      if FillsOn(e, t, Buy) || FillsOn(e, t, Sell) then e.r.price as real
      else if e.Quote? && e.ticker == t && NetIn(most, t) != 0 && e.bbo.bidPrice != PRICE_INVALID
           && e.bbo.askPrice != PRICE_INVALID
        then (e.bbo.bidPrice + e.bbo.askPrice) as real * 0.5
      else ValueIn(most, t)
  }

  /**
   A position is what these events make it: the net quantity, the volume, cash less what the open position cost, and
   total profit the cash plus the position at its price; when it is flat exactly that cash has been booked.
   */
  ghost predicate Kept(p: Position, es: seq<Event>, t: TickerId) {
    && p.position == NetIn(es, t) && p.volume == VolumeIn(es, t) && OneSided(p)
    && p.realPnl - p.openBuy + p.openSell == CashIn(es, t)
    && p.totalPnl == p.unrealPnl + p.realPnl == CashIn(es, t) + p.position as real * ValueIn(es, t)
    && (p.position == 0 ==> p.realPnl == p.totalPnl == CashIn(es, t))
  }

  lemma StartsFlat(t: TickerId)
    ensures Kept(FLAT, [], t)
  {
  }

  lemma PlainCost(f: Fill)
    requires f.side != NoSide
    ensures Cost(f) == if f.side == Buy then f.price as real * f.qty as real else -(f.price as real * f.qty as real)
  {
  }

  lemma EventsUnfold(es: seq<Event>, e: Event, t: TickerId)
    ensures NetIn(es + [e], t) == NetIn(es, t) + (if FillsOn(e, t, Buy) then e.r.execQty
                                                  else if FillsOn(e, t, Sell) then -(e.r.execQty as int) else 0)
    ensures VolumeIn(es + [e], t)
      == VolumeIn(es, t) + (if FillsOn(e, t, Buy) || FillsOn(e, t, Sell) then e.r.execQty else 0)
    ensures CashIn(es + [e], t)
      == CashIn(es, t) + (if FillsOn(e, t, Buy) then -(e.r.price as real * e.r.execQty as real)
                          else if FillsOn(e, t, Sell) then e.r.price as real * e.r.execQty as real else 0.0)
    ensures ValueIn(es + [e], t)
      == (if FillsOn(e, t, Buy) || FillsOn(e, t, Sell) then e.r.price as real
          else if e.Quote? && e.ticker == t && NetIn(es, t) != 0 && e.bbo.bidPrice != PRICE_INVALID
                  && e.bbo.askPrice != PRICE_INVALID
            then (e.bbo.bidPrice + e.bbo.askPrice) as real * 0.5
          else ValueIn(es, t))
  {
    assert (es + [e])[..|es|] == es;
  }

  lemma FillKept(p: Position, es: seq<Event>, r: ClientResponse)
    requires Kept(p, es, r.ticker) && r.kind == Filled && r.side != NoSide
    ensures Kept(AfterFill(p, Fill(r.side, r.price, r.execQty)), es + [Response(r)], r.ticker)
  {
    hide AfterFill;
    hide Cost;
    hide NetIn;
    hide VolumeIn;
    hide CashIn;
    hide ValueIn;
    var f := Fill(r.side, r.price, r.execQty);
    EventsUnfold(es, Response(r), r.ticker);
    PlainCost(f);
    FillProfit(p, f, CashIn(es, r.ticker));
    FillTotals(p, f);
  }

  lemma FillTotals(p: Position, f: Fill)
    ensures var q := AfterFill(p, f); q.volume == p.volume + f.qty && q.totalPnl == q.unrealPnl + q.realPnl
  {
  }

  lemma QuoteKept(p: Position, es: seq<Event>, t: TickerId, bbo: BBO)
    requires Kept(p, es, t)
    ensures Kept(Quoted(p, bbo), es + [Quote(t, bbo)], t)
  {
    hide PaperProfit;
    hide NetIn;
    hide VolumeIn;
    hide CashIn;
    hide ValueIn;
    EventsUnfold(es, Quote(t, bbo), t);
    PaperProfitIs(p, CashIn(es, t), (bbo.bidPrice + bbo.askPrice) as real * 0.5);
  }

  /** One more event keeps the count of every ticker. */
  lemma KeepsCount(p: Position, es: seq<Event>, e: Event, t: TickerId)
    requires Kept(p, es, t) && Sane(e)
    ensures Kept(Noted(p, t, e), es + [e], t)
  {
    hide AfterFill;
    hide Quoted;
    hide OneSided;
    hide NetIn;
    hide VolumeIn;
    hide CashIn;
    hide ValueIn;
    EventsUnfold(es, e, t);
    match e {
      case Response(r) =>
        if r.ticker == t && r.kind == Filled { FillKept(p, es, r); }
      case Quote(ticker, bbo) =>
        if ticker == t { QuoteKept(p, es, t, bbo); }
    }
  }

  lemma FillMoves(p: Position, f: Fill)
    ensures AfterFill(p, f).position == p.position + SideValue(f.side) * f.qty
  {
    TradeMoves(p, f);
    SignedIs(f);
  }
}
