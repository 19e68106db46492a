/** Position, average entry price and profit of one ticker, kept fill by fill. */
module PositionKeeping {
  import opened Types
  import opened OrderManagement
  import opened ClientBook

  // The fields of a position; openBuy and openSell are what the open position was bought or sold for in all.
  datatype Position = Position(position: int, realPnl: real, unrealPnl: real, totalPnl: real, openBuy: real,
      openSell: real, volume: nat)

  const FLAT := Position(0, 0.0, 0.0, 0.0, 0.0, 0.0, 0)

  datatype Fill = Fill(side: Side, price: Price, qty: Qty)

  function SizeOf(x: int): real {
    Abs(x) as real
  }

  function Sign(side: Side): real {
    SideValue(side) as real
  }

  /** The change of position a fill makes. */
  function Signed(f: Fill): int {
    match f.side
    case Buy => f.qty
    case Sell => -(f.qty as int)
    case NoSide => 0
  }

  /** A trade on this side opens or adds to the position rather than closing it. */
  predicate Adds(position: int, side: Side) {
    if side == Buy then position >= 0 else position <= 0
  }

  lemma SignedIs(f: Fill)
    ensures SideValue(f.side) * f.qty == Signed(f)
  {
  }

  lemma AddsIs(position: int, side: Side)
    requires side != NoSide
    ensures position * SideValue(side) >= 0 <==> Adds(position, side)
  {
  }

  function Notional(f: Fill): real {
    f.price as real * f.qty as real
  }

  /** What a fill costs in cash: positive for a buy, negative for a sale. */
  function Cost(f: Fill): real {
    Sign(f.side) * Notional(f)
  }

  function Worth(position: int, price: real): real {
    position as real * price
  }

  function OpenOf(p: Position, side: Side): real {
    if side == Buy then p.openBuy else p.openSell
  }

  function WithOpen(p: Position, side: Side, x: real): Position {
    if side == Buy then p.(openBuy := x) else p.(openSell := x)
  }

  /** The profit on paper when the open position is valued at this price. */
  function PaperProfit(p: Position, price: real): real {
    if p.position == 0 then 0.0
    else if p.position > 0 then (price - p.openBuy / SizeOf(p.position)) * SizeOf(p.position)
    else (p.openSell / SizeOf(p.position) - price) * SizeOf(p.position)
  }

  /** Only the side the position is on has an open cost. */
  predicate OneSided(p: Position) {
    && (p.position <= 0 ==> p.openBuy == 0.0)
    && (p.position >= 0 ==> p.openSell == 0.0)
  }

  // --- One fill ----------------------------------------------------------------------------------------------

  /** What a position of this size costs at this price per unit. */
  function CostOf(unit: real, position: int): real {
    unit * SizeOf(position)
  }

  /** What closing a quantity at this price books, against the average entry price. */
  function Gain(closed: nat, average: real, price: Price, side: Side): real {
    closed as real * (average - price as real) * Sign(side)
  }

  /**
   The open cost and the booked profit after a fill, at average cost: what is closed is closed at the average entry
   price.
   */
  function Traded(p: Position, f: Fill): Position {
    var size, opposite := Abs(p.position), Opposite(f.side);
    var q := p.(position := p.position + Signed(f), volume := p.volume + f.qty);
    if Adds(p.position, f.side) then
      WithOpen(q, f.side, OpenOf(p, f.side) + Notional(f))
    else
      var average := OpenOf(p, opposite) / SizeOf(p.position);
      if f.qty <= size then
        WithOpen(q, opposite, CostOf(average, q.position))
          .(realPnl := p.realPnl + Gain(f.qty, average, f.price, f.side))
      else
        WithOpen(WithOpen(q, opposite, 0.0), f.side, CostOf(f.price as real, q.position))
          .(realPnl := p.realPnl + Gain(size, average, f.price, f.side))
  }

  /** The position valued at this price. */
  function Revalued(p: Position, price: real): Position {
    p.(unrealPnl := PaperProfit(p, price), totalPnl := PaperProfit(p, price) + p.realPnl)
  }

  function AfterFill(p: Position, f: Fill): Position {
    Revalued(Traded(p, f), f.price as real)
  }

  /** After a change of the best bid and offer: an open position is valued at the middle, if both sides have a price. */
  function Quoted(p: Position, bbo: BBO): Position {
    if p.position != 0 && bbo.bidPrice != PRICE_INVALID && bbo.askPrice != PRICE_INVALID then
      Revalued(p, (bbo.bidPrice + bbo.askPrice) as real * 0.5)
    else p
  }

  class PositionInfo {
    var position: int
    var realPnl: real
    var unrealPnl: real
    var totalPnl: real
    var openBuy: real
    var openSell: real
    var volume: nat

    ghost function State(): Position
      reads this
    {
      Position(position, realPnl, unrealPnl, totalPnl, openBuy, openSell, volume)
    }

    constructor ()
      ensures State() == FLAT
    {
      position, volume := 0, 0;
      realPnl, unrealPnl, totalPnl, openBuy, openSell := 0.0, 0.0, 0.0, 0.0, 0.0;
    }

    function OpenVwap(side: Side): real
      reads this
    {
      if side == Buy then openBuy else openSell
    }

    method SetOpenVwap(side: Side, x: real)
      modifies this`openBuy, this`openSell
      ensures State() == WithOpen(old(State()), side, x)
    {
      if side == Buy {
        openBuy := x;
      } else {
        openSell := x;
      }
    }

    /** Move the open cost and the booked profit. */
    method Trade(f: Fill)
      requires f.side != NoSide && OneSided(State())
      modifies this
      ensures State() == Traded(old(State()), f)
    {
      hide Notional;
      hide Signed;
      hide Adds;
      hide SideValue;
      hide CostOf;
      hide Gain;
      SignedIs(f);
      AddsIs(position, f.side);
      var oldPosition := position;
      var opposite := Opposite(f.side);
      position := position + SideValue(f.side) * f.qty;
      volume := volume + f.qty;
      if oldPosition * SideValue(f.side) >= 0 {
        SetOpenVwap(f.side, OpenVwap(f.side) + Notional(f));
      } else {
        Flips(oldPosition, f);
        var vwap := OpenVwap(opposite) / SizeOf(oldPosition);
        SetOpenVwap(opposite, CostOf(vwap, position));
        realPnl := realPnl + Gain(Min(f.qty, Abs(oldPosition)), vwap, f.price, f.side);
        if position * oldPosition < 0 {
          SetOpenVwap(f.side, CostOf(f.price as real, position));
          SetOpenVwap(opposite, 0.0);
        }
      }
    }

    /** Take in a fill. */
    method AddFill(f: Fill)
      requires f.side != NoSide && OneSided(State())
      modifies this
      ensures State() == AfterFill(old(State()), f) && OneSided(State())
    {
      hide Traded;
      hide Cost;
      TradeBooked(State(), f, realPnl - openBuy + openSell);
      Trade(f);
      if position == 0 {
        openBuy, openSell, unrealPnl := 0.0, 0.0, 0.0;
      } else if position > 0 {
        unrealPnl := (f.price as real - openBuy / SizeOf(position)) * SizeOf(position);
      } else {
        unrealPnl := (openSell / SizeOf(position) - f.price as real) * SizeOf(position);
      }
      totalPnl := unrealPnl + realPnl;
    }

    /** Take in a change of the best bid and offer. */
    method UpdateBBO(bbo: BBO)
      modifies this
      ensures State() == Quoted(old(State()), bbo)
    {
      if position != 0 && bbo.bidPrice != PRICE_INVALID && bbo.askPrice != PRICE_INVALID {
        var midPrice := (bbo.bidPrice + bbo.askPrice) as real * 0.5;
        if position > 0 {
          unrealPnl := (midPrice - openBuy / SizeOf(position)) * SizeOf(position);
        } else {
          unrealPnl := (openSell / SizeOf(position) - midPrice) * SizeOf(position);
        }
        totalPnl := unrealPnl + realPnl;
      }
    }
  }

  /** A trade against the position changes its sign exactly if it is larger. */
  lemma Flips(held: int, f: Fill)
    requires f.side != NoSide && !Adds(held, f.side)
    ensures (held + Signed(f)) * held < 0 <==> f.qty > Abs(held)
  {
    var holding := held + Signed(f);
    if f.qty < Abs(held) {
      SameSign(holding, held);
    } else if f.qty > Abs(held) {
      SameSign(holding, -held);
    }
  }

  lemma SameSign(x: int, y: int)
    requires (x > 0 && y > 0) || (x < 0 && y < 0)
    ensures x * y > 0
  {
  }

  // --- Profit is cash ----------------------------------------------------------------------------------------

  /** Cash is what is booked less what the open position cost. */
  predicate Booked(p: Position, cash: real) {
    OneSided(p) && cash == p.realPnl - p.openBuy + p.openSell
  }

  lemma AverageTimesSize(open: real, size: real)
    requires size != 0.0
    ensures open / size * size == open
  {
  }

  /** Closing part of a position at average cost books the difference between what it fetched and what it cost. */
  lemma CloseOut(open: real, size: real, closed: real, price: real)
    requires size != 0.0
    ensures closed * (open / size - price) == open - open / size * (size - closed) - price * closed
  {
    var average := open / size;
    AverageTimesSize(open, size);
    assert closed * (average - price) == average * closed - price * closed;
    assert average * (size - closed) == average * size - average * closed;
  }

  lemma TimesZero(x: real, zero: real)
    requires zero == 0.0
    ensures x * zero == 0.0
  {
  }

  lemma TradeBooked(p: Position, f: Fill, cash: real)
    requires Booked(p, cash) && f.side != NoSide
    ensures Booked(Traded(p, f), cash - Cost(f))
  {
    if !Adds(p.position, f.side) {
      if f.qty <= Abs(p.position) {
        ReduceBooked(p, f, cash);
      } else {
        CloseBooked(p, f, cash);
      }
    }
  }

  lemma ReduceBooked(p: Position, f: Fill, cash: real)
    requires Booked(p, cash) && f.side != NoSide && !Adds(p.position, f.side) && f.qty <= Abs(p.position)
    ensures Booked(Traded(p, f), cash - Cost(f))
  {
    var q := Traded(p, f);
    CloseOut(OpenOf(p, Opposite(f.side)), SizeOf(p.position), f.qty as real, f.price as real);
    assert SizeOf(q.position) == SizeOf(p.position) - f.qty as real;
    if q.position == 0 { TimesZero(OpenOf(p, Opposite(f.side)) / SizeOf(p.position), SizeOf(q.position)); }
  }

  lemma CloseBooked(p: Position, f: Fill, cash: real)
    requires Booked(p, cash) && f.side != NoSide && !Adds(p.position, f.side) && f.qty > Abs(p.position)
    ensures Booked(Traded(p, f), cash - Cost(f))
  {
    var q, size, qty, price := Traded(p, f), SizeOf(p.position), f.qty as real, f.price as real;
    CloseOut(OpenOf(p, Opposite(f.side)), size, size, price);
    assert SizeOf(q.position) == qty - size;
    assert price * (qty - size) == price * qty - price * size;
  }

  /** An open position valued at a price is worth what it fetches there less what it cost. */
  lemma PaperProfitIs(p: Position, cash: real, price: real)
    requires Booked(p, cash)
    ensures PaperProfit(p, price) + p.realPnl == cash + Worth(p.position, price)
    ensures p.position == 0 ==> PaperProfit(p, price) == 0.0 && p.realPnl == cash
  {
    if p.position != 0 {
      AverageTimesSize(if p.position > 0 then p.openBuy else p.openSell, SizeOf(p.position));
    }
  }

  /** What a sequence of fills paid and received in all. */
  function Cash(fills: seq<Fill>): real {
    if fills == [] then 0.0 else Cash(fills[..|fills| - 1]) - Cost(fills[|fills| - 1])
  }

  function Net(fills: seq<Fill>): int {
    if fills == [] then 0 else Net(fills[..|fills| - 1]) + Signed(fills[|fills| - 1])
  }

  function AfterFills(fills: seq<Fill>): Position {
    if fills == [] then FLAT else AfterFill(AfterFills(fills[..|fills| - 1]), fills[|fills| - 1])
  }

  lemma FillProfit(p: Position, f: Fill, cash: real)
    requires Booked(p, cash) && f.side != NoSide
    ensures var q, c := AfterFill(p, f), cash - Cost(f);
      && Booked(q, c) && q.position == p.position + Signed(f)
      && q.totalPnl == c + Worth(q.position, f.price as real)
      && (q.position == 0 ==> q.realPnl == q.totalPnl == c && q.unrealPnl == 0.0)
  {
    hide Traded;
    hide PaperProfit;
    hide Cost;
    hide Signed;
    hide Worth;
    TradeBooked(p, f, cash);
    TradeMoves(p, f);
    PaperProfitIs(Traded(p, f), cash - Cost(f), f.price as real);
  }

  /**
   Over any sequence of fills, through increases, reductions and flips: the position is their sum, total profit is the
   net cash plus the position at the last price, a flat position has booked exactly the net cash, and only the side the
   position is on has an open cost.
   */
  lemma {:induction false} ProfitIsCash(fills: seq<Fill>)
    requires forall f :: f in fills ==> f.side != NoSide
    ensures var p := AfterFills(fills);
      && p.position == Net(fills) && Booked(p, Cash(fills))
      && (fills != [] ==> p.totalPnl == Cash(fills) + Worth(p.position, fills[|fills| - 1].price as real))
      && (p.position == 0 ==> p.realPnl == p.totalPnl == Cash(fills) && p.unrealPnl == 0.0)
    decreases |fills|
  {
    hide AfterFill;
    hide Cost;
    hide Signed;
    hide Worth;
    hide Booked;
    NoFills();
    if fills != [] {
      var most, f := fills[..|fills| - 1], fills[|fills| - 1];
      assert f in fills;
      ProfitIsCash(most);
      FillProfit(AfterFills(most), f, Cash(most));
    }
  }

  lemma NoFills()
    ensures Booked(FLAT, 0.0)
  {
  }

  lemma TradeMoves(p: Position, f: Fill)
    ensures Traded(p, f).position == p.position + Signed(f)
  {
  }

  /** A change of the best bid and offer values an open position at the middle price, and books nothing. */
  lemma QuoteValues(fills: seq<Fill>, bbo: BBO)
    requires forall f :: f in fills ==> f.side != NoSide
    ensures var p, q := AfterFills(fills), Quoted(AfterFills(fills), bbo);
      && q.position == p.position && q.realPnl == p.realPnl && Booked(q, Cash(fills))
      && (p.position != 0 && bbo.bidPrice != PRICE_INVALID && bbo.askPrice != PRICE_INVALID ==>
            q.totalPnl == Cash(fills) + Worth(p.position, (bbo.bidPrice + bbo.askPrice) as real * 0.5))
      && (p.position == 0 || bbo.bidPrice == PRICE_INVALID || bbo.askPrice == PRICE_INVALID ==> q == p)
  {
    hide AfterFills;
    hide Cash;
    hide PaperProfit;
    ProfitIsCash(fills);
    PaperProfitIs(AfterFills(fills), Cash(fills), (bbo.bidPrice + bbo.askPrice) as real * 0.5);
  }

  /**
   Opening or increasing a position books nothing and adds what was traded to its cost; a trade that turns it round
   leaves what is open at the price of that trade.
   */
  lemma OpensAtItsPrice(p: Position, f: Fill)
    requires f.side != NoSide && OneSided(p)
    ensures var q, cost := AfterFill(p, f), f.price as real * f.qty as real;
      && (f.side == Buy && p.position >= 0 ==> q.realPnl == p.realPnl && q.openBuy == p.openBuy + cost)
      && (f.side == Sell && p.position <= 0 ==> q.realPnl == p.realPnl && q.openSell == p.openSell + cost)
      && (p.position < 0 < q.position ==> q.openBuy == f.price as real * q.position as real)
      && (q.position < 0 < p.position ==> q.openSell == f.price as real * -(q.position as real))
  {
    hide Gain;
    hide PaperProfit;
    hide CostOf;
    hide Notional;
    NotionalIs(f);
    CostAt(f.price as real, Traded(p, f).position);
  }

  lemma NotionalIs(f: Fill)
    ensures Notional(f) == f.price as real * f.qty as real
  {
  }

  lemma CostAt(unit: real, position: int)
    ensures CostOf(unit, position) == if position > 0 then unit * position as real else unit * -(position as real)
  {
  }

  /** Reducing a position leaves its average entry price as it was. */
  lemma ReducingKeepsAverage(p: Position, f: Fill)
    requires f.side != NoSide && !Adds(p.position, f.side) && f.qty < Abs(p.position)
    ensures AfterFill(p, f).position * p.position > 0
    ensures var q := AfterFill(p, f);
      OpenOf(q, Opposite(f.side)) / SizeOf(q.position) == OpenOf(p, Opposite(f.side)) / SizeOf(p.position)
  {
    AverageTimesSize(OpenOf(p, Opposite(f.side)), SizeOf(p.position));
    var average, size := OpenOf(p, Opposite(f.side)) / SizeOf(p.position), SizeOf(AfterFill(p, f).position);
    TimesOverSize(average, size);
  }

  lemma TimesOverSize(x: real, size: real)
    requires size != 0.0
    ensures x * size / size == x
  {
  }
}
