/**
 * Sealed-bid resolution (`SealBid.declare_winner_and_price`): the bids are
 * sorted in descending order, the winner is drawn from the bids equal to the
 * top one, the price is the first, second or third highest bid, and every
 * bidder receives one profit entry and one win flag.
 */
module Sealed {
  import opened Base
  import opened Ranking
  import opened Bidders

  /** One entry of `bid_list`: `{"agent": name, "bid": bid}`. */
  datatype BidEntry = BidEntry(agent: string, bid: real)

  /** `self.winner`: `{"winner": name, "price": price}`. */
  datatype Sale = Sale(winner: string, price: real)

  function BidOf(b: BidEntry): real
  {
    b.bid
  }

  /** `int(x['bid'])`, the sort key of the integer-bid variant. */
  function TruncatedBidOf(b: BidEntry): real
  {
    Trunc(b.bid) as real
  }

  /** The sort key each variant writes: `float(...)` or `int(...)`. */
  function SortKeyAsWritten(variant: Variant): BidEntry -> real
  {
    if variant == IntBids then TruncatedBidOf else BidOf
  }

  /** `bid["bid"] == top` */
  function AtBid(top: real): BidEntry -> bool
  {
    (b: BidEntry) => b.bid == top
  }

  function Above(price: real): BidEntry -> bool
  {
    (b: BidEntry) => b.bid > price
  }

  function AtLeast(price: real): BidEntry -> bool
  {
    (b: BidEntry) => b.bid >= price
  }

  /** Whether a variant recognises the price rule; only the plan variant has all-pay. */
  predicate Allowed(variant: Variant, order: PriceOrder)
  {
    order.First? || order.Second? || order.Third? || (order.AllPay? && variant == Plan)
  }

  /** The rank of the bid that is charged, which is also the number of bids the rule needs. */
  function Rank(order: PriceOrder): (r: nat)
    ensures 1 <= r <= 3
  {
    match order
    case First => 1
    case Second => 2
    case Third => 3
    case AllPay => 1
    case UnknownPriceOrder => 1
  }

  /**
   * The resolution with a given sort key: an unknown rule raises `ValueError`;
   * too few bids leave `winner` and `price` unbound; otherwise the winner is
   * `random.choice` among the bids equal to the top one and the price is the
   * bid of the rule's rank in the sorted list.
   */
  function ResolveWith(key: BidEntry -> real, variant: Variant, order: PriceOrder,
                       bids: seq<BidEntry>, pick: nat): (r: Result<Sale>)
    ensures r.Ok? <==> Allowed(variant, order) && |bids| >= Rank(order)
    ensures !Allowed(variant, order) ==> r == Err(RuleNotAllowed)
    ensures Allowed(variant, order) && |bids| < Rank(order) ==> r == Err(UnboundWinner)
    ensures r.Ok? ==> r.value.price in Prices(bids)
    ensures r.Ok? ==> r.value.winner in Agents(bids)
  {
    if !Allowed(variant, order) then Err(RuleNotAllowed)
    else if |bids| < Rank(order) then Err(UnboundWinner)
    else
      var sorted := SortDesc(bids, key);
      SortPerm(bids, key);
      assert sorted[0] in multiset(bids) && sorted[Rank(order) - 1] in multiset(bids);
      var ties := Filter(sorted, AtBid(sorted[0].bid));
      assert ties[0] == sorted[0];
      var w := Choice(ties, pick);
      assert w in sorted;
      assert w in multiset(bids);
      Ok(Sale(w.agent, sorted[Rank(order) - 1].bid))
  }

  function Prices(bids: seq<BidEntry>): set<real>
  {
    set b | b in bids :: b.bid
  }

  function Agents(bids: seq<BidEntry>): set<string>
  {
    set b | b in bids :: b.agent
  }

  /**
   * The resolution as each copy writes it (util.py sorts by the truncated
   * bid). It fails exactly when the rule is not allowed or there are too few
   * bids.
   */
  function ResolveAsWritten(variant: Variant, order: PriceOrder, bids: seq<BidEntry>, pick: nat): (r: Result<Sale>)
    ensures r.Ok? <==> Allowed(variant, order) && |bids| >= Rank(order)
    ensures !Allowed(variant, order) ==> r == Err(RuleNotAllowed)
    ensures Allowed(variant, order) && |bids| < Rank(order) ==> r == Err(UnboundWinner)
  {
    ResolveWith(SortKeyAsWritten(variant), variant, order, bids, pick)
  }

  /**
   * With util.py's `int(bid)` as key the winner is drawn from the bids equal
   * to the sorted head, whose integer part is the largest of all bids: the
   * winner always holds a bid of the largest integer part, though not always
   * the largest bid.
   */
  lemma TruncatedWinnerIsTop(order: PriceOrder, bids: seq<BidEntry>, pick: nat)
    requires ResolveAsWritten(IntBids, order, bids, pick).Ok?
    ensures exists b :: (b in bids && b.agent == ResolveAsWritten(IntBids, order, bids, pick).value.winner
                         && forall c :: c in bids ==> Trunc(c.bid) <= Trunc(b.bid))
  {
    assert SortKeyAsWritten(IntBids) == TruncatedBidOf;
    var sorted := SortDesc(bids, TruncatedBidOf);
    SortHeadIsMax(bids, TruncatedBidOf);
    SortPerm(bids, TruncatedBidOf);
    var ties := Filter(sorted, AtBid(sorted[0].bid));
    assert ties[0] == sorted[0];
    var w := Choice(ties, pick);
    assert w in sorted && w.bid == sorted[0].bid;
    assert w in multiset(bids);
    forall c | c in bids ensures Trunc(c.bid) <= Trunc(w.bid) {
      assert TruncatedBidOf(c) <= TruncatedBidOf(sorted[0]);
    }
  }

  /**
   * The resolution with the bid itself as sort key, as every variant intends.
   * It fails exactly when the rule is not allowed or there are too few bids.
   */
  function Resolve(variant: Variant, order: PriceOrder, bids: seq<BidEntry>, pick: nat): (r: Result<Sale>)
    ensures r.Ok? <==> Allowed(variant, order) && |bids| >= Rank(order)
    ensures !Allowed(variant, order) ==> r == Err(RuleNotAllowed)
    ensures Allowed(variant, order) && |bids| < Rank(order) ==> r == Err(UnboundWinner)
  {
    ResolveWith(BidOf, variant, order, bids, pick)
  }

  /** The largest bid. */
  function MaxBid(bids: seq<BidEntry>): (m: real)
    requires |bids| > 0
    ensures forall b :: b in bids ==> b.bid <= m
    ensures exists b :: b in bids && b.bid == m
  {
    if |bids| == 1 then bids[0].bid
    else
      var rest := MaxBid(bids[1..]);
      assert forall b :: b in bids[1..] ==> b in bids;
      assert forall b :: b in bids ==> b == bids[0] || b in bids[1..];
      if bids[0].bid >= rest then bids[0].bid else rest
  }

  /** The bids equal to the largest one, in submission order. */
  function TopTies(bids: seq<BidEntry>): (r: seq<BidEntry>)
    requires |bids| > 0
    ensures |r| > 0
  {
    FilterWitness(bids, AtBid(MaxBid(bids)));
    Filter(bids, AtBid(MaxBid(bids)))
  }

  lemma FilterWitness<T>(s: seq<T>, p: T -> bool)
    requires exists x :: x in s && p(x)
    ensures |Filter(s, p)| > 0
  {
    var x :| x in s && p(x);
    FilterMember(s, p, x);
  }

  /** An entry is a top tie exactly when it is a bid equal to the largest one. */
  lemma {:induction false} TopTiesMembers(bids: seq<BidEntry>, b: BidEntry)
    requires |bids| > 0
    ensures b in TopTies(bids) <==> b in bids && b.bid == MaxBid(bids)
  {
    FilterMember(bids, AtBid(MaxBid(bids)), b);
  }

  lemma {:induction false} FilterMember<T>(s: seq<T>, p: T -> bool, x: T)
    ensures x in Filter(s, p) <==> x in s && p(x)
  {
    if s != [] {
      FilterMember(s[1..], p, x);
      assert s == [s[0]] + s[1..];
    }
  }

  /** The head of the descending sort is the largest bid. */
  lemma SortedHead(bids: seq<BidEntry>)
    requires |bids| > 0
    ensures SortDesc(bids, BidOf)[0].bid == MaxBid(bids)
  {
    var sorted := SortDesc(bids, BidOf);
    SortHeadIsMax(bids, BidOf);
    SortPerm(bids, BidOf);
    assert sorted[0] in multiset(bids);
    assert BidOf(sorted[0]) == sorted[0].bid;
    var b :| b in bids && b.bid == MaxBid(bids);
    assert BidOf(b) <= BidOf(sorted[0]);
  }

  /**
   * The tie list of the resolution is exactly the list of bids equal to the
   * largest bid, in submission order.
   */
  lemma SortedTies(bids: seq<BidEntry>)
    requires |bids| > 0
    ensures Filter(SortDesc(bids, BidOf), AtBid(SortDesc(bids, BidOf)[0].bid)) == TopTies(bids)
  {
    SortedHead(bids);
    var m := MaxBid(bids);
    assert KeyConstant(bids, BidOf, AtBid(m));
    SortStable(bids, BidOf, AtBid(m));
  }

  /**
   * The price has the rule's rank among the bids: fewer than `Rank` bids lie
   * strictly above it and at least `Rank` bids lie at or above it.
   */
  lemma SortedPriceRank(bids: seq<BidEntry>, n: nat)
    requires 1 <= n <= |bids|
    ensures |Filter(bids, Above(SortDesc(bids, BidOf)[n - 1].bid))| < n
    ensures |Filter(bids, AtLeast(SortDesc(bids, BidOf)[n - 1].bid))| >= n
  {
    var sorted := SortDesc(bids, BidOf);
    var p := sorted[n - 1].bid;
    SortSorted(bids, BidOf);
    forall j | n - 1 <= j < |sorted| ensures !Above(p)(sorted[j]) {
      assert BidOf(sorted[n - 1]) >= BidOf(sorted[j]) || j == n - 1;
    }
    FilterCountUpper(sorted, Above(p), n - 1);
    forall j | 0 <= j < n ensures AtLeast(p)(sorted[j]) {
      assert BidOf(sorted[j]) >= BidOf(sorted[n - 1]) || j == n - 1;
    }
    FilterCountLower(sorted, AtLeast(p), n);
    FilterSortCount(bids, BidOf, Above(p));
    FilterSortCount(bids, BidOf, AtLeast(p));
  }

  /**
   * What the resolution promises: it fails exactly for an unknown rule (or
   * all-pay outside the plan variant) and for too few bids; otherwise the
   * winner is drawn from the bids equal to the largest one, first price and
   * all-pay charge the largest bid, and the price has the rule's rank.
   */
  lemma ResolveSpec(variant: Variant, order: PriceOrder, bids: seq<BidEntry>, pick: nat)
    ensures Resolve(variant, order, bids, pick).Ok? <==> Allowed(variant, order) && |bids| >= Rank(order)
    ensures !Allowed(variant, order) ==> Resolve(variant, order, bids, pick) == Err(RuleNotAllowed)
    ensures Allowed(variant, order) && |bids| < Rank(order) ==> Resolve(variant, order, bids, pick) == Err(UnboundWinner)
    ensures Resolve(variant, order, bids, pick).Ok? ==>
      var sale := Resolve(variant, order, bids, pick).value;
      && sale.winner == Choice(TopTies(bids), pick).agent
      && (order.First? || order.AllPay? ==> sale.price == MaxBid(bids))
      && |Filter(bids, Above(sale.price))| < Rank(order)
      && |Filter(bids, AtLeast(sale.price))| >= Rank(order)
  {
    if Allowed(variant, order) && |bids| >= Rank(order) {
      SortedTies(bids);
      SortedHead(bids);
      SortedPriceRank(bids, Rank(order));
    }
  }

  /** The winner's bid is the largest bid: the winner is never outbid. */
  lemma WinnerBidIsMax(variant: Variant, order: PriceOrder, bids: seq<BidEntry>, pick: nat)
    requires Resolve(variant, order, bids, pick).Ok?
    ensures exists b :: b in bids && b.agent == Resolve(variant, order, bids, pick).value.winner && b.bid == MaxBid(bids)
  {
    ResolveSpec(variant, order, bids, pick);
    var w := Choice(TopTies(bids), pick);
    TopTiesMembers(bids, w);
  }

  /** Every bid equal to the largest one wins for some draw of `random.choice`. */
  lemma EveryTopBidCanWin(variant: Variant, order: PriceOrder, bids: seq<BidEntry>, b: BidEntry)
    requires Allowed(variant, order) && |bids| >= Rank(order)
    requires b in bids && b.bid == MaxBid(bids)
    ensures exists pick: nat :: Resolve(variant, order, bids, pick) == Ok(Sale(b.agent, Resolve(variant, order, bids, 0).value.price))
  {
    var k := TieIndex(bids, b);
    DrawOfTie(variant, order, bids, k);
  }

  /** A bid equal to the largest one has a place among the top ties. */
  lemma TieIndex(bids: seq<BidEntry>, b: BidEntry) returns (k: nat)
    requires b in bids && b.bid == MaxBid(bids)
    ensures k < |TopTies(bids)| && TopTies(bids)[k] == b
  {
    TopTiesMembers(bids, b);
    var ties := TopTies(bids);
    k :| 0 <= k < |ties| && ties[k] == b;
  }

  /** Drawing the `k`-th of the top ties sells to it at the price of draw 0. */
  lemma DrawOfTie(variant: Variant, order: PriceOrder, bids: seq<BidEntry>, k: nat)
    requires Allowed(variant, order) && |bids| >= Rank(order) && k < |TopTies(bids)|
    ensures Resolve(variant, order, bids, k) == Ok(Sale(TopTies(bids)[k].agent, Resolve(variant, order, bids, 0).value.price))
  {
    ChoiceCovers(TopTies(bids), k);
    ResolveByRank(variant, order, bids, 0);
    ResolveByRank(variant, order, bids, k);
  }

  /** A successful resolution sells to the drawn top bid at the rank's sorted bid. */
  lemma ResolveByRank(variant: Variant, order: PriceOrder, bids: seq<BidEntry>, pick: nat)
    requires Allowed(variant, order) && |bids| >= Rank(order)
    ensures Resolve(variant, order, bids, pick)
      == Ok(Sale(Choice(TopTies(bids), pick).agent, SortDesc(bids, BidOf)[Rank(order) - 1].bid))
  {
    SortedTies(bids);
  }

  /** With the bid as key, the float copies resolve as they are written. */
  lemma FloatCopiesAsWritten(variant: Variant, order: PriceOrder, bids: seq<BidEntry>, pick: nat)
    requires variant != IntBids
    ensures ResolveAsWritten(variant, order, bids, pick) == Resolve(variant, order, bids, pick)
  {
    assert SortKeyAsWritten(variant) == BidOf;
  }

  /**
   * As written, util.py sorts by `int(bid)`: with bids 10.2 and 10.7 both keys
   * are 10, the stable sort keeps 10.2 first, and only 10.2 equals the head, so
   * the lower bid wins.
   */
  lemma TruncatedKeyPicksLowerBid()
    ensures ResolveAsWritten(IntBids, First, [BidEntry("Bidder Andy", 10.2), BidEntry("Bidder Betty", 10.7)], 0)
      == Ok(Sale("Bidder Andy", 10.2))
    ensures Resolve(IntBids, First, [BidEntry("Bidder Andy", 10.2), BidEntry("Bidder Betty", 10.7)], 0)
      == Ok(Sale("Bidder Betty", 10.7))
  {
    var bids := [BidEntry("Bidder Andy", 10.2), BidEntry("Bidder Betty", 10.7)];
    assert Trunc(10.2) == 10 && Trunc(10.7) == 10;
    assert SortDesc(bids[1..], TruncatedBidOf) == [bids[1]];
    assert SortDesc(bids, TruncatedBidOf) == [bids[0], bids[1]];
    assert Filter([bids[0], bids[1]], AtBid(10.2)) == [bids[0]];
    assert SortDesc(bids[1..], BidOf) == [bids[1]];
    assert SortDesc(bids, BidOf) == [bids[1], bids[0]];
    assert Filter([bids[1], bids[0]], AtBid(10.7)) == [bids[1]];
  }

  // ---------------------------------------------------------------- payout

  /** `for bid in self.bid_list: if bid["agent"] == agent.name: price = bid["bid"]` */
  function LastBidOf(bids: seq<BidEntry>, name: string, carry: real): real
  {
    if bids == [] then carry
    else LastBidOf(bids[1..], name, if bids[0].agent == name then bids[0].bid else carry)
  }

  /** A bidder with exactly one entry is charged that entry's bid, whatever was carried. */
  lemma {:induction false} LastBidOfUnique(bids: seq<BidEntry>, name: string, carry: real, i: nat)
    requires i < |bids| && bids[i].agent == name
    requires forall j :: 0 <= j < |bids| && j != i ==> bids[j].agent != name
    ensures LastBidOf(bids, name, carry) == bids[i].bid
  {
    if i == 0 {
      NoEntryKeepsCarry(bids[1..], name, bids[0].bid);
    } else {
      LastBidOfUnique(bids[1..], name, carry, i - 1);
    }
  }

  lemma {:induction false} NoEntryKeepsCarry(bids: seq<BidEntry>, name: string, carry: real)
    requires forall j :: 0 <= j < |bids| ==> bids[j].agent != name
    ensures LastBidOf(bids, name, carry) == carry
  {
    if bids != [] {
      NoEntryKeepsCarry(bids[1..], name, carry);
    }
  }

  /**
   * The all-pay charge of the `k`-th bidder: the variable `price` is carried
   * from one bidder to the next, starting at the resolution price.
   */
  function AllPayCharge(bids: seq<BidEntry>, names: seq<string>, start: real, k: nat): real
    requires k < |names|
  {
    LastBidOf(bids, names[k], if k == 0 then start else AllPayCharge(bids, names, start, k - 1))
  }

  /** The amount the `k`-th bidder is charged. */
  function Charge(order: PriceOrder, bids: seq<BidEntry>, names: seq<string>, price: real, k: nat): real
    requires k < |names|
  {
    if order.AllPay? then AllPayCharge(bids, names, price, k) else price
  }

  /** Every entry of `Entries` carries one of the given names. */
  lemma EntriesNamed(names: seq<string>, offers: seq<real>, a: string)
    requires |names| == |offers| && a in Agents(Entries(names, offers))
    ensures a in names
  {
    var b :| b in Entries(names, offers) && b.agent == a;
    var k :| 0 <= k < |names| && Entries(names, offers)[k] == b;
    assert names[k] == a;
  }

  /** One entry per bidder, in bidder order, as `SealBid.run` builds `bid_list`. */
  function Entries(names: seq<string>, offers: seq<real>): (r: seq<BidEntry>)
    requires |names| == |offers|
    ensures |r| == |names|
    ensures forall k :: 0 <= k < |r| ==> r[k] == BidEntry(names[k], offers[k])
  {
    seq(|names|, k requires 0 <= k < |names| => BidEntry(names[k], offers[k]))
  }

  /** Under all-pay, with one bid per distinctly named bidder, every bidder pays its own bid. */
  lemma AllPayChargesOwnBid(names: seq<string>, offers: seq<real>, price: real, k: nat)
    requires |names| == |offers| && Distinct(names) && k < |names|
    ensures AllPayCharge(Entries(names, offers), names, price, k) == offers[k]
  {
    var bids := Entries(names, offers);
    var carry := if k == 0 then price else AllPayCharge(bids, names, price, k - 1);
    DistinctAt(names, k);
    LastBidOfUnique(bids, names[k], carry, k);
  }

  /**
   * The profit entry appended for one bidder, or None when the source appends
   * none (a winner under an unrecognised value model). All-pay charges every
   * bidder and uses `current_value`; the other rules charge only the winner,
   * util.py truncates the price with `int(...)`, and only the plan variant
   * treats affiliated values like private ones.
   */
  function Payout(variant: Variant, order: PriceOrder, model: ValueModel, isWinner: bool,
                  value: int, common: int, charge: real): (r: Option<real>)
    ensures order.AllPay? ==> r == Some(if isWinner then value as real - charge else -charge)
    ensures !order.AllPay? && !isWinner ==> r == Some(0.0)
    ensures !order.AllPay? && isWinner && model.Private? && variant != IntBids ==> r == Some(value as real - charge)
    ensures !order.AllPay? && isWinner && model.Common? && variant != IntBids ==> r == Some(common as real - charge)
    ensures !order.AllPay? && isWinner && model.Private? && variant == IntBids ==> r == Some(value as real - Trunc(charge) as real)
    ensures !order.AllPay? && isWinner && model.Common? && variant == IntBids ==> r == Some(common as real - Trunc(charge) as real)
    ensures !order.AllPay? && isWinner && model.Affiliated? && variant == Plan ==> r == Some(value as real - charge)
    ensures r.None? <==> !order.AllPay? && isWinner && !(model.Private? || model.Common? || (model.Affiliated? && variant == Plan))
  {
    if order.AllPay? then Some(if isWinner then value as real - charge else -charge)
    else if !isWinner then Some(0.0)
    else
      var paid := if variant == IntBids then Trunc(charge) as real else charge;
      if model.Private? || (model.Affiliated? && variant == Plan) then Some(value as real - paid)
      else if model.Common? then Some(common as real - paid)
      else None
  }

  /**
   * The profit entries (none or one) the `k`-th of the named bidders receives
   * from a sale of `bids`, given its current private and common values.
   */
  function SaleProfit(variant: Variant, order: PriceOrder, model: ValueModel, bids: seq<BidEntry>,
                      names: seq<string>, sale: Sale, k: nat, value: int, common: int): seq<real>
    requires k < |names|
  {
    OptionToSeq(Payout(variant, order, model, names[k] == sale.winner, value, common, Charge(order, bids, names, sale.price, k)))
  }

  function OptionToSeq<T>(o: Option<T>): seq<T>
  {
    if o.Some? then [o.value] else []
  }

  /** With distinctly named bidders, exactly one of them gets a True win flag. */
  lemma ExactlyOneWinner(names: seq<string>, winner: string)
    requires Distinct(names) && winner in names
    ensures exists k :: 0 <= k < |names| && names[k] == winner
    ensures forall i, j :: 0 <= i < |names| && 0 <= j < |names| && names[i] == winner && names[j] == winner ==> i == j
  {
    var k :| 0 <= k < |names| && names[k] == winner;
    forall i, j | 0 <= i < |names| && 0 <= j < |names| && names[i] == winner && names[j] == winner
      ensures i == j
    {
      DistinctAt(names, j);
    }
  }

  /** The sum of a list of profits. */
  function Sum(s: seq<real>): real
  {
    if s == [] then 0.0 else s[0] + Sum(s[1..])
  }

  /**
   * Under a non-all-pay rule with private values, the profits of all bidders
   * add up to the winner's value minus the price.
   */
  lemma {:induction false} PrivateProfitsSum(variant: Variant, order: PriceOrder, values: seq<int>,
                                             names: seq<string>, sale: Sale, w: nat)
    requires !order.AllPay? && variant != IntBids
    requires |values| == |names| && w < |names| && names[w] == sale.winner
    requires forall k :: 0 <= k < |names| && k != w ==> names[k] != sale.winner
    ensures Sum(seq(|names|, k requires 0 <= k < |names| =>
                  Payout(variant, order, Private, names[k] == sale.winner, values[k], 0, sale.price).value))
            == values[w] as real - sale.price
  {
    var ps := seq(|names|, k requires 0 <= k < |names| =>
                  Payout(variant, order, Private, names[k] == sale.winner, values[k], 0, sale.price).value);
    SumSingle(ps, w);
  }

  /** A list that is zero everywhere except at `w` sums to its entry at `w`. */
  lemma {:induction false} SumSingle(s: seq<real>, w: nat)
    requires w < |s|
    requires forall k :: 0 <= k < |s| && k != w ==> s[k] == 0.0
    ensures Sum(s) == s[w]
  {
    if w == 0 {
      SumZero(s[1..]);
    } else {
      SumSingle(s[1..], w - 1);
    }
  }

  lemma {:induction false} SumZero(s: seq<real>)
    requires forall k :: 0 <= k < |s| ==> s[k] == 0.0
    ensures Sum(s) == 0.0
  {
    if s != [] {
      SumZero(s[1..]);
    }
  }

  // ---------------------------------------------------------------- the auction object

  /** `SealBid`: one sealed-bid round over a fixed list of bidders. */
  class SealBid {
    const variant: Variant
    const order: PriceOrder
    const model: ValueModel
    const agents: seq<Bidder>
    var bidList: seq<BidEntry>
    var winner: Option<Sale>

    ghost predicate Valid()
      reads this
    {
      Distinct(agents)
    }

    constructor (agents: seq<Bidder>, variant: Variant, order: PriceOrder, model: ValueModel)
      requires Distinct(agents)
      ensures Valid()
      ensures this.agents == agents && this.variant == variant && this.order == order && this.model == model
      ensures bidList == [] && winner == None
    {
      this.agents := agents;
      this.variant := variant;
      this.order := order;
      this.model := model;
      bidList := [];
      winner := None;
    }

    /**
     * `run`: every bidder, in order, submits its bid (supplied here as
     * `offers`), which is logged in `bid_list` and in the bidder's
     * `submitted_bids`; then the round is resolved.
     */
    method Run(offers: seq<real>, pick: nat) returns (r: Result<Sale>)
      requires Valid() && |offers| == |agents|
      modifies this, agents
      ensures bidList == old(bidList) + Entries(Names(agents), offers)
      ensures forall k :: 0 <= k < |agents| ==> agents[k].submittedBids == old(agents[k].submittedBids) + [offers[k]]
      ensures r == ResolveAsWritten(variant, order, bidList, pick)
      ensures forall k :: 0 <= k < |agents| ==>
        agents[k].currentValue == old(agents[k].currentValue) && agents[k].currentCommon == old(agents[k].currentCommon)
        && agents[k].exitPrice == old(agents[k].exitPrice)
      ensures r.Err? ==> winner == old(winner)
      ensures r.Err? ==> forall k :: 0 <= k < |agents| ==>
        agents[k].profit == old(agents[k].profit) && agents[k].winning == old(agents[k].winning)
      ensures r.Ok? ==> winner == Some(r.value)
      ensures r.Ok? ==> forall k :: 0 <= k < |agents| ==>
        && agents[k].winning == old(agents[k].winning) + [agents[k].name == r.value.winner]
        && agents[k].profit == old(agents[k].profit) + SaleProfit(variant, order, model, bidList, Names(agents), r.value, k, agents[k].currentValue, agents[k].currentCommon)
    {
      var k := 0;
      while k < |agents|
        invariant 0 <= k <= |agents|
        invariant bidList == old(bidList) + Entries(Names(agents)[..k], offers[..k])
        invariant forall j :: 0 <= j < k ==> agents[j].submittedBids == old(agents[j].submittedBids) + [offers[j]]
        invariant forall j :: k <= j < |agents| ==> agents[j].submittedBids == old(agents[j].submittedBids)
        invariant forall j :: 0 <= j < |agents| ==>
          && agents[j].currentValue == old(agents[j].currentValue) && agents[j].currentCommon == old(agents[j].currentCommon)
          && agents[j].exitPrice == old(agents[j].exitPrice)
          && agents[j].profit == old(agents[j].profit) && agents[j].winning == old(agents[j].winning)
        invariant winner == old(winner)
      {
        assert Entries(Names(agents)[..k + 1], offers[..k + 1])
          == Entries(Names(agents)[..k], offers[..k]) + [BidEntry(agents[k].name, offers[k])];
        bidList := bidList + [BidEntry(agents[k].name, offers[k])];
        DistinctAt(agents, k);
        agents[k].submittedBids := agents[k].submittedBids + [offers[k]];
        k := k + 1;
      }
      assert Names(agents)[..k] == Names(agents) && offers[..k] == offers;
      r := DeclareWinnerAndPrice(pick);
    }

    /**
     * `declare_winner_and_price`: resolves `bid_list`, records the sale, and
     * appends one win flag and (except for a winner under an unrecognised
     * value model) one profit to every bidder. An error changes nothing.
     */
    method DeclareWinnerAndPrice(pick: nat) returns (r: Result<Sale>)
      requires Valid()
      modifies this, agents
      ensures r == ResolveAsWritten(variant, order, bidList, pick)
      ensures bidList == old(bidList)
      ensures forall k :: 0 <= k < |agents| ==>
        agents[k].currentValue == old(agents[k].currentValue) && agents[k].currentCommon == old(agents[k].currentCommon)
        && agents[k].submittedBids == old(agents[k].submittedBids) && agents[k].exitPrice == old(agents[k].exitPrice)
      ensures r.Err? ==> winner == old(winner)
      ensures r.Err? ==> forall k :: 0 <= k < |agents| ==>
        agents[k].profit == old(agents[k].profit) && agents[k].winning == old(agents[k].winning)
      ensures r.Ok? ==> winner == Some(r.value)
      ensures r.Ok? ==> forall k :: 0 <= k < |agents| ==>
        && agents[k].winning == old(agents[k].winning) + [agents[k].name == r.value.winner]
        && agents[k].profit == old(agents[k].profit) + SaleProfit(variant, order, model, bidList, Names(agents), r.value, k, agents[k].currentValue, agents[k].currentCommon)
    {
      r := ResolveAsWritten(variant, order, bidList, pick);
      if r.Err? {
        return;
      }
      winner := Some(r.value);
      PayOut(r.value);
    }

    /** The per-bidder loop of `declare_winner_and_price` that follows a sale. */
    method PayOut(sale: Sale)
      requires Valid()
      modifies agents
      ensures forall k :: 0 <= k < |agents| ==>
        agents[k].currentValue == old(agents[k].currentValue) && agents[k].currentCommon == old(agents[k].currentCommon)
        && agents[k].submittedBids == old(agents[k].submittedBids) && agents[k].exitPrice == old(agents[k].exitPrice)
      ensures forall k :: 0 <= k < |agents| ==>
        && agents[k].winning == old(agents[k].winning) + [agents[k].name == sale.winner]
        && agents[k].profit == old(agents[k].profit) + SaleProfit(variant, order, model, bidList, Names(agents), sale, k, agents[k].currentValue, agents[k].currentCommon)
    {
      ghost var names := Names(agents);
      var price := sale.price;
      var k := 0;
      while k < |agents|
        invariant 0 <= k <= |agents|
        invariant order.AllPay? && k > 0 ==> price == AllPayCharge(bidList, names, sale.price, k - 1)
        invariant !order.AllPay? || k == 0 ==> price == sale.price
        invariant forall j :: 0 <= j < |agents| ==>
          && agents[j].currentValue == old(agents[j].currentValue) && agents[j].currentCommon == old(agents[j].currentCommon)
          && agents[j].submittedBids == old(agents[j].submittedBids) && agents[j].exitPrice == old(agents[j].exitPrice)
        invariant forall j :: 0 <= j < k ==>
          agents[j].winning == old(agents[j].winning) + [agents[j].name == sale.winner]
          && agents[j].profit == old(agents[j].profit) + SaleProfit(variant, order, model, bidList, names, sale, j, agents[j].currentValue, agents[j].currentCommon)
        invariant forall j :: k <= j < |agents| ==>
          agents[j].winning == old(agents[j].winning) && agents[j].profit == old(agents[j].profit)
      {
        var agent := agents[k];
        DistinctAt(agents, k);
        assert names[k] == agent.name;
        if order.AllPay? {
          price := LastBidOf(bidList, agent.name, price);
        }
        assert price == Charge(order, bidList, names, sale.price, k);
        PayBidder(agent, sale, price);
        k := k + 1;
      }
    }

    /** One pass of that loop: the bidder's win flag and its profit entry, if any, at the given charge. */
    method PayBidder(agent: Bidder, sale: Sale, charge: real)
      modifies agent`winning, agent`profit
      ensures agent.winning == old(agent.winning) + [agent.name == sale.winner]
      ensures agent.profit == old(agent.profit)
        + OptionToSeq(Payout(variant, order, model, agent.name == sale.winner, agent.currentValue, agent.currentCommon, charge))
    {
      var entry := Payout(variant, order, model, agent.name == sale.winner, agent.currentValue, agent.currentCommon, charge);
      agent.Record(agent.name == sale.winner, OptionToSeq(entry));
    }
  }
}
