/**
 * The two-item sealed-bid auction of test/util_CA.py. Items A and B are sold
 * either one at a time (sequential), together in one sealed round
 * (simultaneous), or in a menu where a bid on the bundle AB competes with the
 * sum of the best single-item bids. Every format pays first price.
 */
module Combinatorial {
  import opened Base
  import opened Ranking

  datatype Item = ItemA | ItemB | ItemAB

  /** `rule.type` */
  datatype CAType = Simultaneous | Sequential | Menu | UnknownCAType

  /** An entry of `bid_list`: the agent's name and its bids by item. */
  datatype BidRecord = BidRecord(agent: string, bid: map<Item, real>)

  /**
   * One item's entry of `highest_amounts` (`None` stands for the initial
   * `float('-inf')`) and of `highest_bids`.
   */
  datatype Top = Top(amount: Option<real>, bidders: seq<string>)

  /** Winners and prices of A and B. */
  datatype Allocation = Allocation(winnerA: string, priceA: real, winnerB: string, priceB: real)

  /** An entry of `agent.winning`: `{"A": won_a, "B": won_b}`. */
  datatype Won = Won(a: bool, b: bool)

  /** The result of `determine_winner_sequ`: the price is the top record's whole bid map. */
  datatype SaleOfA = SaleOfA(winner: string, price: map<Item, real>)

  // ---------------------------------------------------------------------------
  // The scan over `bid_list` (lines 504-512 and 549-557 of test/util_CA.py)
  // ---------------------------------------------------------------------------

  /** One update: a larger amount restarts the list, an equal one joins it. */
  function Step(t: Top, agent: string, amount: real): Top
  {
    match t.amount
    case None => Top(Some(amount), [agent])
    case Some(h) =>
      if amount > h then Top(Some(amount), [agent])
      else if amount == h then Top(t.amount, t.bidders + [agent])
      else t
  }

  /** The item's entry after the first `k` records. */
  function TopOf(bids: seq<BidRecord>, item: Item, k: nat): (r: Top)
    requires k <= |bids|
    ensures r.amount.None? <==> r.bidders == []
  {
    if k == 0 then Top(None, [])
    else
      var t := TopOf(bids, item, k - 1);
      if item in bids[k - 1].bid then Step(t, bids[k - 1].agent, bids[k - 1].bid[item]) else t
  }

  /** Some record among the first `k` bids on the item. */
  predicate BidOnAmong(bids: seq<BidRecord>, item: Item, k: nat)
    requires k <= |bids|
  {
    exists j :: 0 <= j < k && item in bids[j].bid
  }

  /** The agents of the first `k` records that bid exactly `h` on the item, in order. */
  function TiedAt(bids: seq<BidRecord>, item: Item, h: real, k: nat): (r: seq<string>)
    requires k <= |bids|
  {
    if k == 0 then []
    else TiedAt(bids, item, h, k - 1)
         + (if item in bids[k - 1].bid && bids[k - 1].bid[item] == h then [bids[k - 1].agent] else [])
  }

  lemma {:induction false} TiedAtNone(bids: seq<BidRecord>, item: Item, h: real, k: nat)
    requires k <= |bids|
    requires forall j :: 0 <= j < k && item in bids[j].bid ==> bids[j].bid[item] < h
    ensures TiedAt(bids, item, h, k) == []
  {
    if k > 0 {
      TiedAtNone(bids, item, h, k - 1);
    }
  }

  /**
   * After the scan, an item's amount is the largest bid on it (none when
   * nobody bid on it), and its list holds exactly the agents that bid that
   * amount, in `bid_list` order.
   */
  lemma {:induction false} TopOfSpec(bids: seq<BidRecord>, item: Item, k: nat)
    requires k <= |bids|
    ensures TopOf(bids, item, k).amount.None? <==> !BidOnAmong(bids, item, k)
    ensures TopOf(bids, item, k).amount.Some? ==>
      var h := TopOf(bids, item, k).amount.value;
      (forall j :: 0 <= j < k && item in bids[j].bid ==> bids[j].bid[item] <= h)
      && (exists j :: 0 <= j < k && item in bids[j].bid && bids[j].bid[item] == h)
      && TopOf(bids, item, k).bidders == TiedAt(bids, item, h, k)
  {
    if k > 0 {
      TopOfSpec(bids, item, k - 1);
      var t := TopOf(bids, item, k - 1);
      var r := bids[k - 1];
      if item in r.bid {
        var a := r.bid[item];
        if t.amount.None? || a > t.amount.value {
          TiedAtNone(bids, item, a, k - 1);
        }
      } else if t.amount.None? {
        assert !BidOnAmong(bids, item, k) by {
          forall j | 0 <= j < k ensures item !in bids[j].bid {
            if j < k - 1 {
              assert !(0 <= j < k - 1 && item in bids[j].bid);
            }
          }
        }
      }
    }
  }

  // ---------------------------------------------------------------------------
  // Allocation and prices (lines 498-523 and 559-575 of test/util_CA.py)
  // ---------------------------------------------------------------------------

  /** The items `highest_amounts` is prepared for. */
  function Tracked(t: CAType): (r: set<Item>)
  {
    if t == Menu then {ItemA, ItemB, ItemAB} else {ItemA, ItemB}
  }

  /** Every item bid on has an entry in `highest_amounts` (otherwise a KeyError). */
  predicate AllTracked(bids: seq<BidRecord>, items: set<Item>)
  {
    forall k :: 0 <= k < |bids| ==> bids[k].bid.Keys <= items
  }

  /** `>` on amounts where `None` is minus infinity. */
  predicate Above(x: Option<real>, y: Option<real>)
  {
    x.Some? && (y.None? || x.value > y.value)
  }

  /** `+` on amounts where `None` is minus infinity. */
  function Plus(x: Option<real>, y: Option<real>): Option<real>
  {
    if x.Some? && y.Some? then Some(x.value + y.value) else None
  }

  /** The menu's condition: the top bundle bid beats the top single bids combined. */
  predicate BundleWins(bids: seq<BidRecord>)
  {
    Above(TopOf(bids, ItemAB, |bids|).amount,
          Plus(TopOf(bids, ItemA, |bids|).amount, TopOf(bids, ItemB, |bids|).amount))
  }

  /**
   * The allocation `determine_payment` computes, with `random.choice` among
   * the tied bidders of A, B and AB given by the draws `pickA`, `pickB`,
   * `pickAB`.
   */
  function Settle(t: CAType, bids: seq<BidRecord>, pickA: nat, pickB: nat, pickAB: nat): (r: Result<Allocation>)
    ensures t == UnknownCAType ==> r == Err(RuleNotAllowed)
    ensures t != UnknownCAType && !AllTracked(bids, Tracked(t)) ==> r == Err(MissingKey)
    ensures r.Err? ==> r.error == RuleNotAllowed || r.error == MissingKey || (t == Menu && r.error == EmptyChoice)
  {
    if t == UnknownCAType then Err(RuleNotAllowed)
    else if !AllTracked(bids, Tracked(t)) then Err(MissingKey)
    else Allocate(t, TopOf(bids, ItemA, |bids|), TopOf(bids, ItemB, |bids|), TopOf(bids, ItemAB, |bids|), pickA, pickB, pickAB)
  }

  /**
   * The allocation from the scanned entries of A, B and AB: `winners[item]`
   * (a KeyError when an item has no bidder) or, in the menu, the bundle test
   * and then `highest_bids[item][0]` (an IndexError when the list is empty).
   */
  function Allocate(t: CAType, ta: Top, tb: Top, tab: Top, pickA: nat, pickB: nat, pickAB: nat): (r: Result<Allocation>)
    requires ta.amount.None? <==> ta.bidders == []
    requires tb.amount.None? <==> tb.bidders == []
    requires tab.amount.None? <==> tab.bidders == []
    ensures t == Menu && Above(tab.amount, Plus(ta.amount, tb.amount)) ==>
      r.Ok? && r.value.winnerA == r.value.winnerB && r.value.winnerA in tab.bidders
      && r.value.priceA == r.value.priceB && r.value.priceA + r.value.priceB == tab.amount.value
    ensures !(t == Menu && Above(tab.amount, Plus(ta.amount, tb.amount))) ==>
      (r.Err? <==> ta.bidders == [] || tb.bidders == [])
      && (r.Err? ==> r.error == (if t == Menu then EmptyChoice else MissingKey))
      && (r.Ok? ==> r.value.winnerA in ta.bidders && r.value.priceA == ta.amount.value
                    && r.value.winnerB in tb.bidders && r.value.priceB == tb.amount.value)
  {
    if t == Menu && Above(tab.amount, Plus(ta.amount, tb.amount)) then
      var w := Choice(tab.bidders, pickAB);
      Ok(Allocation(w, tab.amount.value / 2.0, w, tab.amount.value / 2.0))
    else if ta.bidders == [] || tb.bidders == [] then
      Err(if t == Menu then EmptyChoice else MissingKey)
    else
      Ok(Allocation(Choice(ta.bidders, pickA), ta.amount.value, Choice(tb.bidders, pickB), tb.amount.value))
  }

  /** The largest bid on an item among all records, when some record bids on it. */
  ghost predicate IsTopBid(bids: seq<BidRecord>, item: Item, h: real)
  {
    (forall j :: 0 <= j < |bids| && item in bids[j].bid ==> bids[j].bid[item] <= h)
    && exists j :: 0 <= j < |bids| && item in bids[j].bid && bids[j].bid[item] == h
  }

  /** `w` bid the amount `h` on the item. */
  ghost predicate BidExactly(bids: seq<BidRecord>, item: Item, w: string, h: real)
  {
    exists j :: 0 <= j < |bids| && bids[j].agent == w && item in bids[j].bid && bids[j].bid[item] == h
  }

  lemma TiedAtBid(bids: seq<BidRecord>, item: Item, h: real, k: nat, w: string)
    requires k <= |bids| && w in TiedAt(bids, item, h, k)
    ensures exists j :: 0 <= j < k && bids[j].agent == w && item in bids[j].bid && bids[j].bid[item] == h
  {
    if k > 0 && w !in TiedAt(bids, item, h, k - 1) {
      assert bids[k - 1].agent == w;
    } else if k > 0 {
      TiedAtBid(bids, item, h, k - 1, w);
    }
  }

  /** Each item goes to a bidder who bid its price, and that price is the item's top bid. */
  lemma ItemFirstPrice(bids: seq<BidRecord>, item: Item, pick: nat)
    requires TopOf(bids, item, |bids|).bidders != []
    ensures var t := TopOf(bids, item, |bids|);
      IsTopBid(bids, item, t.amount.value) && BidExactly(bids, item, Choice(t.bidders, pick), t.amount.value)
  {
    var t := TopOf(bids, item, |bids|);
    TopOfSpec(bids, item, |bids|);
    TiedAtBid(bids, item, t.amount.value, |bids|, Choice(t.bidders, pick));
  }

  /**
   * Simultaneous and sequential: each item goes to one of its top bidders at
   * the top bid (first price); the call fails exactly when a record bids on an
   * untracked item or an item has no bids at all.
   */
  lemma SettleFirstPrice(t: CAType, bids: seq<BidRecord>, pickA: nat, pickB: nat, pickAB: nat)
    requires t == Simultaneous || t == Sequential
    ensures var r := Settle(t, bids, pickA, pickB, pickAB);
      (r.Err? <==> !AllTracked(bids, Tracked(t)) || !BidOnAmong(bids, ItemA, |bids|) || !BidOnAmong(bids, ItemB, |bids|))
      && (r.Err? ==> r.error == MissingKey)
      && (r.Ok? ==>
            IsTopBid(bids, ItemA, r.value.priceA) && BidExactly(bids, ItemA, r.value.winnerA, r.value.priceA)
            && IsTopBid(bids, ItemB, r.value.priceB) && BidExactly(bids, ItemB, r.value.winnerB, r.value.priceB))
  {
    TopOfSpec(bids, ItemA, |bids|);
    TopOfSpec(bids, ItemB, |bids|);
    if TopOf(bids, ItemA, |bids|).bidders != [] && TopOf(bids, ItemB, |bids|).bidders != [] {
      ItemFirstPrice(bids, ItemA, pickA);
      ItemFirstPrice(bids, ItemB, pickB);
    }
  }

  /**
   * Menu: when the top AB bid beats top A plus top B, one of the top AB
   * bidders gets both items at half its bundle bid each; otherwise each item
   * goes to one of its own top bidders at that bid.
   */
  lemma SettleMenu(bids: seq<BidRecord>, pickA: nat, pickB: nat, pickAB: nat)
    requires AllTracked(bids, Tracked(Menu))
    ensures var r := Settle(Menu, bids, pickA, pickB, pickAB);
      (BundleWins(bids) ==>
         (r.Ok? && r.value.winnerA == r.value.winnerB
          && IsTopBid(bids, ItemAB, 2.0 * r.value.priceA) && r.value.priceA == r.value.priceB
          && BidExactly(bids, ItemAB, r.value.winnerA, 2.0 * r.value.priceA)))
      && (!BundleWins(bids) ==>
           (r.Err? <==> !BidOnAmong(bids, ItemA, |bids|) || !BidOnAmong(bids, ItemB, |bids|))
           && (r.Err? ==> r.error == EmptyChoice)
           && (r.Ok? ==>
                 IsTopBid(bids, ItemA, r.value.priceA) && BidExactly(bids, ItemA, r.value.winnerA, r.value.priceA)
                 && IsTopBid(bids, ItemB, r.value.priceB) && BidExactly(bids, ItemB, r.value.winnerB, r.value.priceB)))
  {
    TopOfSpec(bids, ItemA, |bids|);
    TopOfSpec(bids, ItemB, |bids|);
    if BundleWins(bids) {
      ItemFirstPrice(bids, ItemAB, pickAB);
    } else if TopOf(bids, ItemA, |bids|).bidders != [] && TopOf(bids, ItemB, |bids|).bidders != [] {
      ItemFirstPrice(bids, ItemA, pickA);
      ItemFirstPrice(bids, ItemB, pickB);
    }
  }

  /** Any `CA_type` other than the three formats is refused. */
  lemma SettleUnknownType(bids: seq<BidRecord>, pickA: nat, pickB: nat, pickAB: nat)
    ensures Settle(UnknownCAType, bids, pickA, pickB, pickAB) == Err(RuleNotAllowed)
  {
  }

  /**
   * The profit table: both items pay twice the sum of the values (the
   * bundle is worth double), one item its value, less the prices paid.
   */
  function ItemsProfit(won: Won, valueA: real, valueB: real, priceA: real, priceB: real): (r: real)
    ensures won.a && won.b ==> r == 2.0 * (valueA + valueB) - priceA - priceB
    ensures won.a && !won.b ==> r == valueA - priceA
    ensures !won.a && won.b ==> r == valueB - priceB
    ensures !won.a && !won.b ==> r == 0.0
  {
    if won.a && won.b then 2.0 * valueA + 2.0 * valueB - priceA - priceB
    else if won.a then valueA - priceA
    else if won.b then valueB - priceB
    else 0.0
  }

  // ---------------------------------------------------------------------------
  // `determine_winner_sequ`: the first stage of the sequential format
  // ---------------------------------------------------------------------------

  function BidOnA(r: BidRecord): real
  {
    if ItemA in r.bid then r.bid[ItemA] else 0.0
  }

  /**
   * Sort the records by their A bid (a record without one raises KeyError),
   * keep those whose whole bid map equals the first one's, and draw the winner
   * among them; the price is the first record's bid map. With no records
   * `winner` is never bound.
   */
  function DetermineWinnerSequ(bids: seq<BidRecord>, pick: nat): (r: Result<SaleOfA>)
    ensures (exists j :: 0 <= j < |bids| && ItemA !in bids[j].bid) ==> r == Err(MissingKey)
    ensures bids == [] ==> r == Err(UnboundWinner)
    ensures r.Ok? ==> bids != [] && forall j :: 0 <= j < |bids| ==> ItemA in bids[j].bid
  {
    if exists j :: 0 <= j < |bids| && ItemA !in bids[j].bid then Err(MissingKey)
    else if bids == [] then Err(UnboundWinner)
    else
      var sorted := SortDesc(bids, BidOnA);
      var same := Filter(sorted, (b: BidRecord) => b.bid == sorted[0].bid);
      assert sorted[0] in same by { assert same == [sorted[0]] + Filter(sorted[1..], (b: BidRecord) => b.bid == sorted[0].bid); }
      Ok(SaleOfA(Choice(same, pick).agent, sorted[0].bid))
  }

  /**
   * The stage-A winner submitted a bid map equal to the price, whose A bid is
   * the largest A bid; it fails exactly when a record has no A bid or there
   * are no records.
   */
  lemma DetermineWinnerSequSpec(bids: seq<BidRecord>, pick: nat)
    ensures var r := DetermineWinnerSequ(bids, pick);
      (r.Err? <==> bids == [] || exists j :: 0 <= j < |bids| && ItemA !in bids[j].bid)
      && (r.Ok? ==>
            (ItemA in r.value.price
             && (exists j :: 0 <= j < |bids| && bids[j].agent == r.value.winner && bids[j].bid == r.value.price)
             && forall j :: 0 <= j < |bids| ==> bids[j].bid[ItemA] <= r.value.price[ItemA]))
  {
    if bids != [] && forall j :: 0 <= j < |bids| ==> ItemA in bids[j].bid {
      var sorted := SortDesc(bids, BidOnA);
      var p := (b: BidRecord) => b.bid == sorted[0].bid;
      SortPerm(bids, BidOnA);
      SortHeadIsMax(bids, BidOnA);
      assert sorted[0] in multiset(bids);
      var w := Choice(Filter(sorted, p), pick);
      assert w in sorted;
      assert w in multiset(bids);
      forall j | 0 <= j < |bids|
        ensures bids[j].bid[ItemA] <= sorted[0].bid[ItemA]
      {
        assert bids[j] in bids;
      }
    }
  }

  /** Every record whose bid map equals the price is the winner for some draw. */
  lemma EveryTopRecordCanWinA(bids: seq<BidRecord>, x: BidRecord)
    requires DetermineWinnerSequ(bids, 0).Ok?
    requires x in bids && x.bid == DetermineWinnerSequ(bids, 0).value.price
    ensures exists pick: nat :: DetermineWinnerSequ(bids, pick).Ok? && DetermineWinnerSequ(bids, pick).value.winner == x.agent
  {
    var sorted := SortDesc(bids, BidOnA);
    var p := (b: BidRecord) => b.bid == sorted[0].bid;
    var same := Filter(sorted, p);
    SortPerm(bids, BidOnA);
    assert x in multiset(sorted);
    FilterHas(sorted, p, x);
    var k :| 0 <= k < |same| && same[k] == x;
    ChoiceCovers(same, k);
    assert DetermineWinnerSequ(bids, k).value.winner == x.agent;
  }

  lemma {:induction false} FilterHas<T>(s: seq<T>, p: T -> bool, x: T)
    requires x in s && p(x)
    ensures x in Filter(s, p)
  {
    if s[0] != x {
      assert x in s[1..];
      FilterHas(s[1..], p, x);
    }
  }

  // ---------------------------------------------------------------------------
  // The merge in `seq_bid` (lines 366-380 of test/util_CA.py)
  // ---------------------------------------------------------------------------

  /** The agents of the first `k` records, each once, in order of first appearance. */
  function FirstAppearance(bids: seq<BidRecord>, k: nat): (r: seq<string>)
    requires k <= |bids|
  {
    if k == 0 then []
    else
      var f := FirstAppearance(bids, k - 1);
      if bids[k - 1].agent in f then f else f + [bids[k - 1].agent]
  }

  /** The agent's bid maps among the first `k` records, later ones overriding (`dict.update`). */
  function Combined(bids: seq<BidRecord>, agent: string, k: nat): (r: map<Item, real>)
    requires k <= |bids|
  {
    if k == 0 then map[]
    else
      var m := Combined(bids, agent, k - 1);
      if bids[k - 1].agent == agent then m + bids[k - 1].bid else m
  }

  /** `list(combined_bids.values())` */
  function MergedRecords(bids: seq<BidRecord>): (r: seq<BidRecord>)
  {
    var f := FirstAppearance(bids, |bids|);
    seq(|f|, i requires 0 <= i < |f| => BidRecord(f[i], Combined(bids, f[i], |bids|)))
  }

  /**
   * `combined_bids` is built one record at a time: a new agent gets an entry
   * holding its bid map, a known one updates its entry.
   */
  method MergeBids(bids: seq<BidRecord>) returns (merged: seq<BidRecord>)
    ensures merged == MergedRecords(bids)
  {
    var order: seq<string> := [];
    var combined: map<string, map<Item, real>> := map[];
    var k := 0;
    while k < |bids|
      invariant k <= |bids|
      invariant order == FirstAppearance(bids, k)
      invariant forall a :: a in combined <==> a in order
      invariant forall a :: a in combined ==> combined[a] == Combined(bids, a, k)
    {
      var item := bids[k];
      if item.agent in combined {
        combined := combined[item.agent := combined[item.agent] + item.bid];
      } else {
        CombinedAbsent(bids, item.agent, k);
        combined := combined[item.agent := item.bid];
        order := order + [item.agent];
      }
      k := k + 1;
    }
    merged := seq(|order|, i requires 0 <= i < |order| => BidRecord(order[i], combined[order[i]]));
  }

  /** An agent not yet seen has nothing combined. */
  lemma {:induction false} CombinedAbsent(bids: seq<BidRecord>, agent: string, k: nat)
    requires k <= |bids| && agent !in FirstAppearance(bids, k)
    ensures Combined(bids, agent, k) == map[]
  {
    if k > 0 {
      var f := FirstAppearance(bids, k - 1);
      assert agent !in f;
      CombinedAbsent(bids, agent, k - 1);
    }
  }

  /** The first-appearance list has no repetitions and names exactly the agents that bid. */
  lemma {:induction false} FirstAppearanceSpec(bids: seq<BidRecord>, k: nat)
    requires k <= |bids|
    ensures Distinct(FirstAppearance(bids, k))
    ensures forall a :: a in FirstAppearance(bids, k) <==> exists j :: 0 <= j < k && bids[j].agent == a
  {
    if k > 0 {
      var f := FirstAppearance(bids, k - 1);
      FirstAppearanceSpec(bids, k - 1);
      if bids[k - 1].agent !in f {
        DistinctSnoc(f, bids[k - 1].agent);
      }
    }
  }

  /** The stage-A records of `names` followed by their stage-B records. */
  function TwoStage(names: seq<string>, bidsA: seq<real>, bidsB: seq<real>): (r: seq<BidRecord>)
    requires |names| == |bidsA| == |bidsB|
    ensures |r| == 2 * |names|
  {
    seq(|names|, i requires 0 <= i < |names| => BidRecord(names[i], map[ItemA := bidsA[i]]))
    + seq(|names|, i requires 0 <= i < |names| => BidRecord(names[i], map[ItemB := bidsB[i]]))
  }

  lemma {:induction false} FirstAppearancePrefix(bids: seq<BidRecord>, names: seq<string>, k: nat)
    requires Distinct(names) && k <= |names| <= |bids|
    requires forall i :: 0 <= i < |names| ==> bids[i].agent == names[i]
    ensures FirstAppearance(bids, k) == names[..k]
  {
    if k > 0 {
      FirstAppearancePrefix(bids, names, k - 1);
      DistinctAt(names, k - 1);
      assert names[..k] == names[..k - 1] + [names[k - 1]];
    }
  }

  lemma {:induction false} FirstAppearanceRepeat(bids: seq<BidRecord>, names: seq<string>, k: nat)
    requires |names| <= k <= |bids|
    requires FirstAppearance(bids, |names|) == names
    requires forall j :: |names| <= j < |bids| ==> bids[j].agent in names
    ensures FirstAppearance(bids, k) == names
  {
    if k > |names| {
      FirstAppearanceRepeat(bids, names, k - 1);
    }
  }

  lemma {:induction false} CombinedTwoStage(names: seq<string>, bidsA: seq<real>, bidsB: seq<real>, i: nat, k: nat)
    requires |names| == |bidsA| == |bidsB| && Distinct(names) && i < |names| && k <= 2 * |names|
    ensures Combined(TwoStage(names, bidsA, bidsB), names[i], k)
      == if k <= i then map[]
         else if k <= |names| + i then map[ItemA := bidsA[i]]
         else map[ItemA := bidsA[i], ItemB := bidsB[i]]
  {
    var bids := TwoStage(names, bidsA, bidsB);
    var n := |names|;
    if k > 0 {
      CombinedTwoStage(names, bidsA, bidsB, i, k - 1);
      var j := k - 1;
      if j < n {
        assert bids[j].agent == names[j];
        if j != i {
          DistinctAt(names, i);
        }
      } else {
        assert bids[j].agent == names[j - n] && bids[j].bid == map[ItemB := bidsB[j - n]];
        if j - n != i {
          DistinctAt(names, i);
        } else {
          assert map[ItemA := bidsA[i]] + map[ItemB := bidsB[i]] == map[ItemA := bidsA[i], ItemB := bidsB[i]];
        }
      }
    }
  }

  /**
   * The sequential format's merge yields one record per agent, in the
   * agents' order, holding its A bid and its B bid.
   */
  lemma SequentialMerge(names: seq<string>, bidsA: seq<real>, bidsB: seq<real>)
    requires |names| == |bidsA| == |bidsB| && Distinct(names)
    ensures MergedRecords(TwoStage(names, bidsA, bidsB))
      == seq(|names|, i requires 0 <= i < |names| => BidRecord(names[i], map[ItemA := bidsA[i], ItemB := bidsB[i]]))
  {
    var bids := TwoStage(names, bidsA, bidsB);
    var n := |names|;
    FirstAppearancePrefix(bids, names, n);
    assert names[..n] == names;
    forall j | n <= j < |bids|
      ensures bids[j].agent in names
    {
      assert bids[j].agent == names[j - n];
    }
    FirstAppearanceRepeat(bids, names, |bids|);
    forall i | 0 <= i < n
      ensures Combined(bids, names[i], |bids|) == map[ItemA := bidsA[i], ItemB := bidsB[i]]
    {
      CombinedTwoStage(names, bidsA, bidsB, i, |bids|);
    }
  }

  // ---------------------------------------------------------------------------
  // The bidders and the auction's state
  // ---------------------------------------------------------------------------

  /** A bidder's values for A and B in one round (`{"A": ..., "B": ...}`). */
  datatype ItemValues = ItemValues(a: int, b: int)

  /** The `Bidder` of test/util_CA.py: values are per item; it appends bid maps, profits and win pairs. */
  class ItemBidder {
    /** `f"Bidder {name}"` */
    const name: string
    const values: seq<ItemValues>
    const commonValues: seq<int>
    var currentValue: ItemValues
    var currentCommon: int
    var submittedBids: seq<map<Item, real>>
    var profit: seq<real>
    var winning: seq<Won>

    /** Reading `value_list[0]` and `common_value_list[0]` requires both lists to be non-empty. */
    constructor (values: seq<ItemValues>, firstName: string, commonValues: seq<int>)
      requires |values| > 0 && |commonValues| > 0
      ensures name == "Bidder " + firstName
      ensures this.values == values && this.commonValues == commonValues
      ensures currentValue == values[0] && currentCommon == commonValues[0]
      ensures submittedBids == [] && profit == [] && winning == []
    {
      name := "Bidder " + firstName;
      this.values := values;
      this.commonValues := commonValues;
      currentValue := values[0];
      currentCommon := commonValues[0];
      submittedBids := [];
      profit := [];
      winning := [];
    }

    /** `build_bidder(current_round)`: selects the values of one round. */
    method BuildBidder(round: nat)
      requires round < |values| && round < |commonValues|
      modifies this
      ensures currentValue == values[round] && currentCommon == commonValues[round]
      ensures submittedBids == old(submittedBids) && profit == old(profit) && winning == old(winning)
    {
      currentValue := values[round];
      currentCommon := commonValues[round];
    }

    /** Appends one win pair and one profit. */
    method Record(won: Won, entry: real)
      modifies this
      ensures winning == old(winning) + [won] && profit == old(profit) + [entry]
      ensures currentValue == old(currentValue) && currentCommon == old(currentCommon)
      ensures submittedBids == old(submittedBids)
    {
      winning := winning + [won];
      profit := profit + [entry];
    }

    /** Appends one submitted bid map. */
    method Submit(bid: map<Item, real>)
      modifies this
      ensures submittedBids == old(submittedBids) + [bid]
      ensures currentValue == old(currentValue) && currentCommon == old(currentCommon)
      ensures winning == old(winning) && profit == old(profit)
    {
      submittedBids := submittedBids + [bid];
    }
  }

  /** What the allocation pays one bidder. */
  function ProfitOf(alloc: Allocation, name: string, v: ItemValues): real
  {
    ItemsProfit(Won(name == alloc.winnerA, name == alloc.winnerB), v.a as real, v.b as real, alloc.priceA, alloc.priceB)
  }

  /** The `SealBid` of test/util_CA.py: its bidders, its format, the bid list and the winner. */
  class ItemAuction {
    const agents: seq<ItemBidder>
    const caType: CAType
    var bidList: seq<BidRecord>
    /** `self.winner`; the menu stores only the two names there, the model also keeps the prices. */
    var winner: Option<Allocation>

    predicate Valid()
    {
      Distinct(agents)
    }

    constructor (agents: seq<ItemBidder>, caType: CAType)
      requires Distinct(agents)
      ensures Valid() && this.agents == agents && this.caType == caType
      ensures bidList == [] && winner == None
    {
      this.agents := agents;
      this.caType := caType;
      bidList := [];
      winner := None;
    }

    /**
     * The loop over `bid_list` that fills `highest_amounts` and
     * `highest_bids` for the tracked items; a bid on any other item is a
     * KeyError.
     */
    method ScanBids(tracked: set<Item>) returns (r: Result<map<Item, Top>>)
      ensures r.Ok? <==> AllTracked(bidList, tracked)
      ensures r.Err? ==> r.error == MissingKey
      ensures r.Ok? ==> r.value.Keys == tracked && forall i :: i in tracked ==> r.value[i] == TopOf(bidList, i, |bidList|)
    {
      var tops: map<Item, Top> := map i | i in tracked :: Top(None, []);
      var k := 0;
      while k < |bidList|
        invariant k <= |bidList|
        invariant forall j :: 0 <= j < k ==> bidList[j].bid.Keys <= tracked
        invariant tops.Keys == tracked
        invariant forall i :: i in tracked ==> tops[i] == TopOf(bidList, i, k)
      {
        var record := bidList[k];
        if !(record.bid.Keys <= tracked) {
          return Err(MissingKey);
        }
        tops := map i | i in tracked :: if i in record.bid then Step(tops[i], record.agent, record.bid[i]) else tops[i];
        k := k + 1;
      }
      return Ok(tops);
    }

    /**
     * `determine_payment`: settles the items, stores the winner and gives
     * every bidder one profit and one win pair; on an error nothing changes.
     */
    method DeterminePayment(pickA: nat, pickB: nat, pickAB: nat) returns (r: Result<Allocation>)
      requires Valid()
      modifies this`winner, agents
      ensures r == Settle(caType, bidList, pickA, pickB, pickAB)
      ensures r.Err? ==> winner == old(winner)
      ensures r.Ok? ==> winner == Some(r.value)
      ensures forall k :: 0 <= k < |agents| ==>
        agents[k].currentValue == old(agents[k].currentValue) && agents[k].currentCommon == old(agents[k].currentCommon)
        && agents[k].submittedBids == old(agents[k].submittedBids)
      ensures r.Err? ==> forall k :: 0 <= k < |agents| ==>
        agents[k].profit == old(agents[k].profit) && agents[k].winning == old(agents[k].winning)
      ensures r.Ok? ==> forall k :: 0 <= k < |agents| ==>
        agents[k].winning == old(agents[k].winning) + [Won(agents[k].name == r.value.winnerA, agents[k].name == r.value.winnerB)]
        && agents[k].profit == old(agents[k].profit) + [ProfitOf(r.value, agents[k].name, old(agents[k].currentValue))]
    {
      if caType == UnknownCAType {
        return Err(RuleNotAllowed);
      }
      var tops := ScanBids(Tracked(caType));
      if tops.Err? {
        return Err(MissingKey);
      }
      var ta := tops.value[ItemA];
      var tb := tops.value[ItemB];
      var tab := if caType == Menu then tops.value[ItemAB] else Top(None, []);
      r := Allocate(caType, ta, tb, tab, pickA, pickB, pickAB);
      if r.Ok? {
        winner := Some(r.value);
        PayOut(r.value);
      }
    }

    /** The profit loop: one profit and one win pair per bidder. */
    method PayOut(alloc: Allocation)
      requires Valid()
      modifies agents
      ensures forall k :: 0 <= k < |agents| ==>
        agents[k].currentValue == old(agents[k].currentValue) && agents[k].currentCommon == old(agents[k].currentCommon)
        && agents[k].submittedBids == old(agents[k].submittedBids)
      ensures forall k :: 0 <= k < |agents| ==>
        agents[k].winning == old(agents[k].winning) + [Won(agents[k].name == alloc.winnerA, agents[k].name == alloc.winnerB)]
        && agents[k].profit == old(agents[k].profit) + [ProfitOf(alloc, agents[k].name, old(agents[k].currentValue))]
    {
      var k := 0;
      while k < |agents|
        invariant 0 <= k <= |agents|
        invariant forall j :: 0 <= j < |agents| ==>
          agents[j].currentValue == old(agents[j].currentValue) && agents[j].currentCommon == old(agents[j].currentCommon)
          && agents[j].submittedBids == old(agents[j].submittedBids)
        invariant forall j :: 0 <= j < k ==>
          agents[j].winning == old(agents[j].winning) + [Won(agents[j].name == alloc.winnerA, agents[j].name == alloc.winnerB)]
          && agents[j].profit == old(agents[j].profit) + [ProfitOf(alloc, agents[j].name, old(agents[j].currentValue))]
        invariant forall j :: k <= j < |agents| ==>
          agents[j].winning == old(agents[j].winning) && agents[j].profit == old(agents[j].profit)
      {
        var agent := agents[k];
        DistinctAt(agents, k);
        agent.Record(Won(agent.name == alloc.winnerA, agent.name == alloc.winnerB), ProfitOf(alloc, agent.name, agent.currentValue));
        k := k + 1;
      }
    }

    /**
     * The end of `seq_bid`: the bid list becomes the merged records, and each
     * bidder, in order, appends its merged bid map; a bidder with no record
     * is a KeyError, after the bidders before it have appended theirs.
     */
    method CombineStages(bids: seq<BidRecord>) returns (r: Result<()>)
      requires Valid()
      modifies this`bidList, agents
      ensures bidList == MergedRecords(bids)
      ensures forall k :: 0 <= k < |agents| ==>
        agents[k].currentValue == old(agents[k].currentValue) && agents[k].currentCommon == old(agents[k].currentCommon)
        && agents[k].profit == old(agents[k].profit) && agents[k].winning == old(agents[k].winning)
      ensures r.Ok? <==> forall k :: 0 <= k < |agents| ==> agents[k].name in FirstAppearance(bids, |bids|)
      ensures r.Ok? ==> forall k :: 0 <= k < |agents| ==>
        agents[k].submittedBids == old(agents[k].submittedBids) + [Combined(bids, agents[k].name, |bids|)]
      ensures r.Err? ==> r.error == MissingKey && exists m :: (0 <= m < |agents| && agents[m].name !in FirstAppearance(bids, |bids|)
        && (forall j :: 0 <= j < m ==> agents[j].submittedBids == old(agents[j].submittedBids) + [Combined(bids, agents[j].name, |bids|)])
        && (forall j :: m <= j < |agents| ==> agents[j].submittedBids == old(agents[j].submittedBids)))
    {
      var merged := MergeBids(bids);
      bidList := merged;
      ghost var f := FirstAppearance(bids, |bids|);
      var k := 0;
      while k < |agents|
        invariant 0 <= k <= |agents|
        invariant bidList == merged
        invariant forall j :: 0 <= j < k ==> agents[j].name in f
        invariant forall j :: 0 <= j < |agents| ==>
          agents[j].currentValue == old(agents[j].currentValue) && agents[j].currentCommon == old(agents[j].currentCommon)
          && agents[j].profit == old(agents[j].profit) && agents[j].winning == old(agents[j].winning)
        invariant forall j :: 0 <= j < k ==>
          agents[j].submittedBids == old(agents[j].submittedBids) + [Combined(bids, agents[j].name, |bids|)]
        invariant forall j :: k <= j < |agents| ==> agents[j].submittedBids == old(agents[j].submittedBids)
      {
        var agent := agents[k];
        DistinctAt(agents, k);
        var found := MergedLookup(merged, agent.name);
        if found.None? {
          forall i | 0 <= i < |f|
            ensures f[i] != agent.name
          {
            assert merged[i].agent == f[i];
          }
          return Err(MissingKey);
        }
        agent.Submit(found.value);
        k := k + 1;
      }
      return Ok(());
    }
  }

  /** `combined_bids[name]["bid"]`, looked up in the merged records. */
  method MergedLookup(merged: seq<BidRecord>, name: string) returns (r: Option<map<Item, real>>)
    ensures r.None? <==> forall i :: 0 <= i < |merged| ==> merged[i].agent != name
    ensures r.Some? ==> exists i :: 0 <= i < |merged| && merged[i].agent == name && merged[i].bid == r.value
  {
    var i := 0;
    while i < |merged|
      invariant i <= |merged|
      invariant forall j :: 0 <= j < i ==> merged[j].agent != name
    {
      if merged[i].agent == name {
        return Some(merged[i].bid);
      }
      i := i + 1;
    }
    return None;
  }
}
