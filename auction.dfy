/**
 * `Auction.run_repeated` of src/util.py: the driver that runs one sealed-bid
 * or clock auction per round over the same bidders, then moves every bidder
 * on to the next round's values.
 */
module Repeated {
  import opened Base
  import opened Bidders
  import opened TagParse
  import Sealed
  import ClockAuction

  /** `rule.seal_clock` */
  datatype Format = SealFormat | ClockFormat | UnknownFormat

  /** The decisions one round consumes: the sealed bids, or the clock's answers per tick; and the tie-break draw. */
  datatype RoundInput =
    | SealRound(offers: seq<real>, pick: nat)
    | ClockRound(ticks: seq<seq<Decision>>, pick: nat)

  class Auction {
    const agents: seq<Bidder>
    /** `rule.round` */
    const rounds: nat
    const format: Format
    const order: PriceOrder
    const model: ValueModel
    const direction: Direction
    const information: Information
    const increment: int
    /** `rule.common_range[0]`, the clock's opening price */
    const startPrice: int
    var roundNumber: nat
    var winnerList: seq<string>

    /**
     * Between rounds: every bidder holds one profit and one win flag per
     * round played, and one value per round to come.
     */
    ghost predicate Valid()
      reads this, agents
    {
      Distinct(agents) && roundNumber <= rounds && |winnerList| == roundNumber
      && forall k :: 0 <= k < |agents| ==>
        |agents[k].profit| == roundNumber && |agents[k].winning| == roundNumber
        && rounds <= |agents[k].values| && rounds <= |agents[k].commonValues|
    }

    /** The bidders as `build_bidders` leaves them: nothing recorded yet, a value for every round. */
    constructor (agents: seq<Bidder>, rounds: nat, format: Format, order: PriceOrder, model: ValueModel,
                 direction: Direction, information: Information, increment: int, startPrice: int)
      requires Distinct(agents)
      requires forall k :: 0 <= k < |agents| ==>
        agents[k].profit == [] && agents[k].winning == []
        && rounds <= |agents[k].values| && rounds <= |agents[k].commonValues|
      ensures Valid() && roundNumber == 0 && winnerList == []
      ensures this.agents == agents && this.rounds == rounds && this.format == format
    {
      this.agents := agents;
      this.rounds := rounds;
      this.format := format;
      this.order := order;
      this.model := model;
      this.direction := direction;
      this.information := information;
      this.increment := increment;
      this.startPrice := startPrice;
      roundNumber := 0;
      winnerList := [];
    }

    /**
     * `run`: one auction of the configured format over the bidders, the
     * winner's name appended to `winner_list`, then `agent.profit[round_number]`
     * read for every bidder, an IndexError when a bidder received none.
     */
    method Run(input: RoundInput) returns (r: Result<string>, ghost price: int)
      requires Valid() && roundNumber < rounds
      modifies agents, this`winnerList
      ensures format.UnknownFormat? ==> r == Err(RuleNotAllowed)
      ensures format.ClockFormat? && direction.UnknownDirection? ==> r == Err(MissingAttribute)
      ensures r.Ok? ==> winnerList == old(winnerList) + [r.value]
      ensures r.Ok? ==> forall k :: 0 <= k < |agents| ==>
        |agents[k].profit| == roundNumber + 1 && |agents[k].winning| == roundNumber + 1
        && agents[k].currentValue == old(agents[k].currentValue) && agents[k].currentCommon == old(agents[k].currentCommon)
      ensures r.Ok? ==> r.value in Names(agents) && forall k :: 0 <= k < |agents| ==>
        agents[k].winning == old(agents[k].winning) + [agents[k].name == r.value]
      ensures format.SealFormat? && (!input.SealRound? || |input.offers| != |agents|) ==> r == Err(OutOfDecisions)
      ensures format.SealFormat? && input.SealRound? && |input.offers| == |agents| ==>
        var sold := Sealed.ResolveAsWritten(IntBids, order, Sealed.Entries(Names(agents), input.offers), input.pick);
        && (sold.Err? ==> r == Err(sold.error))
        && (r.Ok? ==> sold.Ok? && r.value == sold.value.winner)
      ensures r.Ok? && format.ClockFormat? ==> forall k :: 0 <= k < |agents| ==>
        && agents[k].profit == old(agents[k].profit)
           + [ClockAuction.ClockProfit(agents[k].name == r.value, agents[k].currentValue, price)]
        && (agents[k].name != r.value ==> |agents[k].exitPrice| == |old(agents[k].exitPrice)| + 1)
        && (agents[k].name == r.value ==>
              |old(agents[k].exitPrice)| + 1 <= |agents[k].exitPrice| <= |old(agents[k].exitPrice)| + 2)
    {
      if format.UnknownFormat? {
        return Err(RuleNotAllowed), 0;
      }
      var played;
      played, price := Play(input);
      if played.Err? {
        return played, price;
      }
      r := Record(played.value);
    }

    /** The tail of `run`: the winner appended to `winner_list`, then every `agent.profit[round_number]` read. */
    method Record(name: string) returns (r: Result<string>)
      modifies this`winnerList
      ensures winnerList == old(winnerList) + [name]
      ensures r == Err(IndexOutOfRange) || r == Ok(name)
      ensures r.Ok? <==> forall k :: 0 <= k < |agents| ==> |agents[k].profit| > roundNumber
    {
      winnerList := winnerList + [name];
      var all := EveryProfitAt(roundNumber);
      if !all {
        return Err(IndexOutOfRange);
      }
      return Ok(name);
    }

    /**
     * The auction of the configured format that `run` plays: the round's
     * decisions must match the format (and, sealed, one offer per bidder).
     */
    method Play(input: RoundInput) returns (r: Result<string>, ghost price: int)
      requires Valid() && !format.UnknownFormat?
      modifies agents
      ensures format.ClockFormat? && direction.UnknownDirection? ==> r == Err(MissingAttribute)
      ensures forall k :: 0 <= k < |agents| ==>
        agents[k].currentValue == old(agents[k].currentValue) && agents[k].currentCommon == old(agents[k].currentCommon)
      ensures r.Ok? ==> r.value in Names(agents) && forall k :: 0 <= k < |agents| ==>
        && agents[k].winning == old(agents[k].winning) + [agents[k].name == r.value]
        && |old(agents[k].profit)| <= |agents[k].profit| <= |old(agents[k].profit)| + 1
      ensures format.SealFormat? && (!input.SealRound? || |input.offers| != |agents|) ==> r == Err(OutOfDecisions)
      ensures format.SealFormat? && input.SealRound? && |input.offers| == |agents| ==>
        var sold := Sealed.ResolveAsWritten(IntBids, order, Sealed.Entries(Names(agents), input.offers), input.pick);
        && (sold.Err? ==> r == Err(sold.error))
        && (r.Ok? ==> sold.Ok? && r.value == sold.value.winner)
        && (sold.Ok? ==> forall k :: 0 <= k < |agents| ==>
          agents[k].profit == old(agents[k].profit)
             + Sealed.SaleProfit(IntBids, order, model, Sealed.Entries(Names(agents), input.offers),
                                 Names(agents), sold.value, k, agents[k].currentValue, agents[k].currentCommon))
      ensures r.Ok? && format.ClockFormat? ==> forall k :: 0 <= k < |agents| ==>
        && agents[k].profit == old(agents[k].profit)
           + [ClockAuction.ClockProfit(agents[k].name == r.value, agents[k].currentValue, price)]
        && (agents[k].name != r.value ==> |agents[k].exitPrice| == |old(agents[k].exitPrice)| + 1)
        && (agents[k].name == r.value ==>
              |old(agents[k].exitPrice)| + 1 <= |agents[k].exitPrice| <= |old(agents[k].exitPrice)| + 2)
    {
      price := 0;
      if format.SealFormat? {
        if !input.SealRound? || |input.offers| != |agents| {
          return Err(OutOfDecisions), 0;
        }
        r := PlaySeal(input.offers, input.pick);
      } else {
        if direction.UnknownDirection? {
          return Err(MissingAttribute), 0;
        }
        if !input.ClockRound? {
          return Err(OutOfDecisions), 0;
        }
        r, price := PlayClock(input.ticks, input.pick);
      }
    }

    /** Whether `agent.profit[i]` exists for every bidder. */
    method EveryProfitAt(i: nat) returns (b: bool)
      ensures b <==> forall k :: 0 <= k < |agents| ==> |agents[k].profit| > i
    {
      var k := 0;
      while k < |agents|
        invariant k <= |agents|
        invariant forall j :: 0 <= j < k ==> |agents[j].profit| > i
      {
        if |agents[k].profit| <= i {
          return false;
        }
        k := k + 1;
      }
      return true;
    }

    /**
     * A sealed-bid round of util.py's `SealBid`: every bidder submits its
     * offer, and the result is the winner of the resolution of those bids
     * (with `int(bid)` as sort key), or its error. Every bidder gets one
     * submitted bid and, after a sale, one win flag and its profit entry.
     */
    method PlaySeal(offers: seq<real>, pick: nat) returns (r: Result<string>)
      requires Distinct(agents) && |offers| == |agents|
      modifies agents
      ensures forall k :: 0 <= k < |agents| ==>
        agents[k].currentValue == old(agents[k].currentValue) && agents[k].currentCommon == old(agents[k].currentCommon)
        && agents[k].submittedBids == old(agents[k].submittedBids) + [offers[k]]
      ensures var bids := Sealed.Entries(Names(agents), offers);
        var sold := Sealed.ResolveAsWritten(IntBids, order, bids, pick);
        && (sold.Err? ==> r == Err(sold.error))
        && (sold.Ok? ==> r == Ok(sold.value.winner))
        && (sold.Ok? ==> forall k :: 0 <= k < |agents| ==>
          && agents[k].winning == old(agents[k].winning) + [agents[k].name == sold.value.winner]
          && agents[k].profit == old(agents[k].profit)
             + Sealed.SaleProfit(IntBids, order, model, bids, Names(agents), sold.value, k,
                                 agents[k].currentValue, agents[k].currentCommon))
      ensures r.Ok? ==> r.value in Names(agents)
      ensures r.Ok? ==> forall k :: 0 <= k < |agents| ==>
        |old(agents[k].profit)| <= |agents[k].profit| <= |old(agents[k].profit)| + 1
    {
      var auction := new Sealed.SealBid(agents, IntBids, order, model);
      assert auction.agents == agents && auction.variant == IntBids && auction.order == order && auction.model == model;
      assert auction.bidList == [];
      var sale := auction.Run(offers, pick);
      ghost var bids := Sealed.Entries(Names(agents), offers);
      assert auction.bidList == bids;
      assert sale == Sealed.ResolveAsWritten(IntBids, order, bids, pick);
      if sale.Err? {
        return Err(sale.error);
      }
      Sealed.EntriesNamed(Names(agents), offers, sale.value.winner);
      return Ok(sale.value.winner);
    }

    /**
     * A clock round: the winner is a bidder; every bidder gets one profit and
     * one win flag. A loser earns zero and gains the one exit price of its
     * leaving; a bidder holding the winner's name gains one or, when it left
     * in the final tick and was drawn from the exits, two.
     */
    method PlayClock(ticks: seq<seq<Decision>>, pick: nat) returns (r: Result<string>, ghost price: int)
      requires Distinct(agents) && !direction.UnknownDirection?
      modifies agents
      ensures forall k :: 0 <= k < |agents| ==>
        agents[k].currentValue == old(agents[k].currentValue) && agents[k].currentCommon == old(agents[k].currentCommon)
      ensures r.Ok? ==> r.value in Names(agents) && forall k :: 0 <= k < |agents| ==>
        && agents[k].winning == old(agents[k].winning) + [agents[k].name == r.value]
        && agents[k].profit == old(agents[k].profit)
           + [ClockAuction.ClockProfit(agents[k].name == r.value, agents[k].currentValue, price)]
        && (agents[k].name != r.value ==> |agents[k].exitPrice| == |old(agents[k].exitPrice)| + 1)
        && (agents[k].name == r.value ==>
              |old(agents[k].exitPrice)| + 1 <= |agents[k].exitPrice| <= |old(agents[k].exitPrice)| + 2)
    {
      var auction := new ClockAuction.Clock(agents, direction, information, increment, startPrice);
      var sale := auction.Run(ticks, pick);
      if sale.Err? {
        return Err(sale.error), 0;
      }
      return Ok(sale.value.winner), sale.value.price;
    }

    /** The part of `update_bidders` that changes state: every bidder moves on to the next round's values. */
    method UpdateBidders()
      requires Distinct(agents) && roundNumber < rounds
      requires forall k :: 0 <= k < |agents| ==> rounds <= |agents[k].values| && rounds <= |agents[k].commonValues|
      modifies agents
      ensures forall k :: 0 <= k < |agents| ==>
        agents[k].profit == old(agents[k].profit) && agents[k].winning == old(agents[k].winning)
        && agents[k].submittedBids == old(agents[k].submittedBids) && agents[k].exitPrice == old(agents[k].exitPrice)
      ensures roundNumber + 1 < rounds ==> forall k :: 0 <= k < |agents| ==>
        agents[k].currentValue == agents[k].values[roundNumber + 1]
        && agents[k].currentCommon == agents[k].commonValues[roundNumber + 1]
      ensures roundNumber + 1 >= rounds ==> forall k :: 0 <= k < |agents| ==>
        agents[k].currentValue == old(agents[k].currentValue) && agents[k].currentCommon == old(agents[k].currentCommon)
    {
      var k := 0;
      while k < |agents|
        invariant k <= |agents|
        invariant forall j :: 0 <= j < |agents| ==>
          agents[j].profit == old(agents[j].profit) && agents[j].winning == old(agents[j].winning)
          && agents[j].submittedBids == old(agents[j].submittedBids) && agents[j].exitPrice == old(agents[j].exitPrice)
        invariant roundNumber + 1 < rounds ==> forall j :: 0 <= j < k ==>
          agents[j].currentValue == agents[j].values[roundNumber + 1]
          && agents[j].currentCommon == agents[j].commonValues[roundNumber + 1]
        invariant forall j :: (roundNumber + 1 >= rounds || k <= j) && 0 <= j < |agents| ==>
          agents[j].currentValue == old(agents[j].currentValue) && agents[j].currentCommon == old(agents[j].currentCommon)
      {
        DistinctAt(agents, k);
        if roundNumber + 1 < rounds {
          agents[k].BuildBidder(roundNumber + 1);
        }
        k := k + 1;
      }
    }

    /**
     * `run_repeated`: rounds are played from `round_number` until `rule.round`,
     * round `i` consuming `inputs[i]`. On success every bidder holds exactly
     * one profit and one win flag per round, and `winner_list` one name per
     * round: entry `i` is a bidder, and exactly the bidders of that name hold
     * a win flag for round `i`.
     */
    method RunRepeated(inputs: seq<RoundInput>) returns (r: Result<()>)
      requires Valid()
      modifies this`roundNumber, this`winnerList, agents
      ensures r.Ok? ==> Valid() && roundNumber == rounds
      ensures r.Ok? ==> |winnerList| == rounds && forall k :: 0 <= k < |agents| ==>
        |agents[k].profit| == rounds && |agents[k].winning| == rounds
      ensures r.Ok? ==> winnerList[..old(roundNumber)] == old(winnerList)
      ensures r.Ok? ==> forall i :: old(roundNumber) <= i < rounds ==>
        winnerList[i] in Names(agents)
        && forall k :: 0 <= k < |agents| ==> agents[k].winning[i] == (agents[k].name == winnerList[i])
      ensures r.Err? ==> old(roundNumber) <= roundNumber < rounds
    {
      while roundNumber < rounds
        invariant Valid() && old(roundNumber) <= roundNumber
        invariant winnerList[..old(roundNumber)] == old(winnerList)
        invariant forall i :: old(roundNumber) <= i < roundNumber ==>
          winnerList[i] in Names(agents)
          && forall k :: 0 <= k < |agents| ==> agents[k].winning[i] == (agents[k].name == winnerList[i])
        decreases rounds - roundNumber
      {
        if roundNumber >= |inputs| {
          return Err(OutOfDecisions);
        }
        ghost var w;
        r, w := PlayRound(inputs[roundNumber]);
        if r.Err? {
          return;
        }
      }
      return Ok(());
    }

    /**
     * One pass of the `run_repeated` loop: `run`, then `update_bidders`, then
     * the next round number. On success the round's winner `w` is a bidder,
     * it is appended to `winner_list`, and each bidder's win flag for the
     * round says whether it is `w`.
     */
    method PlayRound(input: RoundInput) returns (r: Result<()>, ghost w: string)
      requires Valid() && roundNumber < rounds
      modifies this`roundNumber, this`winnerList, agents
      ensures r.Ok? ==> Valid() && roundNumber == old(roundNumber) + 1
      ensures r.Ok? ==> winnerList == old(winnerList) + [w] && w in Names(agents)
      ensures r.Ok? ==> forall k :: 0 <= k < |agents| ==> agents[k].winning == old(agents[k].winning) + [agents[k].name == w]
      ensures r.Err? ==> roundNumber == old(roundNumber)
    {
      var won, _ := Run(input);
      if won.Err? {
        return Err(won.error), "";
      }
      w := won.value;
      assert forall k :: 0 <= k < |agents| ==>
        agents[k].winning == old(agents[k].winning) + [agents[k].name == w]
        && |agents[k].profit| == roundNumber + 1 && |agents[k].winning| == roundNumber + 1;
      NextRound();
      return Ok(()), w;
    }

    /** The tail of `play_round`: `update_bidders`, then the round counter moves on. */
    method NextRound()
      requires Distinct(agents) && roundNumber < rounds && |winnerList| == roundNumber + 1
      requires forall k :: 0 <= k < |agents| ==>
        |agents[k].profit| == roundNumber + 1 && |agents[k].winning| == roundNumber + 1
        && rounds <= |agents[k].values| && rounds <= |agents[k].commonValues|
      modifies this`roundNumber, agents
      ensures Valid() && roundNumber == old(roundNumber) + 1
      ensures forall k :: 0 <= k < |agents| ==> agents[k].winning == old(agents[k].winning)
    {
      UpdateBidders();
      roundNumber := roundNumber + 1;
    }
  }
}
