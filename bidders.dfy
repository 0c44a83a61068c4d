/**
 * The bidder record every auction format writes into: its per-round values,
 * the value of the current round, and the lists the formats append to
 * (submitted bids, exit prices, profits, win flags).
 */
module Bidders {

  class Bidder {
    /** `f"Bidder {name}"` */
    const name: string
    /** `value`: the bidder's value for every round */
    const values: seq<int>
    /** `common_value`: the common value of every round */
    const commonValues: seq<int>
    var currentValue: int
    var currentCommon: int
    var submittedBids: seq<real>
    /** The source stores `str(price)`; the model keeps the integer price. */
    var exitPrice: seq<int>
    var profit: seq<real>
    var winning: seq<bool>

    /** Reading `value_list[0]` and `common_value_list[0]` requires both lists to be non-empty. */
    constructor (values: seq<int>, firstName: string, commonValues: seq<int>)
      requires |values| > 0 && |commonValues| > 0
      ensures name == "Bidder " + firstName
      ensures this.values == values && this.commonValues == commonValues
      ensures currentValue == values[0] && currentCommon == commonValues[0]
      ensures submittedBids == [] && exitPrice == [] && profit == [] && winning == []
    {
      name := "Bidder " + firstName;
      this.values := values;
      this.commonValues := commonValues;
      currentValue := values[0];
      currentCommon := commonValues[0];
      submittedBids := [];
      exitPrice := [];
      profit := [];
      winning := [];
    }

    /** `build_bidder(current_round)`: selects the values of one round. */
    method BuildBidder(round: nat)
      requires round < |values| && round < |commonValues|
      modifies this
      ensures currentValue == values[round] && currentCommon == commonValues[round]
      ensures submittedBids == old(submittedBids) && exitPrice == old(exitPrice)
      ensures profit == old(profit) && winning == old(winning)
    {
      currentValue := values[round];
      currentCommon := commonValues[round];
    }

    /** Appends one win flag and the given profit entries (none or one). */
    method Record(won: bool, entries: seq<real>)
      modifies this`winning, this`profit
      ensures winning == old(winning) + [won] && profit == old(profit) + entries
      ensures currentValue == old(currentValue) && currentCommon == old(currentCommon)
      ensures submittedBids == old(submittedBids) && exitPrice == old(exitPrice)
    {
      winning := winning + [won];
      profit := profit + entries;
    }
  }

  /** The bidders' names, in order. */
  function Names(agents: seq<Bidder>): (r: seq<string>)
    ensures |r| == |agents|
    ensures forall k :: 0 <= k < |agents| ==> r[k] == agents[k].name
  {
    seq(|agents|, k requires 0 <= k < |agents| => agents[k].name)
  }
}
