/**
 * The eBay-style auction of src/util_ebay.py: every period visits the agents in
 * a random order; each visited agent either raises its maximum ("proxy") bid or
 * holds; after every visit the price is recomputed from the two largest
 * maxima, the leader is recorded, and a snapshot of the state is appended to
 * the log. A soft close may add periods, up to twenty. At the end the item is
 * sold to the leader unless nobody leads or the price is below the reserve.
 *
 * The dictionary `current_max_bids` is keyed by agent name; the names come from
 * a fixed list of distinct first names, so the model indexes the maxima by the
 * agent's position, which is also the dictionary's insertion order.
 */
module EbayAuction {
  import opened Base
  import opened Ranking
  import opened TagParse

  /** Upper bound the soft close never extends `total_periods` beyond. */
  const MaxPeriods: nat := 20

  /** What the auction reads of a bidder: its name and its current value. */
  datatype Participant = Participant(name: string, value: real)

  /** `AuctionStatus`: the state after one agent's turn. */
  datatype AuctionStatus = AuctionStatus(
    periodId: nat,
    turnId: nat,
    currentPrice: real,
    reservePrice: real,
    agentSelected: string,
    action: Move,
    bid: real,
    value: real,
    maxBids: seq<real>,
    highestBidder: Option<string>)

  /** The decision `_finalize_auction` announces. */
  datatype Outcome = Sale(winner: string, price: real) | NoSale(price: real)

  function Max(a: int, b: int): int { if a >= b then a else b }

  function MinReal(a: real, b: real): real { if a <= b then a else b }

  function MaxReal(a: real, b: real): real { if a >= b then a else b }

  // ---------------------------------------------------------------------------
  // Ranking the maxima: `sorted(current_max_bids.items(), key=x[1], reverse=True)`
  // ---------------------------------------------------------------------------

  /** `range(n)` */
  function Positions(n: nat): (r: seq<nat>)
    ensures |r| == n
    ensures forall i :: 0 <= i < n ==> r[i] == i
  {
    seq(n, i => i)
  }

  /** The sort key: an agent position's maximum bid. */
  function BidOf(bids: seq<real>): nat -> real
  {
    k => if 0 <= k < |bids| then bids[k] else 0.0
  }

  /** The agent positions, by non-increasing maximum, ties in position order. */
  function Ranked(bids: seq<real>): (r: seq<nat>)
    ensures |r| == |bids|
  {
    SortDesc(Positions(|bids|), BidOf(bids))
  }

  /** `top_bidder`: the first entry of the ranking. */
  function Leader(bids: seq<real>): (r: nat)
    requires |bids| > 0
    ensures r < |bids|
  {
    RankedInRange(bids, 0);
    Ranked(bids)[0]
  }

  /** `second_bid`: the second entry's maximum, or 0 with a single agent. */
  function SecondBid(bids: seq<real>): (r: real)
    ensures |bids| <= 1 ==> r == 0.0
    ensures |bids| > 1 ==> exists k :: 0 <= k < |bids| && bids[k] == r
  {
    if |bids| > 1 then
      RankedInRange(bids, 1);
      BidOf(bids)(Ranked(bids)[1])
    else 0.0
  }

  /** The proxy price after an update (lines 268-277 of src/util_ebay.py). */
  function NewPrice(bids: seq<real>, current: real, start: real, increment: real): (r: real)
    requires |bids| > 0
    ensures SecondBid(bids) > 0.0 ==> r <= bids[Leader(bids)]
    ensures SecondBid(bids) <= 0.0 ==> start <= r
  {
    var top := bids[Leader(bids)];
    var second := SecondBid(bids);
    if second > 0.0 then MinReal(top, second + increment)
    else
      var p := MaxReal(current, start);
      if p < top then start else p
  }

  lemma PositionsCount(n: nat, x: nat)
    ensures multiset(Positions(n))[x] == if x < n then 1 else 0
  {
    if n > 0 {
      assert Positions(n) == Positions(n - 1) + [n - 1];
      PositionsCount(n - 1, x);
    }
  }

  /** Two positions holding the same element make it occur at least twice. */
  lemma CountTwo<T>(s: seq<T>, i: nat, j: nat)
    requires i < j < |s| && s[i] == s[j]
    ensures multiset(s)[s[i]] >= 2
  {
    assert s == s[..i] + [s[i]] + s[i + 1..j] + [s[j]] + s[j + 1..];
  }

  lemma RankedInRange(bids: seq<real>, i: nat)
    requires i < |bids|
    ensures Ranked(bids)[i] < |bids|
  {
    var r := Ranked(bids);
    SortPerm(Positions(|bids|), BidOf(bids));
    assert r[i] in multiset(r);
    PositionsCount(|bids|, r[i]);
  }

  /** Every agent position occurs in the ranking. */
  lemma RankedHas(bids: seq<real>, k: nat)
    requires k < |bids|
    ensures exists m :: 0 <= m < |bids| && Ranked(bids)[m] == k
  {
    SortPerm(Positions(|bids|), BidOf(bids));
    PositionsCount(|bids|, k);
    assert k in multiset(Ranked(bids));
  }

  /** The ranking lists every position once. */
  lemma RankedDistinct(bids: seq<real>, i: nat, j: nat)
    requires i < j < |bids|
    ensures Ranked(bids)[i] != Ranked(bids)[j]
  {
    var r := Ranked(bids);
    SortPerm(Positions(|bids|), BidOf(bids));
    if r[i] == r[j] {
      CountTwo(r, i, j);
      PositionsCount(|bids|, r[i]);
      assert false;
    }
  }

  /** `highest_bidder` holds a maximum at least as large as everybody's. */
  lemma LeaderIsMax(bids: seq<real>)
    requires |bids| > 0
    ensures forall k :: 0 <= k < |bids| ==> bids[k] <= bids[Leader(bids)]
  {
    SortSorted(Positions(|bids|), BidOf(bids));
    forall k | 0 <= k < |bids|
      ensures bids[k] <= bids[Leader(bids)]
    {
      RankedHas(bids, k);
      var m :| 0 <= m < |bids| && Ranked(bids)[m] == k;
      if m > 0 {
        assert BidOf(bids)(Ranked(bids)[0]) >= BidOf(bids)(Ranked(bids)[m]);
      }
    }
  }

  /** The first element a filter keeps is the first element that satisfies it. */
  lemma {:induction false} FilterHead<T>(s: seq<T>, p: T -> bool) returns (i: nat)
    requires exists x :: x in s && p(x)
    ensures i < |s| && Filter(s, p) != [] && Filter(s, p)[0] == s[i] && p(s[i])
    ensures forall j :: 0 <= j < i ==> !p(s[j])
  {
    if p(s[0]) {
      i := 0;
    } else {
      var x :| x in s && p(x);
      assert x in s[1..];
      var i' := FilterHead(s[1..], p);
      i := i' + 1;
    }
  }

  /** Among equal maxima, the agent listed first leads. */
  lemma LeaderIsFirst(bids: seq<real>)
    requires |bids| > 0
    ensures forall k :: 0 <= k < Leader(bids) ==> bids[k] < bids[Leader(bids)]
  {
    var key := BidOf(bids);
    var top := bids[Leader(bids)];
    var p := (x: nat) => key(x) == top;
    var s := Positions(|bids|);
    LeaderIsMax(bids);
    SortStable(s, key, p);
    var r := Ranked(bids);
    assert p(r[0]);
    assert Filter(r, p) == [r[0]] + Filter(r[1..], p);
    assert 0 < |s| && p(s[Leader(bids)]);
    var i := FilterHead(s, p);
    assert s[i] == r[0];
    forall k | 0 <= k < Leader(bids)
      ensures bids[k] < top
    {
      assert !p(s[k]);
    }
  }

  /**
   * `second_bid` with two or more agents is the largest maximum among the
   * agents other than the leader, and it belongs to one of them.
   */
  lemma SecondBidIsRunnerUp(bids: seq<real>)
    requires |bids| > 1
    ensures forall k :: 0 <= k < |bids| && k != Leader(bids) ==> bids[k] <= SecondBid(bids)
    ensures exists k :: 0 <= k < |bids| && k != Leader(bids) && bids[k] == SecondBid(bids)
    ensures SecondBid(bids) <= bids[Leader(bids)]
  {
    var r := Ranked(bids);
    SortSorted(Positions(|bids|), BidOf(bids));
    RankedInRange(bids, 1);
    RankedDistinct(bids, 0, 1);
    assert BidOf(bids)(r[0]) >= BidOf(bids)(r[1]);
    forall k | 0 <= k < |bids| && k != Leader(bids)
      ensures bids[k] <= SecondBid(bids)
    {
      RankedHas(bids, k);
      var m :| 0 <= m < |bids| && r[m] == k;
      if m > 1 {
        assert BidOf(bids)(r[1]) >= BidOf(bids)(r[m]);
      }
    }
    assert r[1] != Leader(bids) && bids[r[1]] == SecondBid(bids);
  }

  /**
   * With a positive runner-up the price is the runner-up's maximum plus the
   * increment, capped at the leader's maximum, so (for a non-negative
   * increment) it lies between the two.
   */
  lemma PriceBetweenTopTwo(bids: seq<real>, current: real, start: real, increment: real)
    requires |bids| > 1 && SecondBid(bids) > 0.0 && increment >= 0.0
    ensures var p := NewPrice(bids, current, start, increment);
      SecondBid(bids) <= p <= bids[Leader(bids)]
      && (p == bids[Leader(bids)] || p == SecondBid(bids) + increment)
  {
    SecondBidIsRunnerUp(bids);
  }

  /**
   * Without a positive runner-up the price is `max(current_price, start_price)`,
   * replaced by `start_price` when the leader's maximum exceeds it.
   */
  lemma PriceWithoutRunnerUp(bids: seq<real>, current: real, start: real, increment: real)
    requires |bids| > 0
    requires forall k :: 0 <= k < |bids| && k != Leader(bids) ==> bids[k] <= 0.0
    ensures var p := NewPrice(bids, current, start, increment);
      var q := MaxReal(current, start);
      p == (if q < bids[Leader(bids)] then start else q)
      && (p == current || p == start)
  {
    if |bids| > 1 {
      SecondBidIsRunnerUp(bids);
    }
  }

  /**
   * When nobody holds a positive maximum, the first agent is the leader, even
   * though it never bid.
   */
  lemma NoBidsFirstAgentLeads(bids: seq<real>)
    requires |bids| > 0
    requires forall k :: 0 <= k < |bids| ==> bids[k] == 0.0
    ensures Leader(bids) == 0
  {
    LeaderIsFirst(bids);
    assert bids[0] == 0.0;
  }

  // ---------------------------------------------------------------------------
  // Accepting a reply: the check inside the retry loop of `_get_agent_action`
  // ---------------------------------------------------------------------------

  /** A bid below the agent's current maximum is refused; holding always passes. */
  predicate Accepts(o: Offer, previous: real)
    ensures o.action == Hold ==> Accepts(o, previous)
    ensures o.action == Bid ==> (Accepts(o, previous) <==> previous <= o.amount)
  {
    !(o.action == Bid && o.amount < previous)
  }

  /**
   * An agent's answers are its successive replies as `parse_action_and_amount`
   * returns them: an offer, or the `ValueError` (`Err(BadFormat)`). This one
   * parsed and the parsed offer is accepted.
   */
  predicate AcceptedReply(p: Result<Offer>, previous: real)
  {
    p.Ok? && Accepts(p.value, previous)
  }

  /** The first parsed reply from position `i` on that is accepted. */
  function FirstAccepted(parsed: seq<Result<Offer>>, previous: real, i: nat): (r: Option<Offer>)
    requires i <= |parsed|
    decreases |parsed| - i
    ensures r.None? <==> forall j :: i <= j < |parsed| ==> !AcceptedReply(parsed[j], previous)
    ensures r.Some? ==> (Accepts(r.value, previous)
      && exists j :: i <= j < |parsed| && parsed[j] == Ok(r.value)
           && (forall m :: i <= m < j ==> !AcceptedReply(parsed[m], previous)))
  {
    if i == |parsed| then None
    else if AcceptedReply(parsed[i], previous) then Some(parsed[i].value)
    else FirstAccepted(parsed, previous, i + 1)
  }

  /**
   * What `_get_agent_action` returns for the successive answers of its
   * model: a first reply that does not parse aborts the run (the `bid is None`
   * test); after that, unparsable and refused replies are asked again, and
   * the first accepted one is returned. The source asks without bound; the
   * model reports running out of supplied answers.
   */
  function SelectOffer(parsed: seq<Result<Offer>>, previous: real): (r: Result<Offer>)
    ensures r.Ok? ==> Accepts(r.value, previous) && exists j :: 0 <= j < |parsed| && parsed[j] == r
    ensures r.Err? ==> (r.error == BidFailed <==> parsed != [] && parsed[0].Err?)
    ensures r.Err? ==> r.error == BidFailed || r.error == OutOfDecisions
    ensures r.Err? && r.error == OutOfDecisions ==> forall j :: 0 <= j < |parsed| ==> !AcceptedReply(parsed[j], previous)
  {
    if parsed != [] && parsed[0].Err? then Err(BidFailed)
    else
      match FirstAccepted(parsed, previous, 0)
      case None => Err(OutOfDecisions)
      case Some(o) => Ok(o)
  }

  /** A bid action overwrites the agent's maximum; a hold leaves all maxima alone. */
  function Apply(bids: seq<real>, k: nat, o: Offer): (r: seq<real>)
    requires k < |bids|
    ensures |r| == |bids|
  {
    if o.action == Bid then bids[k := o.amount] else bids
  }

  /** An accepted action never lowers anybody's maximum. */
  lemma AcceptedNeverLowers(bids: seq<real>, k: nat, o: Offer)
    requires k < |bids| && Accepts(o, bids[k])
    ensures forall j :: 0 <= j < |bids| ==> bids[j] <= Apply(bids, k, o)[j]
  {
  }

  // ---------------------------------------------------------------------------
  // Orderings and the audit log
  // ---------------------------------------------------------------------------

  /** `random.sample(range(n), n)`: some permutation of the positions. */
  predicate IsOrdering(o: seq<nat>, n: nat)
  {
    multiset(o) == multiset(Positions(n))
  }

  lemma OrderingInRange(o: seq<nat>, n: nat)
    requires IsOrdering(o, n)
    ensures |o| == n && forall i :: 0 <= i < |o| ==> o[i] < n
  {
    assert |multiset(o)| == |multiset(Positions(n))|;
    forall i | 0 <= i < |o|
      ensures o[i] < n
    {
      assert o[i] in multiset(o);
      PositionsCount(n, o[i]);
    }
  }

  /** A period's ordering visits every agent exactly once. */
  lemma OrderingVisitsOnce(o: seq<nat>, n: nat, k: nat)
    requires IsOrdering(o, n) && k < n
    ensures exists i :: 0 <= i < |o| && o[i] == k
    ensures forall i, j :: 0 <= i < |o| && 0 <= j < |o| && o[i] == k && o[j] == k ==> i == j
  {
    PositionsCount(n, k);
    assert k in multiset(o);
    forall i, j | 0 <= i < |o| && 0 <= j < |o| && o[i] == k && o[j] == k
      ensures i == j
    {
      if i < j {
        CountTwo(o, i, j);
      } else if j < i {
        CountTwo(o, j, i);
      }
    }
  }

  /** Some snapshot from position `from` on records a bid. */
  ghost predicate SomeBid(h: seq<AuctionStatus>, from: nat)
  {
    exists i :: from <= i < |h| && h[i].action == Bid
  }

  /** Log entries `base ..` are the turns of period `p` in the order `o`. */
  ghost predicate PeriodLogged(h: seq<AuctionStatus>, base: nat, p: nat, o: seq<nat>, agents: seq<Participant>)
  {
    base + |o| <= |h|
    && forall i :: base <= i < base + |o| ==>
         h[i].periodId == p && h[i].turnId == i - base
         && o[i - base] < |agents| && h[i].agentSelected == agents[o[i - base]].name
  }

  lemma PeriodLoggedKept(h: seq<AuctionStatus>, h': seq<AuctionStatus>, base: nat, p: nat, o: seq<nat>, agents: seq<Participant>)
    requires PeriodLogged(h, base, p, o, agents)
    requires |h| <= |h'| && h'[..|h|] == h
    ensures PeriodLogged(h', base, p, o, agents)
  {
    forall i | base <= i < base + |o|
      ensures h'[i] == h[i]
    {
      assert h'[..|h|][i] == h'[i];
    }
  }

  /**
   * With distinct agent names, the snapshots of one period name every agent
   * exactly once: one snapshot per visit, one visit per agent.
   */
  lemma PeriodNamesEachAgentOnce(h: seq<AuctionStatus>, base: nat, p: nat, o: seq<nat>, agents: seq<Participant>, k: nat)
    requires PeriodLogged(h, base, p, o, agents) && IsOrdering(o, |agents|)
    requires Distinct(NamesOf(agents))
    requires k < |agents|
    ensures exists i :: base <= i < base + |o| && h[i].agentSelected == agents[k].name
    ensures forall i, j :: (base <= i < base + |o| && base <= j < base + |o|
      && h[i].agentSelected == agents[k].name && h[j].agentSelected == agents[k].name) ==> i == j
  {
    OrderingVisitsOnce(o, |agents|, k);
    var i0 :| 0 <= i0 < |o| && o[i0] == k;
    assert h[base + i0].agentSelected == agents[k].name;
    DistinctAt(NamesOf(agents), k);
    forall i, j | base <= i < base + |o| && base <= j < base + |o|
      && h[i].agentSelected == agents[k].name && h[j].agentSelected == agents[k].name
      ensures i == j
    {
      assert NamesOf(agents)[o[i - base]] == NamesOf(agents)[k];
      assert NamesOf(agents)[o[j - base]] == NamesOf(agents)[k];
      assert o[i - base] == k && o[j - base] == k;
    }
  }

  function NamesOf(agents: seq<Participant>): (r: seq<string>)
    ensures |r| == |agents| && forall j :: 0 <= j < |agents| ==> r[j] == agents[j].name
  {
    seq(|agents|, j requires 0 <= j < |agents| => agents[j].name)
  }

  /**
   * `_finalize_auction`: no sale exactly when nobody leads or the price is
   * below the reserve; otherwise the leader buys at the current price.
   */
  function Decide(highest: Option<string>, price: real, reserve: real): (r: Outcome)
    ensures r.NoSale? <==> highest.None? || price < reserve
    ensures r.Sale? ==> r.winner == highest.value && r.price == price && price >= reserve
    ensures r.NoSale? ==> r.price == price
  {
    if highest.None? || price < reserve then NoSale(price) else Sale(highest.value, price)
  }

  /** The auction's standing after some visits: the maxima, the leader and the price. */
  datatype Standing = Standing(maxBids: seq<real>, leader: Option<string>, price: real)

  /** What a period's visits add: the standing reached, the snapshots, and whether someone bid. */
  datatype PeriodOutcome = PeriodOutcome(standing: Standing, log: seq<AuctionStatus>, bid: bool)

  /** What the periods so far add, with the period count the soft close has reached. */
  datatype RunOutcome = RunOutcome(standing: Standing, log: seq<AuctionStatus>, total: nat, bid: bool)

  class Ebay {
    const agents: seq<Participant>
    const startPrice: real
    const reservePrice: real
    /** `bid_increment` */
    const increment: real
    /** `rule.closing`: the soft close */
    const closing: bool
    var currentPrice: real
    var highestBidder: Option<string>
    /** `current_max_bids`, by agent position */
    var maxBids: seq<real>
    var timeHistory: seq<AuctionStatus>
    var totalPeriods: nat

    /**
     * One maximum per agent, distinct agent names, and whoever is recorded as
     * leading holds the ranking's top position.
     */
    ghost predicate Valid()
      reads this`maxBids, this`highestBidder
    {
      |maxBids| == |agents|
      && Distinct(NamesOf(agents))
      && (highestBidder.Some? ==> |agents| > 0 && highestBidder == Some(agents[Leader(maxBids)].name))
    }

    /** Agent names are distinct: they are taken from a fixed list of names. */
    constructor (agents: seq<Participant>, startPrice: real, reservePrice: real, increment: real,
                 closing: bool, totalPeriods: nat)
      requires Distinct(NamesOf(agents))
      ensures Valid()
      ensures this.agents == agents && this.startPrice == startPrice && this.reservePrice == reservePrice
      ensures this.increment == increment && this.closing == closing && this.totalPeriods == totalPeriods
      ensures currentPrice == startPrice && highestBidder == None && timeHistory == []
      ensures |maxBids| == |agents| && forall j :: 0 <= j < |agents| ==> maxBids[j] == 0.0
    {
      this.agents := agents;
      this.startPrice := startPrice;
      this.reservePrice := reservePrice;
      this.increment := increment;
      this.closing := closing;
      this.totalPeriods := totalPeriods;
      currentPrice := startPrice;
      highestBidder := None;
      maxBids := seq(|agents|, _ => 0.0);
      timeHistory := [];
    }

    /**
     * `_get_agent_action`'s retry loop over the agent's successive answers,
     * checked against the agent's current maximum.
     */
    method GetAgentAction(k: nat, answers: seq<Result<Offer>>) returns (r: Result<Offer>)
      requires Valid() && k < |agents|
      ensures r == SelectOffer(answers, maxBids[k])
    {
      var previous := maxBids[k];
      var bid: Option<real> := None;
      var i := 0;
      while i < |answers|
        invariant i <= |answers|
        invariant bid.Some? <==> i > 0
        invariant i > 0 ==> answers[0].Ok?
        invariant FirstAccepted(answers, previous, 0) == FirstAccepted(answers, previous, i)
      {
        var p := answers[i];
        if p.Ok? {
          bid := Some(p.value.amount);
          if Accepts(p.value, previous) {
            return Ok(p.value);
          }
        } else if bid.None? {
          return Err(BidFailed);
        }
        i := i + 1;
      }
      return Err(OutOfDecisions);
    }

    /**
     * `_process_actions` for the one-entry action dictionary of agent `k`:
     * apply the action, rank the maxima, and set leader and price.
     */
    method ProcessAction(k: nat, o: Offer)
      requires Valid() && k < |agents|
      modifies this`maxBids, this`highestBidder, this`currentPrice
      ensures Valid()
      ensures maxBids == Apply(old(maxBids), k, o)
      ensures highestBidder == Some(agents[Leader(maxBids)].name)
      ensures currentPrice == NewPrice(maxBids, old(currentPrice), startPrice, increment)
    {
      if o.action == Bid {
        maxBids := maxBids[k := o.amount];
      }
      var ranked := Ranked(maxBids);
      var top := ranked[0];
      RankedInRange(maxBids, 0);
      var second := if |ranked| > 1 then BidOf(maxBids)(ranked[1]) else 0.0;
      var newPrice;
      if second > 0.0 {
        newPrice := MinReal(maxBids[top], second + increment);
      } else {
        newPrice := MaxReal(currentPrice, startPrice);
        if newPrice < maxBids[top] {
          newPrice := startPrice;
        }
      }
      highestBidder := Some(agents[top].name);
      currentPrice := newPrice;
    }

    /** One visit of agent `k` in period `t`: ask, update, and log a snapshot. */
    method Turn(t: nat, turnId: nat, k: nat, answers: seq<Result<Offer>>) returns (r: Result<Offer>)
      requires Valid() && k < |agents|
      modifies this`maxBids, this`highestBidder, this`currentPrice, this`timeHistory
      ensures Valid()
      ensures r == SelectOffer(answers, old(maxBids)[k])
      ensures r.Err? ==> (maxBids == old(maxBids) && highestBidder == old(highestBidder)
        && currentPrice == old(currentPrice) && timeHistory == old(timeHistory))
      ensures r.Ok? ==> (maxBids == Apply(old(maxBids), k, r.value)
        && highestBidder == Some(agents[Leader(maxBids)].name)
        && currentPrice == NewPrice(maxBids, old(currentPrice), startPrice, increment)
        && timeHistory == old(timeHistory) + [AuctionStatus(t, turnId, currentPrice, reservePrice,
             agents[k].name, r.value.action, if r.value.action == Hold then 0.0 else r.value.amount,
             agents[k].value, maxBids, highestBidder)])
      ensures r.Ok? ==> (Standing(maxBids, highestBidder, currentPrice)
          == Advance(Standing(old(maxBids), old(highestBidder), old(currentPrice)), k, r.value)
        && timeHistory == old(timeHistory) + [Snapshot(t, turnId, k, r.value, Standing(maxBids, highestBidder, currentPrice))])
    {
      r := GetAgentAction(k, answers);
      if r.Err? {
        return;
      }
      ProcessAction(k, r.value);
      var logged := if r.value.action == Hold then 0.0 else r.value.amount;
      timeHistory := timeHistory + [AuctionStatus(t, turnId, currentPrice, reservePrice,
        agents[k].name, r.value.action, logged, agents[k].value, maxBids, highestBidder)];
    }

    /**
     * One visit's change of standing: agent `k`'s offer is applied, the
     * agent at the top of the ranking leads and the price follows the two
     * highest maxima.
     */
    function Advance(s: Standing, k: nat, o: Offer): (r: Standing)
      requires k < |agents| && |s.maxBids| == |agents|
      ensures |r.maxBids| == |agents|
      ensures r.leader.Some? && r.leader.value == agents[Leader(r.maxBids)].name
      ensures forall j :: 0 <= j < |agents| && j != k ==> r.maxBids[j] == s.maxBids[j]
    {
      var mb := Apply(s.maxBids, k, o);
      Standing(mb, Some(agents[Leader(mb)].name), NewPrice(mb, s.price, startPrice, increment))
    }

    /**
     * The snapshot logged after agent `k`'s visit, taken from the standing `s`
     * it reached. The logged amount of a hold is 0.0, the amount
     * `parse_action_and_amount` returns with it, whatever the offer carries.
     */
    function Snapshot(t: nat, turnId: nat, k: nat, o: Offer, s: Standing): (r: AuctionStatus)
      requires k < |agents|
      ensures r.periodId == t && r.turnId == turnId && r.agentSelected == agents[k].name
      ensures r.action == o.action && r.currentPrice == s.price && r.highestBidder == s.leader
      ensures r.bid == (if o.action == Hold then 0.0 else o.amount)
      ensures r.maxBids == s.maxBids && r.value == agents[k].value && r.reservePrice == reservePrice
    {
      AuctionStatus(t, turnId, s.price, reservePrice, agents[k].name, o.action,
        if o.action == Hold then 0.0 else o.amount, agents[k].value, s.maxBids, s.leader)
    }

    /**
     * The first `n` visits of period `t`, from standing `s0`: a missing
     * answer list or a failed answer ends the period with that error.
     */
    function PeriodUpTo(s0: Standing, t: nat, ordering: seq<nat>, answers: seq<seq<Result<Offer>>>,
                        n: nat): (r: Result<PeriodOutcome>)
      requires n <= |ordering| && |s0.maxBids| == |agents|
      requires forall i :: 0 <= i < |ordering| ==> ordering[i] < |agents|
      ensures r.Ok? ==> |r.value.standing.maxBids| == |agents| && |r.value.log| == n
      ensures r.Err? ==> r.error == BidFailed || r.error == OutOfDecisions
      decreases n, 0
    {
      if n == 0 then Ok(PeriodOutcome(s0, [], false)) else VisitAfter(s0, t, ordering, answers, n - 1)
    }

    /**
     * Visit `m` of period `t` after the first `m` visits: the agent at
     * position `ordering[m]` answers with `answers[m]`, and its offer moves
     * the standing on and is logged.
     */
    function VisitAfter(s0: Standing, t: nat, ordering: seq<nat>, answers: seq<seq<Result<Offer>>>,
                        m: nat): (r: Result<PeriodOutcome>)
      requires m < |ordering| && |s0.maxBids| == |agents|
      requires forall i :: 0 <= i < |ordering| ==> ordering[i] < |agents|
      ensures r.Ok? ==> |r.value.standing.maxBids| == |agents| && |r.value.log| == m + 1
      ensures r.Err? ==> r.error == BidFailed || r.error == OutOfDecisions
      decreases m, 1
    {
      match PeriodUpTo(s0, t, ordering, answers, m)
      case Err(e) => Err(e)
      case Ok(p) =>
        var k := ordering[m];
        if m >= |answers| then Err(OutOfDecisions)
        else
          match SelectOffer(answers[m], p.standing.maxBids[k])
          case Err(e) => Err(e)
          case Ok(o) =>
            var s := Advance(p.standing, k, o);
            Ok(PeriodOutcome(s, p.log + [Snapshot(t, m, k, o, s)], p.bid || o.action == Bid))
    }

    /** Once a period has failed, its later visits do not happen. */
    lemma {:induction false} PeriodErrSticks(s0: Standing, t: nat, ordering: seq<nat>,
                                             answers: seq<seq<Result<Offer>>>, n: nat, m: nat)
      requires n <= m <= |ordering| && |s0.maxBids| == |agents|
      requires forall i :: 0 <= i < |ordering| ==> ordering[i] < |agents|
      requires PeriodUpTo(s0, t, ordering, answers, n).Err?
      ensures PeriodUpTo(s0, t, ordering, answers, m) == PeriodUpTo(s0, t, ordering, answers, n)
      decreases m - n
    {
      if n < m {
        PeriodErrSticks(s0, t, ordering, answers, n + 1, m);
      }
    }

    /** A visit that gets an offer extends the period by that offer's advance and snapshot. */
    lemma PeriodVisited(s0: Standing, t: nat, ordering: seq<nat>, answers: seq<seq<Result<Offer>>>,
                        turn: nat, p: PeriodOutcome, o: Offer)
      requires turn < |ordering| && turn < |answers| && |s0.maxBids| == |agents|
      requires forall i :: 0 <= i < |ordering| ==> ordering[i] < |agents|
      requires PeriodUpTo(s0, t, ordering, answers, turn) == Ok(p)
      requires SelectOffer(answers[turn], p.standing.maxBids[ordering[turn]]) == Ok(o)
      ensures PeriodUpTo(s0, t, ordering, answers, turn + 1)
        == Ok(PeriodOutcome(Advance(p.standing, ordering[turn], o),
                            p.log + [Snapshot(t, turn, ordering[turn], o, Advance(p.standing, ordering[turn], o))],
                            p.bid || o.action == Bid))
    {
    }

    /**
     * A visit that finds no answer list, or whose answers yield no offer,
     * ends the whole period with that error.
     */
    lemma PeriodFailsAt(s0: Standing, t: nat, ordering: seq<nat>, answers: seq<seq<Result<Offer>>>,
                        turn: nat, p: PeriodOutcome, e: Error)
      requires turn < |ordering| && |s0.maxBids| == |agents|
      requires forall i :: 0 <= i < |ordering| ==> ordering[i] < |agents|
      requires PeriodUpTo(s0, t, ordering, answers, turn) == Ok(p)
      requires |p.standing.maxBids| == |agents|
      requires if turn >= |answers| then e == OutOfDecisions
               else SelectOffer(answers[turn], p.standing.maxBids[ordering[turn]]) == Err(e)
      ensures PeriodUpTo(s0, t, ordering, answers, |ordering|) == Err(e)
    {
      PeriodErrSticks(s0, t, ordering, answers, turn + 1, |ordering|);
    }

    /**
     * What the first `n` visits of a period log and do: the snapshots are the
     * ordering's turns of period `t`, someone bid exactly when a snapshot
     * records a bid, and no agent's maximum went down.
     */
    lemma {:induction false} PeriodUpToLogged(s0: Standing, t: nat, ordering: seq<nat>,
                                              answers: seq<seq<Result<Offer>>>, n: nat, h0: seq<AuctionStatus>)
      requires n <= |ordering| && |s0.maxBids| == |agents|
      requires forall i :: 0 <= i < |ordering| ==> ordering[i] < |agents|
      requires PeriodUpTo(s0, t, ordering, answers, n).Ok?
      ensures var p := PeriodUpTo(s0, t, ordering, answers, n).value;
        && PeriodLogged(h0 + p.log, |h0|, t, ordering[..n], agents)
        && (p.bid <==> SomeBid(h0 + p.log, |h0|))
        && forall j :: 0 <= j < |agents| ==> s0.maxBids[j] <= p.standing.maxBids[j]
    {
      if n > 0 {
        PeriodUpToLogged(s0, t, ordering, answers, n - 1, h0);
        var q := PeriodUpTo(s0, t, ordering, answers, n - 1).value;
        var k := ordering[n - 1];
        var o := SelectOffer(answers[n - 1], q.standing.maxBids[k]).value;
        var p := PeriodUpTo(s0, t, ordering, answers, n).value;
        assert p.log == q.log + [Snapshot(t, n - 1, k, o, p.standing)];
        assert (h0 + p.log)[..|h0 + q.log|] == h0 + q.log;
        assert (h0 + q.log)[..|h0|] == h0;
        PeriodStep(h0, h0 + q.log, h0 + p.log, t, ordering, n - 1);
        AcceptedNeverLowers(q.standing.maxBids, k, o);
      }
    }

    /**
     * The first `n` periods of `run` from standing `s0` and period count
     * `total0`, with the soft close applied after each period.
     */
    function RunUpTo(s0: Standing, total0: nat, orderings: seq<seq<nat>>,
                     answers: seq<seq<seq<Result<Offer>>>>, n: nat): (r: Result<RunOutcome>)
      requires |s0.maxBids| == |agents|
      requires forall p :: 0 <= p < |orderings| ==> IsOrdering(orderings[p], |agents|)
      ensures r.Ok? ==> |r.value.standing.maxBids| == |agents| && total0 <= r.value.total
      ensures r.Ok? ==> |r.value.log| == n * |agents|
      ensures r.Err? ==> r.error == BidFailed || r.error == OutOfDecisions
      decreases n, 0
    {
      if n == 0 then Ok(RunOutcome(s0, [], total0, false)) else PeriodAfter(s0, total0, orderings, answers, n - 1)
    }

    /**
     * The soft close after period `t`: with `closing` on, when somebody bid
     * since the last extension and period `t + 1` would be the last, one more
     * period is added (while there are fewer than `MaxPeriods`) and the flag
     * is cleared; the result is the new period count and flag.
     */
    function SoftClose(t: nat, total: nat, bid: bool): (r: (nat, bool))
      ensures r.0 == total || (closing && bid && r.0 == total + 1 <= MaxPeriods && !r.1)
      ensures r.0 == total ==> r.1 == bid
    {
      if closing && t + 1 == total - 1 && bid && total < MaxPeriods then (total + 1, false) else (total, bid)
    }

    /**
     * Period `m` of `run` after the first `m` periods, then the soft close:
     * one more period when somebody bid since the last extension, period
     * `m + 1` would be the last, and there are fewer than twenty.
     */
    function PeriodAfter(s0: Standing, total0: nat, orderings: seq<seq<nat>>,
                         answers: seq<seq<seq<Result<Offer>>>>, m: nat): (r: Result<RunOutcome>)
      requires |s0.maxBids| == |agents|
      requires forall p :: 0 <= p < |orderings| ==> IsOrdering(orderings[p], |agents|)
      ensures r.Ok? ==> |r.value.standing.maxBids| == |agents| && total0 <= r.value.total
      ensures r.Ok? ==> |r.value.log| == (m + 1) * |agents|
      ensures r.Err? ==> r.error == BidFailed || r.error == OutOfDecisions
      decreases m, 1
    {
      match RunUpTo(s0, total0, orderings, answers, m)
      case Err(e) => Err(e)
      case Ok(q) =>
        if m >= |orderings| || m >= |answers| then Err(OutOfDecisions)
        else
          OrderingInRange(orderings[m], |agents|);
          match PeriodUpTo(q.standing, m, orderings[m], answers[m], |orderings[m]|)
          case Err(e) => Err(e)
          case Ok(p) =>
            assert (m + 1) * |agents| == m * |agents| + |agents|;
            var c := SoftClose(m, q.total, q.bid || p.bid);
            Ok(RunOutcome(p.standing, q.log + p.log, c.0, c.1))
    }

    /**
     * One period of `run`: every agent of the ordering takes its turn; the
     * result says whether some turn was a bid.
     */
    method Period(t: nat, ordering: seq<nat>, answers: seq<seq<Result<Offer>>>) returns (r: Result<bool>)
      requires Valid()
      requires forall i :: 0 <= i < |ordering| ==> ordering[i] < |agents|
      modifies this`maxBids, this`highestBidder, this`currentPrice, this`timeHistory
      ensures Valid()
      ensures |old(timeHistory)| <= |timeHistory| && timeHistory[..|old(timeHistory)|] == old(timeHistory)
      ensures forall j :: 0 <= j < |agents| ==> old(maxBids)[j] <= maxBids[j]
      ensures r.Err? ==> r.error == BidFailed || r.error == OutOfDecisions
      ensures r.Ok? ==> (|timeHistory| == |old(timeHistory)| + |ordering|
        && PeriodLogged(timeHistory, |old(timeHistory)|, t, ordering, agents))
      ensures r.Ok? ==> (r.value <==> SomeBid(timeHistory, |old(timeHistory)|))
      ensures r.Ok? ==> (PeriodUpTo(Standing(old(maxBids), old(highestBidder), old(currentPrice)),
                                    t, ordering, answers, |ordering|)
        == Ok(PeriodOutcome(Standing(maxBids, highestBidder, currentPrice), timeHistory[|old(timeHistory)|..], r.value)))
      ensures r.Err? ==> PeriodUpTo(Standing(old(maxBids), old(highestBidder), old(currentPrice)),
                                    t, ordering, answers, |ordering|) == Err(r.error)
    {
      ghost var h0 := timeHistory;
      ghost var m0 := maxBids;
      ghost var s0 := Standing(maxBids, highestBidder, currentPrice);
      var ifBid := false;
      var turn := 0;
      assert timeHistory[|h0|..] == [];
      while turn < |ordering|
        invariant Valid()
        invariant turn <= |ordering|
        invariant forall j :: 0 <= j < |agents| ==> m0[j] <= maxBids[j]
        invariant PeriodSoFar(s0, t, ordering, answers, h0, turn,
                              Standing(maxBids, highestBidder, currentPrice), timeHistory, ifBid)
      {
        if turn >= |answers| {
          PeriodFailsAt(s0, t, ordering, answers, turn,
            PeriodOutcome(Standing(maxBids, highestBidder, currentPrice), timeHistory[|h0|..], ifBid), OutOfDecisions);
          return Err(OutOfDecisions);
        }
        var move := Visit(t, ordering, turn, answers, h0, m0, s0, ifBid);
        if move.Err? {
          return Err(move.error);
        }
        if move.value == Bid {
          ifBid := true;
        }
        turn := turn + 1;
      }
      PeriodDone(s0, t, ordering, answers, h0, timeHistory);
      return Ok(ifBid);
    }

    /**
     * The first `turn` visits of period `t` from standing `s0` reached
     * standing `st` and flag `bid`, and `h` extends `h0` by their snapshots.
     */
    ghost predicate PeriodSoFar(s0: Standing, t: nat, ordering: seq<nat>, answers: seq<seq<Result<Offer>>>,
                                h0: seq<AuctionStatus>, turn: nat, st: Standing, h: seq<AuctionStatus>, bid: bool)
      requires |s0.maxBids| == |agents|
      requires forall i :: 0 <= i < |ordering| ==> ordering[i] < |agents|
    {
      && turn <= |ordering|
      && |h0| <= |h| && h[..|h0|] == h0
      && PeriodUpTo(s0, t, ordering, answers, turn) == Ok(PeriodOutcome(st, h[|h0|..], bid))
    }

    /** Turn `turn` of a period, stated in terms of the period's log so far. */
    method Visit(t: nat, ordering: seq<nat>, turn: nat, answers: seq<seq<Result<Offer>>>,
                 ghost h0: seq<AuctionStatus>, ghost m0: seq<real>, ghost s0: Standing, ghost bid0: bool)
      returns (r: Result<Move>)
      requires Valid() && turn < |ordering| && turn < |answers| && |s0.maxBids| == |agents|
      requires forall i :: 0 <= i < |ordering| ==> ordering[i] < |agents|
      requires |h0| <= |timeHistory| && timeHistory[..|h0|] == h0
      requires PeriodUpTo(s0, t, ordering, answers, turn)
        == Ok(PeriodOutcome(Standing(maxBids, highestBidder, currentPrice), timeHistory[|h0|..], bid0))
      requires |m0| == |agents| && forall j :: 0 <= j < |agents| ==> m0[j] <= maxBids[j]
      modifies this`maxBids, this`highestBidder, this`currentPrice, this`timeHistory
      ensures Valid()
      ensures forall j :: 0 <= j < |agents| ==> m0[j] <= maxBids[j]
      ensures r.Err? ==> (r.error == BidFailed || r.error == OutOfDecisions) && timeHistory == old(timeHistory)
      ensures r.Ok? ==> (|timeHistory| == |h0| + turn + 1 && timeHistory[..|h0|] == h0
        && PeriodLogged(timeHistory, |h0|, t, ordering[..turn + 1], agents)
        && (SomeBid(timeHistory, |h0|) <==> SomeBid(old(timeHistory), |h0|) || r.value == Bid))
      ensures r.Err? ==> SelectOffer(answers[turn], old(maxBids)[ordering[turn]]) == Err(r.error)
      ensures r.Err? ==> PeriodUpTo(s0, t, ordering, answers, |ordering|) == Err(r.error)
      ensures r.Ok? ==> (PeriodUpTo(s0, t, ordering, answers, turn + 1)
        == Ok(PeriodOutcome(Standing(maxBids, highestBidder, currentPrice), timeHistory[|h0|..], bid0 || r.value == Bid)))
      ensures r.Ok? ==> (var o := SelectOffer(answers[turn], old(maxBids)[ordering[turn]]);
        && o.Ok? && o.value.action == r.value
        && Standing(maxBids, highestBidder, currentPrice)
           == Advance(Standing(old(maxBids), old(highestBidder), old(currentPrice)), ordering[turn], o.value)
        && timeHistory == old(timeHistory)
           + [Snapshot(t, turn, ordering[turn], o.value, Standing(maxBids, highestBidder, currentPrice))])
    {
      ghost var h1 := timeHistory;
      ghost var sb := Standing(maxBids, highestBidder, currentPrice);
      var o := Turn(t, turn, ordering[turn], answers[turn]);
      if o.Err? {
        PeriodFailsAt(s0, t, ordering, answers, turn, PeriodOutcome(sb, h1[|h0|..], bid0), o.error);
        return Err(o.error);
      }
      VisitLogged(s0, t, ordering, answers, turn, h0, bid0, h1, sb, o.value, timeHistory);
      r := Ok(o.value.action);
    }

    /** What a completed period's log `h` after `h0` says, by the fold. */
    lemma PeriodDone(s0: Standing, t: nat, ordering: seq<nat>, answers: seq<seq<Result<Offer>>>,
                     h0: seq<AuctionStatus>, h: seq<AuctionStatus>)
      requires |s0.maxBids| == |agents|
      requires forall i :: 0 <= i < |ordering| ==> ordering[i] < |agents|
      requires |h0| <= |h| && h[..|h0|] == h0
      requires PeriodUpTo(s0, t, ordering, answers, |ordering|).Ok?
      requires PeriodUpTo(s0, t, ordering, answers, |ordering|).value.log == h[|h0|..]
      ensures var p := PeriodUpTo(s0, t, ordering, answers, |ordering|).value;
        && |h| == |h0| + |ordering| && PeriodLogged(h, |h0|, t, ordering, agents)
        && (p.bid <==> SomeBid(h, |h0|))
        && forall j :: 0 <= j < |agents| ==> s0.maxBids[j] <= p.standing.maxBids[j]
    {
      PeriodUpToLogged(s0, t, ordering, answers, |ordering|, h0);
      assert h == h0 + h[|h0|..];
      assert ordering[..|ordering|] == ordering;
    }

    /**
     * A visit that gets offer `o` from standing `sb`, with log `h1` so far,
     * extends the period's fold and its log by that offer's snapshot.
     */
    lemma VisitLogged(s0: Standing, t: nat, ordering: seq<nat>, answers: seq<seq<Result<Offer>>>, turn: nat,
                      h0: seq<AuctionStatus>, bid0: bool, h1: seq<AuctionStatus>, sb: Standing, o: Offer,
                      h2: seq<AuctionStatus>)
      requires turn < |ordering| && turn < |answers| && |s0.maxBids| == |agents|
      requires forall i :: 0 <= i < |ordering| ==> ordering[i] < |agents|
      requires |h0| <= |h1| && h1[..|h0|] == h0
      requires PeriodUpTo(s0, t, ordering, answers, turn) == Ok(PeriodOutcome(sb, h1[|h0|..], bid0))
      requires SelectOffer(answers[turn], sb.maxBids[ordering[turn]]) == Ok(o)
      requires h2 == h1 + [Snapshot(t, turn, ordering[turn], o, Advance(sb, ordering[turn], o))]
      ensures |h2| == |h0| + turn + 1 && h2[..|h0|] == h0
      ensures PeriodLogged(h2, |h0|, t, ordering[..turn + 1], agents)
      ensures SomeBid(h2, |h0|) <==> SomeBid(h1, |h0|) || o.action == Bid
      ensures forall j :: 0 <= j < |agents| ==> sb.maxBids[j] <= Advance(sb, ordering[turn], o).maxBids[j]
      ensures PeriodUpTo(s0, t, ordering, answers, turn + 1)
        == Ok(PeriodOutcome(Advance(sb, ordering[turn], o), h2[|h0|..], bid0 || o.action == Bid))
    {
      var p := PeriodOutcome(sb, h1[|h0|..], bid0);
      PeriodUpToLogged(s0, t, ordering, answers, turn, h0);
      assert h1 == h0 + h1[|h0|..];
      PeriodStep(h0, h1, h2, t, ordering, turn);
      AcceptedNeverLowers(sb.maxBids, ordering[turn], o);
      PeriodVisited(s0, t, ordering, answers, turn, p, o);
      assert h2[|h0|..] == h1[|h0|..] + [h2[|h1|]];
    }

    /** Appending turn `turn`'s snapshot extends the period's log by one visit. */
    lemma PeriodStep(h0: seq<AuctionStatus>, h1: seq<AuctionStatus>, h2: seq<AuctionStatus>,
                     t: nat, ordering: seq<nat>, turn: nat)
      requires turn < |ordering| && ordering[turn] < |agents|
      requires |h1| == |h0| + turn && h1[..|h0|] == h0
      requires PeriodLogged(h1, |h0|, t, ordering[..turn], agents)
      requires |h2| == |h1| + 1 && h2[..|h1|] == h1
      requires h2[|h1|].periodId == t && h2[|h1|].turnId == turn && h2[|h1|].agentSelected == agents[ordering[turn]].name
      ensures |h2| == |h0| + turn + 1 && h2[..|h0|] == h0
      ensures PeriodLogged(h2, |h0|, t, ordering[..turn + 1], agents)
      ensures SomeBid(h2, |h0|) <==> SomeBid(h1, |h0|) || h2[|h1|].action == Bid
    {
      PeriodLoggedKept(h1, h2, |h0|, t, ordering[..turn], agents);
      assert h2[..|h0|] == h2[..|h1|][..|h0|];
      forall i | |h0| <= i < |h1|
        ensures h2[i] == h1[i]
      {
        assert h2[..|h1|][i] == h2[i];
      }
      if SomeBid(h2, |h0|) && h2[|h1|].action != Bid {
        var i :| |h0| <= i < |h2| && h2[i].action == Bid;
        assert h1[i] == h2[i];
      }
    }

    /**
     * `run`: periods until `total_periods`, with the soft close adding one
     * period whenever somebody bid since the last extension and the coming
     * period would be the last, while there are fewer than twenty periods.
     * Each period uses the ordering and the answers supplied for it.
     */
    method Run(orderings: seq<seq<nat>>, answers: seq<seq<seq<Result<Offer>>>>) returns (r: Result<Outcome>)
      requires Valid()
      requires forall p :: 0 <= p < |orderings| ==> IsOrdering(orderings[p], |agents|)
      modifies this`maxBids, this`highestBidder, this`currentPrice, this`timeHistory, this`totalPeriods
      ensures Valid()
      ensures old(totalPeriods) <= totalPeriods <= Max(old(totalPeriods), MaxPeriods)
      ensures !closing ==> totalPeriods == old(totalPeriods)
      ensures forall j :: 0 <= j < |agents| ==> old(maxBids)[j] <= maxBids[j]
      ensures r.Err? ==> r.error == BidFailed || r.error == OutOfDecisions
      ensures r.Ok? ==> r.value == Decide(highestBidder, currentPrice, reservePrice)
      ensures r.Ok? ==> (totalPeriods <= |orderings|
        && |timeHistory| == |old(timeHistory)| + totalPeriods * |agents|
        && forall p :: 0 <= p < totalPeriods ==>
             PeriodLogged(timeHistory, |old(timeHistory)| + p * |agents|, p, orderings[p], agents))
      ensures r.Ok? ==> (var f := RunUpTo(Standing(old(maxBids), old(highestBidder), old(currentPrice)),
                                          old(totalPeriods), orderings, answers, totalPeriods);
        && f.Ok? && f.value.standing == Standing(maxBids, highestBidder, currentPrice)
        && f.value.log == timeHistory[|old(timeHistory)|..] && f.value.total == totalPeriods)
      ensures r.Err? ==> exists n: nat ::
        var f := RunUpTo(Standing(old(maxBids), old(highestBidder), old(currentPrice)),
                         old(totalPeriods), orderings, answers, n);
        && f.Ok? && n < f.value.total
        && RunUpTo(Standing(old(maxBids), old(highestBidder), old(currentPrice)),
                   old(totalPeriods), orderings, answers, n + 1) == Err(r.error)
    {
      ghost var h0 := timeHistory;
      ghost var total0 := totalPeriods;
      ghost var m0 := maxBids;
      ghost var s0 := Standing(maxBids, highestBidder, currentPrice);
      var t: nat := 0;
      var ifBid := false;
      assert timeHistory[|h0|..] == [];
      while t < totalPeriods
        invariant Valid()
        invariant t <= totalPeriods && t <= |orderings|
        invariant total0 <= totalPeriods <= Max(total0, MaxPeriods)
        invariant !closing ==> totalPeriods == total0
        invariant forall j :: 0 <= j < |agents| ==> m0[j] <= maxBids[j]
        invariant RunSoFar(s0, total0, orderings, answers, h0, t,
                           Standing(maxBids, highestBidder, currentPrice), timeHistory, totalPeriods, ifBid)
        decreases Max(total0, MaxPeriods) - t
      {
        var b := RunPeriod(t, orderings, answers, ifBid, s0, total0, h0, m0);
        if b.Err? {
          assert RunUpTo(s0, total0, orderings, answers, t).Ok?;
          return Err(b.error);
        }
        ifBid := b.value;
        t := t + 1;
      }
      r := Ok(Decide(highestBidder, currentPrice, reservePrice));
    }

    /**
     * Period `t` of `run` and the soft close after it, stated in terms of the
     * run so far; the result is the new "somebody bid" flag.
     */
    method RunPeriod(t: nat, orderings: seq<seq<nat>>, answers: seq<seq<seq<Result<Offer>>>>, ifBid: bool,
                     ghost s0: Standing, ghost total0: nat, ghost h0: seq<AuctionStatus>, ghost m0: seq<real>)
      returns (r: Result<bool>)
      requires Valid() && |s0.maxBids| == |agents| && |m0| == |agents|
      requires forall p :: 0 <= p < |orderings| ==> IsOrdering(orderings[p], |agents|)
      requires t < totalPeriods && t <= |orderings|
      requires total0 <= totalPeriods <= Max(total0, MaxPeriods) && (!closing ==> totalPeriods == total0)
      requires forall j :: 0 <= j < |agents| ==> m0[j] <= maxBids[j]
      requires RunSoFar(s0, total0, orderings, answers, h0, t,
                        Standing(maxBids, highestBidder, currentPrice), timeHistory, totalPeriods, ifBid)
      modifies this`maxBids, this`highestBidder, this`currentPrice, this`timeHistory, this`totalPeriods
      ensures Valid()
      ensures old(totalPeriods) <= totalPeriods && total0 <= totalPeriods <= Max(total0, MaxPeriods)
      ensures !closing ==> totalPeriods == total0
      ensures forall j :: 0 <= j < |agents| ==> m0[j] <= maxBids[j]
      ensures r.Err? ==> r.error == BidFailed || r.error == OutOfDecisions
      ensures r.Err? ==> RunUpTo(s0, total0, orderings, answers, t + 1) == Err(r.error)
      ensures r.Ok? ==> t + 1 <= totalPeriods
      ensures r.Ok? ==> RunSoFar(s0, total0, orderings, answers, h0, t + 1,
                                 Standing(maxBids, highestBidder, currentPrice), timeHistory, totalPeriods, r.value)
    {
      ghost var h1 := timeHistory;
      ghost var sb := Standing(maxBids, highestBidder, currentPrice);
      if t >= |orderings| || t >= |answers| {
        RunFailsAt(s0, total0, orderings, answers, t, RunOutcome(sb, h1[|h0|..], totalPeriods, ifBid), OutOfDecisions);
        return Err(OutOfDecisions);
      }
      OrderingInRange(orderings[t], |agents|);
      var b := Period(t, orderings[t], answers[t]);
      if b.Err? {
        RunFailsAt(s0, total0, orderings, answers, t, RunOutcome(sb, h1[|h0|..], totalPeriods, ifBid), b.error);
        return Err(b.error);
      }
      RunSoFarStep(s0, total0, orderings, answers, h0, t, sb, h1, totalPeriods, ifBid,
        Standing(maxBids, highestBidder, currentPrice), timeHistory, b.value);
      var c := SoftClose(t, totalPeriods, ifBid || b.value);
      totalPeriods := c.0;
      r := Ok(c.1);
    }

    /**
     * A period that has no ordering or answers, or whose visits fail, ends the
     * run with that error.
     */
    lemma RunFailsAt(s0: Standing, total0: nat, orderings: seq<seq<nat>>, answers: seq<seq<seq<Result<Offer>>>>,
                     t: nat, q: RunOutcome, e: Error)
      requires |s0.maxBids| == |agents|
      requires forall p :: 0 <= p < |orderings| ==> IsOrdering(orderings[p], |agents|)
      requires RunUpTo(s0, total0, orderings, answers, t) == Ok(q)
      requires t >= |orderings| || t >= |answers| ==> e == OutOfDecisions
      requires t < |orderings| && t < |answers| ==>
        (forall i :: 0 <= i < |orderings[t]| ==> orderings[t][i] < |agents|)
        && PeriodUpTo(q.standing, t, orderings[t], answers[t], |orderings[t]|) == Err(e)
      ensures RunUpTo(s0, total0, orderings, answers, t + 1) == Err(e)
    {
    }

    /**
     * The first `t` periods of a run from `s0` with `total0` periods planned
     * reached standing `st`, period count `total` and flag `bid`; `h` is the
     * history, which extends `h0` by one logged period of snapshots each.
     */
    ghost predicate RunSoFar(s0: Standing, total0: nat, orderings: seq<seq<nat>>,
                             answers: seq<seq<seq<Result<Offer>>>>, h0: seq<AuctionStatus>, t: nat,
                             st: Standing, h: seq<AuctionStatus>, total: nat, bid: bool)
      requires |s0.maxBids| == |agents|
      requires forall p :: 0 <= p < |orderings| ==> IsOrdering(orderings[p], |agents|)
    {
      && t <= |orderings|
      && |h| == |h0| + t * |agents| && |h0| <= |h| && h[..|h0|] == h0
      && (forall p :: 0 <= p < t ==> PeriodLogged(h, |h0| + p * |agents|, p, orderings[p], agents))
      && RunUpTo(s0, total0, orderings, answers, t) == Ok(RunOutcome(st, h[|h0|..], total, bid))
    }

    /** A run so far, extended by the completed period `t` and the soft close after it. */
    lemma RunSoFarStep(s0: Standing, total0: nat, orderings: seq<seq<nat>>, answers: seq<seq<seq<Result<Offer>>>>,
                       h0: seq<AuctionStatus>, t: nat, sb: Standing, h1: seq<AuctionStatus>, total: nat, bid: bool,
                       sa: Standing, h2: seq<AuctionStatus>, pb: bool)
      requires |s0.maxBids| == |agents|
      requires forall p :: 0 <= p < |orderings| ==> IsOrdering(orderings[p], |agents|)
      requires RunSoFar(s0, total0, orderings, answers, h0, t, sb, h1, total, bid)
      requires t < |orderings| && t < |answers| && |sb.maxBids| == |agents|
      requires forall i :: 0 <= i < |orderings[t]| ==> orderings[t][i] < |agents|
      requires |h1| <= |h2| && h2[..|h1|] == h1
      requires |h2| == |h1| + |orderings[t]| && PeriodLogged(h2, |h1|, t, orderings[t], agents)
      requires PeriodUpTo(sb, t, orderings[t], answers[t], |orderings[t]|) == Ok(PeriodOutcome(sa, h2[|h1|..], pb))
      ensures var c := SoftClose(t, total, bid || pb);
        RunSoFar(s0, total0, orderings, answers, h0, t + 1, sa, h2, c.0, c.1)
    {
      OrderingInRange(orderings[t], |agents|);
      RunStep(h0, h1, h2, t, orderings);
      RunPeriodDone(s0, total0, orderings, answers, t, h0, h1, h2, sb, total, bid, sa, pb);
    }

    /**
     * A completed period `t` from standing `sb`, logging `h2` after `h1`,
     * extends the run's fold by that period and the soft close after it.
     */
    lemma RunPeriodDone(s0: Standing, total0: nat, orderings: seq<seq<nat>>, answers: seq<seq<seq<Result<Offer>>>>,
                        t: nat, h0: seq<AuctionStatus>, h1: seq<AuctionStatus>, h2: seq<AuctionStatus>,
                        sb: Standing, total: nat, bid: bool, sa: Standing, pb: bool)
      requires |s0.maxBids| == |agents|
      requires forall p :: 0 <= p < |orderings| ==> IsOrdering(orderings[p], |agents|)
      requires t < |orderings| && t < |answers| && |sb.maxBids| == |agents|
      requires forall i :: 0 <= i < |orderings[t]| ==> orderings[t][i] < |agents|
      requires |h0| <= |h1| && h1[..|h0|] == h0 && |h1| <= |h2| && h2[..|h1|] == h1
      requires RunUpTo(s0, total0, orderings, answers, t) == Ok(RunOutcome(sb, h1[|h0|..], total, bid))
      requires PeriodUpTo(sb, t, orderings[t], answers[t], |orderings[t]|) == Ok(PeriodOutcome(sa, h2[|h1|..], pb))
      ensures var c := SoftClose(t, total, bid || pb);
        RunUpTo(s0, total0, orderings, answers, t + 1) == Ok(RunOutcome(sa, h2[|h0|..], c.0, c.1))
    {
      assert h2[|h0|..] == h1[|h0|..] + h2[|h1|..];
    }


    /** A completed period adds its log to those of the earlier periods. */
    lemma RunStep(h0: seq<AuctionStatus>, h1: seq<AuctionStatus>, h2: seq<AuctionStatus>,
                  t: nat, orderings: seq<seq<nat>>)
      requires t < |orderings| && |orderings[t]| == |agents|
      requires |h1| == |h0| + t * |agents| && h1[..|h0|] == h0
      requires forall p :: 0 <= p < t ==> PeriodLogged(h1, |h0| + p * |agents|, p, orderings[p], agents)
      requires |h1| <= |h2| && h2[..|h1|] == h1
      requires |h2| == |h1| + |orderings[t]| && PeriodLogged(h2, |h1|, t, orderings[t], agents)
      ensures |h2| == |h0| + (t + 1) * |agents| && h2[..|h0|] == h0
      ensures forall p :: 0 <= p < t + 1 ==> PeriodLogged(h2, |h0| + p * |agents|, p, orderings[p], agents)
    {
      assert h2[..|h0|] == h2[..|h1|][..|h0|];
      assert (t + 1) * |agents| == t * |agents| + |agents|;
      forall p | 0 <= p < t + 1
        ensures PeriodLogged(h2, |h0| + p * |agents|, p, orderings[p], agents)
      {
        if p < t {
          PeriodLoggedKept(h1, h2, |h0| + p * |agents|, p, orderings[p], agents);
        }
      }
    }

    /** `_finalize_auction`, on the current state. */
    function Finalize(): (r: Outcome)
      reads this
      ensures r.NoSale? <==> highestBidder.None? || currentPrice < reservePrice
      ensures r.Sale? ==> r.winner == highestBidder.value && r.price == currentPrice
    {
      Decide(highestBidder, currentPrice, reservePrice)
    }
  }

  /**
   * A sale goes to an agent whose maximum is at least every agent's maximum,
   * at a price no lower than the reserve.
   */
  lemma SaleGoesToTopMaximum(e: Ebay)
    requires e.Valid() && e.Finalize().Sale?
    ensures exists k :: (0 <= k < |e.agents| && e.agents[k].name == e.Finalize().winner
      && (forall j :: 0 <= j < |e.agents| ==> e.maxBids[j] <= e.maxBids[k]))
    ensures e.Finalize().price >= e.reservePrice
  {
    var k := Leader(e.maxBids);
    LeaderIsMax(e.maxBids);
    assert e.agents[k].name == e.Finalize().winner;
  }
}
