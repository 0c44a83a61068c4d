/**
 * The clock auction (`Clock`): the price moves by a fixed increment each tick,
 * every active bidder answers whether it stays in, a bidder who answers "no"
 * leaves the active set `agent_left` and is logged in `exit_list` at the
 * current price, and the auction stops when one bidder is left or when the
 * last ones leave together.
 */
module ClockAuction {
  import opened Base
  import opened Bidders
  import opened TagParse

  /** An entry of `exit_list`: `{"agent": name, "bid": price}`. */
  datatype ExitEntry = ExitEntry(agent: string, bid: int)

  /** An entry of the tick's `bid_list`: `{"agent": name, "bid": price, "decision": answer}`. */
  datatype TickEntry = TickEntry(agent: string, bid: int, decision: Decision)

  /** `self.winner` of the clock. */
  datatype ClockSale = ClockSale(winner: string, price: int)

  /** What `share_information` reports under open information: the tick's number, price and exit count. */
  datatype TickSummary = TickSummary(tick: nat, price: int, exits: nat)

  /** `dynamic`: the next clock price, or `ValueError` for an unknown direction. */
  function NextPrice(direction: Direction, price: int, change: int): (r: Result<int>)
    ensures direction.Ascend? ==> r == Ok(price + change)
    ensures direction.Descend? ==> r == Ok(price - change)
    ensures direction.UnknownDirection? ==> r == Err(RuleNotAllowed)
  {
    match direction
    case Ascend => Ok(price + change)
    case Descend => Ok(price - change)
    case UnknownDirection => Err(RuleNotAllowed)
  }

  /** After `n` ascending ticks the price has risen by `n` increments. */
  lemma {:induction false} AscendingPriceAfter(start: int, change: int, n: nat)
    ensures PriceAfter(start, change, n) == start + n * change
  {
    if n > 0 {
      AscendingPriceAfter(start, change, n - 1);
    }
  }

  /** The price after `n` ascending ticks, step by step through `dynamic`. */
  function PriceAfter(start: int, change: int, n: nat): int
  {
    if n == 0 then start else NextPrice(Ascend, PriceAfter(start, change, n - 1), change).value
  }

  /** With a non-negative increment the ascending price never falls. */
  lemma AscendingPriceMonotone(start: int, change: int, m: nat, n: nat)
    requires change >= 0 && m <= n
    ensures PriceAfter(start, change, m) <= PriceAfter(start, change, n)
  {
    AscendingPriceAfter(start, change, m);
    AscendingPriceAfter(start, change, n);
    assert m * change <= n * change by {
      assert (n - m) * change >= 0;
    }
  }

  /** `share_information`: a summary under open information, nothing otherwise. */
  function ShareInformation(information: Information, clock: nat, price: int, exits: nat): (r: Option<TickSummary>)
    ensures r.Some? <==> information.Open?
    ensures r.Some? ==> r.value == TickSummary(clock + 1, price, exits)
  {
    if information.Open? then Some(TickSummary(clock + 1, price, exits)) else None
  }

  /** The first `k` bidders of a tick who answer "yes", in order. */
  function Stayers<T>(s: seq<T>, ds: seq<Decision>, k: nat): (r: seq<T>)
    requires |s| == |ds| && k <= |s|
    decreases k
  {
    if k == 0 then [] else Stayers(s, ds, k - 1) + (if ds[k - 1] == Yes then [s[k - 1]] else [])
  }

  /** The first `k` bidders of a tick who answer "no", in order. */
  function Leavers<T>(s: seq<T>, ds: seq<Decision>, k: nat): (r: seq<T>)
    requires |s| == |ds| && k <= |s|
    decreases k
  {
    if k == 0 then [] else Leavers(s, ds, k - 1) + (if ds[k - 1] == No then [s[k - 1]] else [])
  }

  /** Every bidder asked either stays or leaves. */
  lemma {:induction false} SplitCount<T>(s: seq<T>, ds: seq<Decision>, k: nat)
    requires |s| == |ds| && k <= |s|
    ensures |Stayers(s, ds, k)| + |Leavers(s, ds, k)| == k
  {
    if k > 0 {
      SplitCount(s, ds, k - 1);
    }
  }

  /** A stayer or leaver is a bidder of the tick, and a bidder who answers is one of them. */
  lemma {:induction false} SplitMembers<T>(s: seq<T>, ds: seq<Decision>, k: nat)
    requires |s| == |ds| && k <= |s|
    ensures forall x :: x in Stayers(s, ds, k) ==> x in s
    ensures forall x :: x in Leavers(s, ds, k) ==> x in s
    ensures forall i :: 0 <= i < k && ds[i] == Yes ==> s[i] in Stayers(s, ds, k)
    ensures forall i :: 0 <= i < k && ds[i] == No ==> s[i] in Leavers(s, ds, k)
  {
    if k > 0 {
      SplitMembers(s, ds, k - 1);
    }
  }

  /** A bidder that is none of the first `k` neither stays nor leaves. */
  lemma {:induction false} NotInSplit<T>(s: seq<T>, ds: seq<Decision>, k: nat, x: T)
    requires |s| == |ds| && k <= |s|
    requires forall i :: 0 <= i < k ==> s[i] != x
    ensures x !in Stayers(s, ds, k) && x !in Leavers(s, ds, k)
  {
    if k > 0 {
      NotInSplit(s, ds, k - 1, x);
    }
  }

  /** Of distinct bidders, nobody both stays and leaves, and both lists stay distinct. */
  lemma {:induction false} SplitDistinct<T>(s: seq<T>, ds: seq<Decision>, k: nat)
    requires |s| == |ds| && k <= |s| && Distinct(s)
    ensures Distinct(Stayers(s, ds, k)) && Distinct(Leavers(s, ds, k))
    ensures forall x :: x in Stayers(s, ds, k) ==> x !in Leavers(s, ds, k)
  {
    if k > 0 {
      SplitDistinct(s, ds, k - 1);
      DistinctAt(s, k - 1);
      NotInSplit(s, ds, k - 1, s[k - 1]);
      if ds[k - 1] == Yes {
        DistinctSnoc(Stayers(s, ds, k - 1), s[k - 1]);
        assert Leavers(s, ds, k) == Leavers(s, ds, k - 1);
      } else {
        DistinctSnoc(Leavers(s, ds, k - 1), s[k - 1]);
        assert Stayers(s, ds, k) == Stayers(s, ds, k - 1);
      }
    }
  }

  /** The stayers of distinct bidders are distinct bidders of the tick. */
  lemma StayersValid<T>(s: seq<T>, ds: seq<Decision>)
    requires |s| == |ds| && Distinct(s)
    ensures Distinct(Stayers(s, ds, |s|))
    ensures forall x :: x in Stayers(s, ds, |s|) ==> x in s
  {
    SplitMembers(s, ds, |s|);
    SplitDistinct(s, ds, |s|);
  }

  /**
   * Asking the `k`-th bidder of a tick, who answers "no": it is removed from
   * the active list (its first occurrence, which is the one at the front of
   * the not-yet-asked part), joins the leavers and is logged as an exit.
   */
  lemma TickLeave(inPlay: seq<Bidder>, ds: seq<Decision>, k: nat, price: int)
    requires |inPlay| == |ds| && k < |inPlay| && Distinct(inPlay) && ds[k] == No
    ensures inPlay[k] !in Leavers(inPlay, ds, k)
    ensures inPlay[k] in Stayers(inPlay, ds, k) + inPlay[k..]
    ensures RemoveFirst(Stayers(inPlay, ds, k) + inPlay[k..], inPlay[k]) == Stayers(inPlay, ds, k + 1) + inPlay[k + 1..]
    ensures Leavers(inPlay, ds, k + 1) == Leavers(inPlay, ds, k) + [inPlay[k]]
    ensures ExitLog(inPlay, ds, k + 1, price) == ExitLog(inPlay, ds, k, price) + [ExitEntry(inPlay[k].name, price)]
    ensures TickLog(inPlay, ds, k + 1, price) == TickLog(inPlay, ds, k, price) + [TickEntry(inPlay[k].name, price, No)]
  {
    var agent := inPlay[k];
    DistinctAt(inPlay, k);
    NotInSplit(inPlay, ds, k, agent);
    assert inPlay[k..] == [agent] + inPlay[k + 1..];
    var stay := Stayers(inPlay, ds, k);
    RemoveFirstAfter(stay, agent, inPlay[k + 1..]);
    assert stay + inPlay[k..] == stay + [agent] + inPlay[k + 1..];
    assert Stayers(inPlay, ds, k + 1) == stay + [];
  }

  /** Asking the `k`-th bidder of a tick, who answers "yes": only the bid log changes. */
  lemma TickStay(inPlay: seq<Bidder>, ds: seq<Decision>, k: nat, price: int)
    requires |inPlay| == |ds| && k < |inPlay| && ds[k] == Yes
    ensures Stayers(inPlay, ds, k) + inPlay[k..] == Stayers(inPlay, ds, k + 1) + inPlay[k + 1..]
    ensures Leavers(inPlay, ds, k + 1) == Leavers(inPlay, ds, k)
    ensures ExitLog(inPlay, ds, k + 1, price) == ExitLog(inPlay, ds, k, price)
    ensures TickLog(inPlay, ds, k + 1, price) == TickLog(inPlay, ds, k, price) + [TickEntry(inPlay[k].name, price, Yes)]
  {
    assert inPlay[k..] == [inPlay[k]] + inPlay[k + 1..];
    assert Leavers(inPlay, ds, k + 1) == Leavers(inPlay, ds, k) + [];
    assert ExitLog(inPlay, ds, k + 1, price) == ExitLog(inPlay, ds, k, price) + [];
  }

  /** Python's `list.remove(x)`: drops the first occurrence of `x`. */
  function RemoveFirst<T(==)>(s: seq<T>, x: T): (r: seq<T>)
    requires x in s
  {
    if s[0] == x then s[1..] else [s[0]] + RemoveFirst(s[1..], x)
  }

  lemma {:induction false} RemoveFirstAfter<T>(a: seq<T>, x: T, b: seq<T>)
    requires x !in a
    ensures x in a + [x] + b
    ensures RemoveFirst(a + [x] + b, x) == a + b
  {
    var u := a + [x] + b;
    if a != [] {
      assert u[0] == a[0] && u[0] != x;
      assert u[1..] == a[1..] + [x] + b;
      RemoveFirstAfter(a[1..], x, b);
      assert a == [a[0]] + a[1..];
    } else {
      assert u == [x] + b;
    }
  }

  /** The `exit_list` entries of the first `k` bidders asked: one per "no", at the tick's price. */
  function ExitLog(asked: seq<Bidder>, ds: seq<Decision>, k: nat, price: int): (r: seq<ExitEntry>)
    requires |asked| == |ds| && k <= |asked|
    decreases k
  {
    if k == 0 then []
    else ExitLog(asked, ds, k - 1, price) + (if ds[k - 1] == No then [ExitEntry(asked[k - 1].name, price)] else [])
  }

  /** The exit log names the leavers, in the order they left, each at the tick's price. */
  lemma {:induction false} ExitLogOfLeavers(asked: seq<Bidder>, ds: seq<Decision>, k: nat, price: int)
    requires |asked| == |ds| && k <= |asked|
    ensures |ExitLog(asked, ds, k, price)| == |Leavers(asked, ds, k)|
    ensures forall i :: 0 <= i < |ExitLog(asked, ds, k, price)| ==>
      ExitLog(asked, ds, k, price)[i] == ExitEntry(Leavers(asked, ds, k)[i].name, price)
  {
    if k > 0 {
      ExitLogOfLeavers(asked, ds, k - 1, price);
    }
  }

  /** The `bid_list` entries of the first `k` bidders asked, each with its answer. */
  function TickLog(asked: seq<Bidder>, ds: seq<Decision>, k: nat, price: int): (r: seq<TickEntry>)
    requires |asked| == |ds| && k <= |asked|
    ensures |r| == k
  {
    if k == 0 then [] else TickLog(asked, ds, k - 1, price) + [TickEntry(asked[k - 1].name, price, ds[k - 1])]
  }

  /** `[e["agent"] for e in exit_list if e["bid"] == price]` */
  function ExitedAt(log: seq<ExitEntry>, price: int): (r: seq<string>)
    ensures forall name :: name in r <==> exists e :: e in log && e.agent == name && e.bid == price
  {
    if log == [] then []
    else
      var rest := ExitedAt(log[1..], price);
      assert forall e :: e in log ==> e == log[0] || e in log[1..];
      (if log[0].bid == price then [log[0].agent] else []) + rest
  }

  /**
   * The exit prices the payout appends to the winner, as written: the final
   * price, even when the winner already logged an exit at that price in the
   * tick where everybody left.
   */
  function PayOutExitsAsWritten(isWinner: bool, price: int): (r: seq<int>)
    ensures |r| == (if isWinner then 1 else 0)
    ensures forall x :: x in r ==> x == price
  {
    if isWinner then [price] else []
  }

  /** The corrected payout: record the final price only for a winner that never exited. */
  function PayOutExits(isWinner: bool, stillActive: bool, price: int): (r: seq<int>)
    ensures |r| == (if isWinner && stillActive then 1 else 0)
    ensures forall x :: x in r ==> x == price
  {
    if isWinner && stillActive then [price] else []
  }

  /**
   * The exit prices a bidder gains over one clock run: the price of its exit
   * in a tick, if it left, followed by what the payout appends.
   */
  function RoundExits(exit: Option<int>, payout: seq<int>): seq<int>
  {
    (if exit.Some? then [exit.value] else []) + payout
  }

  /**
   * As written, a bidder gains one exit price for leaving and one more for
   * winning, so a winner drawn among the bidders who all left in the final
   * tick gets two for one run, both the winning price, and
   * `exit_price[round_number]` in `update_bidders` reads a stale entry from
   * the next round on.
   */
  lemma {:induction false} AsWrittenExitsPerRun(exit: Option<int>, isWinner: bool, price: int)
    requires exit.Some? || isWinner
    ensures |RoundExits(exit, PayOutExitsAsWritten(isWinner, price))| == (if exit.Some? && isWinner then 2 else 1)
    ensures exit == Some(price) && isWinner ==> RoundExits(exit, PayOutExitsAsWritten(isWinner, price)) == [price, price]
    ensures exit.Some? ==> RoundExits(exit, PayOutExitsAsWritten(isWinner, price))[0] == exit.value
  {
    var pay := PayOutExitsAsWritten(isWinner, price);
    if isWinner {
      assert pay == [price];
    } else {
      assert pay == [];
    }
  }

  /**
   * Corrected, every bidder of a finished run gets exactly one exit price:
   * a leaver its exit price, the sole survivor (who is the winner) the final
   * price.
   */
  lemma OneExitPricePerRun(exit: Option<int>, isWinner: bool, price: int)
    requires exit.Some? || isWinner
    ensures |RoundExits(exit, PayOutExits(isWinner, exit.None?, price))| == 1
    ensures exit.Some? ==> RoundExits(exit, PayOutExits(isWinner, exit.None?, price)) == [exit.value]
    ensures exit.None? ==> RoundExits(exit, PayOutExits(isWinner, exit.None?, price)) == [price]
  {
  }

  /** Of distinct bidders, one stays in exactly when it answers "yes". */
  lemma StaysIffYes<T>(s: seq<T>, ds: seq<Decision>, j: nat)
    requires |s| == |ds| && j < |s| && Distinct(s)
    ensures s[j] in Stayers(s, ds, |s|) <==> ds[j] == Yes
  {
    SplitMembers(s, ds, |s|);
    SplitDistinct(s, ds, |s|);
  }

  /**
   * When every bidder of a tick leaves, each of them is logged as an exit at
   * the tick's price, so the draw among the exits at that price has every one
   * of them to choose from and is never a draw from an empty list.
   */
  lemma AllLeftAllExited(s: seq<Bidder>, ds: seq<Decision>, log0: seq<ExitEntry>, price: int)
    requires |s| == |ds| && Stayers(s, ds, |s|) == []
    ensures forall i :: 0 <= i < |s| ==> s[i].name in ExitedAt(log0 + ExitLog(s, ds, |s|, price), price)
  {
    SplitMembers(s, ds, |s|);
    ExitLogOfLeavers(s, ds, |s|, price);
    var exits := ExitLog(s, ds, |s|, price);
    var leavers := Leavers(s, ds, |s|);
    forall i | 0 <= i < |s| ensures s[i].name in ExitedAt(log0 + exits, price) {
      assert ds[i] != Yes;
      var j :| 0 <= j < |leavers| && leavers[j] == s[i];
      assert exits[j] in log0 + exits;
    }
  }

  /** The exit log of a tick only names bidders of the tick. */
  lemma {:induction false} ExitLogNamed(asked: seq<Bidder>, ds: seq<Decision>, k: nat, price: int, agents: seq<Bidder>)
    requires |asked| == |ds| && k <= |asked|
    requires forall a :: a in asked ==> a in agents
    ensures forall e :: e in ExitLog(asked, ds, k, price) ==> e.agent in Names(agents)
  {
    if k > 0 {
      ExitLogNamed(asked, ds, k - 1, price, agents);
      if ds[k - 1] == No {
        NameOfMember(agents, asked[k - 1]);
      }
    }
  }

  /** A bidder of the auction has its name among the bidders' names. */
  lemma NameOfMember(agents: seq<Bidder>, a: Bidder)
    requires a in agents
    ensures a.name in Names(agents)
  {
    var k :| 0 <= k < |agents| && agents[k] == a;
    assert Names(agents)[k] == a.name;
  }

  /** The profit the clock's payout appends: value less price for the winner, zero for everybody else. */
  function ClockProfit(won: bool, value: int, price: int): (r: real)
    ensures won ==> r == (value - price) as real && (value >= price ==> r >= 0.0)
    ensures !won ==> r == 0.0
  {
    if won then (value - price) as real else 0.0
  }

  /** The names drawn from among the exits are names the log holds. */
  lemma {:induction false} ExitedNamed(log: seq<ExitEntry>, price: int, names: seq<string>)
    requires forall e :: e in log ==> e.agent in names
    ensures forall n :: n in ExitedAt(log, price) ==> n in names
  {
    if log != [] {
      assert forall e :: e in log[1..] ==> e in log;
      ExitedNamed(log[1..], price, names);
    }
  }

  class Clock {
    const agents: seq<Bidder>
    const direction: Direction
    const information: Information
    /** `rule.increment` */
    const change: int
    var currentPrice: int
    var agentLeft: seq<Bidder>
    var clock: nat
    var exitNumber: nat
    var bidList: seq<TickEntry>
    var transcript: seq<Option<TickSummary>>
    var exitList: seq<ExitEntry>
    var winner: Option<ClockSale>

    /**
     * The active bidders are distinct bidders of the auction; under a
     * descending clock nobody is ever active, since `agent_left` starts empty
     * and only bidders who are asked can join it.
     */
    ghost predicate Valid()
      reads this
    {
      && Distinct(agents) && Distinct(agentLeft)
      && (forall a :: a in agentLeft ==> a in agents)
      && !direction.UnknownDirection?
      && (direction.Descend? ==> agentLeft == [])
    }

    /**
     * The clock starts at `common_range[0]` with every bidder active (ascending)
     * or none (descending). An unknown direction leaves `agent_left` unset in
     * the source, which fails on the first tick; the model does not construct it.
     */
    constructor (agents: seq<Bidder>, direction: Direction, information: Information, increment: int, startPrice: int)
      requires Distinct(agents) && !direction.UnknownDirection?
      ensures Valid()
      ensures this.agents == agents && this.direction == direction && this.information == information
      ensures change == increment && currentPrice == startPrice
      ensures agentLeft == (if direction.Ascend? then agents else [])
      ensures clock == 0 && exitNumber == 0 && bidList == [] && transcript == [] && exitList == [] && winner == None
    {
      this.agents := agents;
      this.direction := direction;
      this.information := information;
      change := increment;
      currentPrice := startPrice;
      agentLeft := if direction.Ascend? then agents else [];
      clock := 0;
      exitNumber := 0;
      bidList := [];
      transcript := [];
      exitList := [];
      winner := None;
    }

    /** `dynamic` */
    method Dynamic()
      requires Valid()
      modifies this`currentPrice
      ensures Ok(currentPrice) == NextPrice(direction, old(currentPrice), change)
    {
      if direction.Ascend? {
        currentPrice := currentPrice + change;
      } else {
        currentPrice := currentPrice - change;
      }
    }

    /**
     * Asking the `k`-th bidder of the tick: its answer is logged, and a "no"
     * takes it out of the clock, logs its exit and appends the price to its
     * exit prices. Stated as the step from the first `k` answers to the first
     * `k + 1`.
     */
    method Ask(inPlay: seq<Bidder>, decisions: seq<Decision>, k: nat, ghost exits0: seq<ExitEntry>, ghost bids0: seq<TickEntry>)
      requires |inPlay| == |decisions| && k < |inPlay| && Distinct(inPlay)
      requires agentLeft == Stayers(inPlay, decisions, k) + inPlay[k..]
      requires exitNumber == |Leavers(inPlay, decisions, k)|
      requires exitList == exits0 + ExitLog(inPlay, decisions, k, currentPrice)
      requires bidList == bids0 + TickLog(inPlay, decisions, k, currentPrice)
      modifies this`agentLeft, this`exitNumber, this`bidList, this`exitList, {inPlay[k]}`exitPrice
      ensures agentLeft == Stayers(inPlay, decisions, k + 1) + inPlay[k + 1..]
      ensures exitNumber == |Leavers(inPlay, decisions, k + 1)|
      ensures exitList == exits0 + ExitLog(inPlay, decisions, k + 1, currentPrice)
      ensures bidList == bids0 + TickLog(inPlay, decisions, k + 1, currentPrice)
      ensures inPlay[k].exitPrice == old(inPlay[k].exitPrice) + (if decisions[k] == No then [currentPrice] else [])
    {
      var agent := inPlay[k];
      bidList := bidList + [TickEntry(agent.name, currentPrice, decisions[k])];
      if decisions[k] == No {
        TickLeave(inPlay, decisions, k, currentPrice);
        agentLeft := RemoveFirst(agentLeft, agent);
        agent.exitPrice := agent.exitPrice + [currentPrice];
        exitNumber := exitNumber + 1;
        exitList := exitList + [ExitEntry(agent.name, currentPrice)];
      } else {
        TickStay(inPlay, decisions, k, currentPrice);
      }
    }

    /**
     * The loop of `run_one_clock`: every bidder active at the start of the
     * tick is asked once, in order.
     */
    method AskAll(decisions: seq<Decision>)
      requires Distinct(agentLeft) && |decisions| == |agentLeft|
      modifies this`agentLeft, this`exitNumber, this`bidList, this`exitList, agentLeft`exitPrice
      ensures agentLeft == Stayers(old(agentLeft), decisions, |decisions|)
      ensures exitNumber == |Leavers(old(agentLeft), decisions, |decisions|)|
      ensures exitList == old(exitList) + ExitLog(old(agentLeft), decisions, |decisions|, currentPrice)
      ensures bidList == old(bidList) + TickLog(old(agentLeft), decisions, |decisions|, currentPrice)
      ensures forall j :: 0 <= j < |decisions| ==>
        old(agentLeft)[j].exitPrice == old(agentLeft[j].exitPrice) + (if decisions[j] == No then [currentPrice] else [])
    {
      exitNumber := 0;
      var inPlay := agentLeft;
      var k := 0;
      assert inPlay[0..] == inPlay;
      while k < |inPlay|
        invariant 0 <= k <= |inPlay|
        invariant Distinct(inPlay)
        invariant agentLeft == Stayers(inPlay, decisions, k) + inPlay[k..]
        invariant exitNumber == |Leavers(inPlay, decisions, k)|
        invariant exitList == old(exitList) + ExitLog(inPlay, decisions, k, currentPrice)
        invariant bidList == old(bidList) + TickLog(inPlay, decisions, k, currentPrice)
        invariant forall j :: 0 <= j < |inPlay| ==>
          inPlay[j].exitPrice == old(inPlay[j].exitPrice) + (if j < k && decisions[j] == No then [currentPrice] else [])
      {
        DistinctAt(inPlay, k);
        Ask(inPlay, decisions, k, old(exitList), old(bidList));
        k := k + 1;
      }
      assert inPlay[k..] == [];
    }

    /**
     * `run_one_clock`: every active bidder is asked once, in order, and
     * `decisions` holds their answers. A "no" under the ascending clock
     * removes the bidder from `agent_left`, appends its exit price and an
     * `exit_list` entry at the current price, and counts it in
     * `exit_number`; every answer is logged in `bid_list`. The tick ends by
     * appending the shared summary to the transcript.
     */
    method RunOneClock(decisions: seq<Decision>)
      requires Valid() && |decisions| == |agentLeft|
      modifies this`agentLeft, this`exitNumber, this`bidList, this`exitList, this`transcript, agentLeft`exitPrice
      ensures Valid()
      ensures agentLeft == Stayers(old(agentLeft), decisions, |decisions|)
      ensures exitNumber == |Leavers(old(agentLeft), decisions, |decisions|)|
      ensures exitList == old(exitList) + ExitLog(old(agentLeft), decisions, |decisions|, currentPrice)
      ensures bidList == old(bidList) + TickLog(old(agentLeft), decisions, |decisions|, currentPrice)
      ensures forall a :: a in agentLeft ==> a in old(agentLeft)
      ensures transcript == old(transcript) + [ShareInformation(information, clock, currentPrice, exitNumber)]
      ensures forall j :: 0 <= j < |decisions| ==>
        old(agentLeft)[j].exitPrice == old(agentLeft[j].exitPrice) + (if decisions[j] == No then [currentPrice] else [])
      ensures forall a :: a in agents ==>
        |a.exitPrice| == |old(a.exitPrice)| + (if a in old(agentLeft) && a !in agentLeft then 1 else 0)
    {
      StayersValid(agentLeft, decisions);
      ghost var asked := agentLeft;
      AskAll(decisions);
      forall a | a in agents && a in asked
        ensures |a.exitPrice| == |old(a.exitPrice)| + (if a !in agentLeft then 1 else 0)
      {
        var j :| 0 <= j < |asked| && asked[j] == a;
        StaysIffYes(asked, decisions, j);
      }
      transcript := transcript + [ShareInformation(information, clock, currentPrice, exitNumber)];
    }

    /** Every `exit_list` entry names a bidder of the auction. */
    ghost predicate ExitsNamed()
      reads this
    {
      forall e :: e in exitList ==> e.agent in Names(agents)
    }

    /**
     * `declear_winner_and_price`. Ascending: a sole survivor wins at the
     * current price and is logged in `exit_list`; several survivors mean the
     * clock goes on; with nobody left, the winner is drawn among the bidders
     * logged as exiting at the current price, which fails (IndexError) when
     * there are none. Descending: `agent_left` is always empty, so the clock
     * goes on.
     */
    method DeclareWinnerAndPrice(pick: nat) returns (r: Result<bool>)
      requires Valid()
      modifies this`winner, this`exitList
      ensures direction.Ascend? && |agentLeft| == 1 ==>
        r == Ok(true) && winner == Some(ClockSale(agentLeft[0].name, currentPrice))
        && exitList == old(exitList) + [ExitEntry(agentLeft[0].name, currentPrice)]
      ensures direction.Ascend? && agentLeft == [] && ExitedAt(old(exitList), currentPrice) == [] ==>
        r == Err(EmptyChoice) && winner == old(winner) && exitList == old(exitList)
      ensures direction.Ascend? && agentLeft == [] && ExitedAt(old(exitList), currentPrice) != [] ==>
        r == Ok(true) && exitList == old(exitList)
        && winner == Some(ClockSale(Choice(ExitedAt(exitList, currentPrice), pick), currentPrice))
      ensures (direction.Ascend? && |agentLeft| > 1) || direction.Descend? ==>
        r == Ok(false) && winner == old(winner) && exitList == old(exitList)
    {
      if direction.Ascend? {
        if |agentLeft| == 1 {
          var name := agentLeft[0].name;
          winner := Some(ClockSale(name, currentPrice));
          exitList := exitList + [ExitEntry(name, currentPrice)];
          r := Ok(true);
        } else if |agentLeft| > 1 {
          r := Ok(false);
        } else {
          var names := ExitedAt(exitList, currentPrice);
          if names == [] {
            r := Err(EmptyChoice);
          } else {
            winner := Some(ClockSale(Choice(names, pick), currentPrice));
            r := Ok(true);
          }
        }
      } else {
        r := Ok(false);
      }
    }

    /**
     * The first half of a pass of the loop in `run`: clear the tick's
     * `bid_list`, run the tick and count it. Each bidder who left in the tick
     * gained one exit price; if everybody active left, each of them is logged
     * as an exit at the current price.
     */
    method AskRound(decisions: seq<Decision>)
      requires Valid() && ExitsNamed() && |decisions| == |agentLeft|
      modifies this`agentLeft, this`exitNumber, this`bidList, this`exitList, this`transcript
      modifies this`clock, agentLeft`exitPrice
      ensures Valid() && ExitsNamed()
      ensures agentLeft == Stayers(old(agentLeft), decisions, |decisions|)
      ensures forall a :: a in agentLeft ==> a in old(agentLeft)
      ensures forall a :: a in agents ==>
        |a.exitPrice| == |old(a.exitPrice)| + (if a in old(agentLeft) && a !in agentLeft then 1 else 0)
      ensures clock == old(clock) + 1
      ensures agentLeft == [] ==> forall a :: a in old(agentLeft) ==> a.name in ExitedAt(exitList, currentPrice)
    {
      bidList := [];
      ghost var asked := agentLeft;
      ghost var log0 := exitList;
      RunOneClock(decisions);
      ExitLogNamed(asked, decisions, |decisions|, currentPrice, agents);
      clock := clock + 1;
      if agentLeft == [] {
        AllLeftAllExited(asked, decisions, log0, currentPrice);
      }
    }

    /**
     * One pass of the loop in `run`: the tick, then the check for a winner
     * and, unless that raised, the move of the price. A winner is a bidder of
     * the auction, chosen at the tick's price; the draw fails only when nobody
     * was active at the start of the tick.
     */
    method Tick(decisions: seq<Decision>, pick: nat) returns (r: Result<bool>)
      requires Valid() && ExitsNamed() && |decisions| == |agentLeft|
      modifies this`agentLeft, this`exitNumber, this`bidList, this`exitList, this`transcript
      modifies this`clock, this`winner, this`currentPrice, agentLeft`exitPrice
      ensures Valid() && ExitsNamed()
      ensures forall a :: a in agentLeft ==> a in old(agentLeft)
      ensures forall a :: a in agents ==>
        |a.exitPrice| == |old(a.exitPrice)| + (if a in old(agentLeft) && a !in agentLeft then 1 else 0)
      ensures clock == old(clock) + 1
      ensures r.Err? ==> r.error == EmptyChoice && old(agentLeft) == [] && direction.Ascend?
      ensures r == Ok(false) ==> winner == old(winner) && (direction.Ascend? ==> |agentLeft| >= 2)
      ensures r == Ok(true) ==>
        direction.Ascend? && |agentLeft| <= 1 && winner.Some? && winner.value.price == old(currentPrice)
        && winner.value.winner in Names(agents) && (agentLeft != [] ==> winner.value.winner == agentLeft[0].name)
      ensures r == Ok(true) ==> winner.value.winner in ExitedAt(exitList, winner.value.price)
      ensures agentLeft == Stayers(old(agentLeft), decisions, |decisions|)
      ensures r.Ok? ==> Ok(currentPrice) == NextPrice(direction, old(currentPrice), change)
      ensures direction.Descend? ==> r == Ok(false)
    {
      ghost var asked := agentLeft;
      AskRound(decisions);
      if direction.Ascend? && |agentLeft| == 1 {
        NameOfMember(agents, agentLeft[0]);
      }
      if agentLeft == [] && asked != [] {
        assert asked[0].name in ExitedAt(exitList, currentPrice);
      }
      ExitedNamed(exitList, currentPrice, Names(agents));
      r := DeclareWinnerAndPrice(pick);
      if r.Ok? {
        Dynamic();
      }
    }

    /**
     * The loop of `run`, one tick per entry of `ticks` (the answers of the
     * bidders active at that tick). It stops with the winner once
     * `declear_winner_and_price` reports one. A descending clock, where
     * nobody is ever active, never stops, and so does any clock given too few
     * ticks: both end in `OutOfDecisions`. The draw among the exits fails only
     * when the auction has no bidders at all.
     */
    method RunTicks(ticks: seq<seq<Decision>>, pick: nat) returns (r: Result<ClockSale>)
      requires Valid() && exitList == [] && winner == None
      requires agentLeft == (if direction.Ascend? then agents else [])
      modifies this`agentLeft, this`exitNumber, this`bidList, this`exitList, this`transcript
      modifies this`clock, this`winner, this`currentPrice, (set a | a in agents)`exitPrice
      ensures Valid()
      ensures r.Ok? ==>
        direction.Ascend? && winner == Some(r.value) && r.value.winner in Names(agents)
        && |agentLeft| <= 1 && (agentLeft != [] ==> r.value.winner == agentLeft[0].name)
        && Ok(currentPrice) == NextPrice(direction, r.value.price, change)
      ensures r.Ok? ==> r.value.winner in ExitedAt(exitList, r.value.price)
      ensures r.Err? ==> r.error == OutOfDecisions || (r.error == EmptyChoice && agents == [])
      ensures r == Err(OutOfDecisions) ==> (old(clock) <= clock <= old(clock) + |ticks|
        && (clock == old(clock) + |ticks| || |ticks[clock - old(clock)]| != |agentLeft|))
      ensures direction.Descend? ==> r == Err(OutOfDecisions)
      ensures direction.Ascend? ==> forall a :: a in agents ==>
        |a.exitPrice| == |old(a.exitPrice)| + (if a in agentLeft then 0 else 1)
    {
      var t := 0;
      while true
        invariant Valid() && ExitsNamed() && 0 <= t <= |ticks| && winner == None
        invariant clock == old(clock) + t
        invariant direction.Ascend? && t == 0 ==> agentLeft == agents
        invariant direction.Ascend? && t > 0 ==> |agentLeft| >= 2
        invariant direction.Ascend? ==> forall a :: a in agents ==>
          |a.exitPrice| == |old(a.exitPrice)| + (if a in agentLeft then 0 else 1)
        decreases |ticks| - t
      {
        if t == |ticks| || |ticks[t]| != |agentLeft| {
          return Err(OutOfDecisions);
        }
        var stop := Tick(ticks[t], pick);
        if stop.Err? {
          return Err(stop.error);
        }
        if stop.value {
          return Ok(winner.value);
        }
        t := t + 1;
      }
    }

    /**
     * The payout loop at the end of `run`: the winner's profit is its value
     * less the price and the final price is appended to its exit prices;
     * every other bidder earns zero. Every bidder gets one win flag.
     */
    method PayOut(sale: ClockSale)
      requires Valid()
      modifies (set a | a in agents)`profit, (set a | a in agents)`winning, (set a | a in agents)`exitPrice
      ensures forall k :: 0 <= k < |agents| ==>
        && agents[k].winning == old(agents[k].winning) + [agents[k].name == sale.winner]
        && agents[k].profit == old(agents[k].profit)
           + [ClockProfit(agents[k].name == sale.winner, agents[k].currentValue, sale.price)]
        && agents[k].exitPrice == old(agents[k].exitPrice)
           + PayOutExitsAsWritten(agents[k].name == sale.winner, sale.price)
    {
      var k := 0;
      while k < |agents|
        invariant 0 <= k <= |agents|
        invariant forall j :: 0 <= j < k ==>
          && agents[j].winning == old(agents[j].winning) + [agents[j].name == sale.winner]
          && agents[j].profit == old(agents[j].profit)
             + [ClockProfit(agents[j].name == sale.winner, agents[j].currentValue, sale.price)]
          && agents[j].exitPrice == old(agents[j].exitPrice)
             + PayOutExitsAsWritten(agents[j].name == sale.winner, sale.price)
        invariant forall j :: k <= j < |agents| ==>
          agents[j].winning == old(agents[j].winning) && agents[j].profit == old(agents[j].profit)
          && agents[j].exitPrice == old(agents[j].exitPrice)
      {
        var agent := agents[k];
        DistinctAt(agents, k);
        var won := agent.name == sale.winner;
        agent.profit := agent.profit + [ClockProfit(won, agent.currentValue, sale.price)];
        agent.exitPrice := agent.exitPrice + PayOutExitsAsWritten(won, sale.price);
        agent.winning := agent.winning + [won];
        k := k + 1;
      }
    }

    /**
     * `run`: the ticks until a winner is declared, then the payout. On
     * success the winner is a bidder of the auction, the price has moved one
     * step past the winning price, and every bidder gets one profit entry and
     * one win flag. A bidder gains one exit price when it left during the
     * ticks and one more when it is the winner, so a winner drawn after
     * everybody left in the final tick gets two: its exit at the winning
     * price and the winning price the payout appends.
     */
    method Run(ticks: seq<seq<Decision>>, pick: nat) returns (r: Result<ClockSale>)
      requires Valid() && exitList == [] && winner == None
      requires agentLeft == (if direction.Ascend? then agents else [])
      modifies this`agentLeft, this`exitNumber, this`bidList, this`exitList, this`transcript
      modifies this`clock, this`winner, this`currentPrice
      modifies (set a | a in agents)`profit, (set a | a in agents)`winning, (set a | a in agents)`exitPrice
      ensures r.Ok? ==>
        winner == Some(r.value) && r.value.winner in Names(agents)
        && Ok(currentPrice) == NextPrice(direction, r.value.price, change)
      ensures r.Ok? ==> r.value.winner in ExitedAt(exitList, r.value.price)
      ensures r.Err? ==> r.error == OutOfDecisions || (r.error == EmptyChoice && agents == [])
      ensures r == Err(OutOfDecisions) ==> (old(clock) <= clock <= old(clock) + |ticks|
        && (clock == old(clock) + |ticks| || |ticks[clock - old(clock)]| != |agentLeft|))
      ensures direction.Descend? ==> r == Err(OutOfDecisions)
      ensures r.Ok? ==> forall k :: 0 <= k < |agents| ==>
        && agents[k].winning == old(agents[k].winning) + [agents[k].name == r.value.winner]
        && agents[k].profit == old(agents[k].profit)
           + [ClockProfit(agents[k].name == r.value.winner, agents[k].currentValue, r.value.price)]
        && |agents[k].exitPrice| == |old(agents[k].exitPrice)|
           + (if agents[k] in agentLeft then 0 else 1) + (if agents[k].name == r.value.winner then 1 else 0)
        && (agents[k].name == r.value.winner ==> agents[k].exitPrice[|agents[k].exitPrice| - 1] == r.value.price)
      ensures r.Ok? ==> |agentLeft| <= 1 && (agentLeft != [] ==> agentLeft[0].name == r.value.winner)
      ensures r.Ok? && agentLeft == [] ==> forall k :: 0 <= k < |agents| && agents[k].name == r.value.winner ==>
        |agents[k].exitPrice| == |old(agents[k].exitPrice)| + 2
    {
      r := RunTicks(ticks, pick);
      if r.Ok? {
        label ticked:
        PayOut(r.value);
        forall k | 0 <= k < |agents|
          ensures |agents[k].exitPrice| == |old(agents[k].exitPrice)|
            + (if agents[k] in agentLeft then 0 else 1) + (if agents[k].name == r.value.winner then 1 else 0)
        {
          var a := agents[k];
          assert |old@ticked(a.exitPrice)| == |old(a.exitPrice)| + (if a in agentLeft then 0 else 1);
        }
      }
    }
  }
}
