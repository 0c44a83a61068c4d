# Auction mechanism engine of llm-auction

This project models the rule-enforcing core of the llm-auction experiments. In
those experiments, language-model agents bid in sealed-bid, clock, eBay-style
and two-item combinatorial auctions. The model covers the code that sits
between the language-model calls:

- the tag parsers that turn a reply into a bid or an action;
- the sealed-bid resolution of winner, price, profits and win flags;
- the ascending clock state machine;
- eBay proxy bidding, with its soft close and reserve price;
- the two-item allocation, the menu rule and the sequential merge;
- the value tables drawn for every round;
- the round loop of the repeated auction.

Every decision an agent takes is a parameter of the model: a submitted bid,
a "yes"/"no" answer in a clock tick, or a parsed eBay reply. So is every
random draw:
- the index given to `random.choice`;
- the permutation given to `random.sample`;
- the stream of numbers behind `random.randint`.

`random.choice(l)` is `l[pick % |l|]`. `random.randint(lo, hi)` is
`lo + d % (hi - lo + 1)`, for a supplied `d`. Lemmas show that every element
or value in range is reachable this way. A Python exception such as
`ValueError`, `KeyError`, `IndexError` or a never-bound variable becomes an
`Err` result with its own error kind.

The source has four near-identical copies of the auction code:
- `src/util_plan.py`, the plan variant, with all-pay and affiliated values;
- `src/util.py`, which sorts sealed bids by `int(bid)`;
- `test/util_human.py`, which sorts by `float(bid)`;
- `src/util_ebay.py`, the eBay auction.

The model states each variant's differences explicitly (`Variant`, `Dialect`)
and shares the rest.

Modules, one per file:

| module | file | what it holds |
|---|---|---|
| `Base` | `base.dfy` | shared things: `Option`, `Result`, the error kinds, the rule enumerations, `RandInt`, `Choice`, `Distinct` |
| `Ranking` | `ranking.dfy` | Python's stable `sorted(..., reverse=True)` as an insertion sort, and list comprehension filters |
| `TagParse` | `tag_parse.dfy` | `parse_bid`, `parse_action` and `parse_action_and_amount`, with `re.search` read as the leftmost match |
| `Bidders` | `bidders.dfy` | the `Bidder` record that every format appends to |
| `Sealed` | `sealed.dfy` | `SealBid.run` and `declare_winner_and_price` |
| `ClockAuction` | `clock.dfy` | the `Clock` class |
| `EbayAuction` | `ebay.dfy` | the `Ebay` class |
| `Combinatorial` | `combinatorial.dfy` | `determine_payment`, `determine_winner_sequ` and the merge at the end of `seq_bid` |
| `Values` | `values.dfy` | every `draw_value` |
| `Repeated` | `auction.dfy` | `Auction.run`, `update_bidders`' state change and `run_repeated` of `src/util.py` |

## Model

| member | source | states |
|---|---|---|
| Base.RandIntCovers | llm-auction-main/src/util_plan.py:712-731 | every integer in `[lo, hi]` is what `random.randint(lo, hi)` returns for some draw |
| Base.ChoiceCovers | llm-auction-main/src/util_plan.py:311 | every element of a non-empty list is what `random.choice` returns for some draw |
| Ranking.SortPerm | llm-auction-main/src/util_plan.py:306 | the descending sort is a permutation of the bids |
| Ranking.SortSorted | llm-auction-main/src/util_plan.py:306 | the descending sort's keys never increase |
| Ranking.SortStable | llm-auction-main/src/util_plan.py:306 | the sort is stable: entries with equal keys keep their submission order |
| Ranking.SortHeadIsMax | llm-auction-main/src/util_plan.py:306 | the head of the sorted list has the largest key |
| TagParse.ParseBid | llm-auction-main/src/util_plan.py:141-157 | a parsed bid is a non-negative number; a failure is always the format error |
| TagParse.ParseBidSpec | llm-auction-main/src/util_plan.py:141-157 | parse_bid fails exactly when no substring matches `<BID>.*?(\d+).*?<\\?BID>`, with `\d` an ASCII digit and letter case ignored for ASCII letters; otherwise it returns the value of the leftmost match's digit run, which is the first digit run after that `<BID>`, taken whole |
| TagParse.BidRoundTrip | llm-auction-main/src/util_plan.py:141-157 | writing `n` in decimal between an opening and any accepted closing tag, in any letter case, parses back to `n` |
| TagParse.ParseBidBackslashRoundTrip | llm-auction-main/src/util_plan.py:141-157 | `<BID>n<\BID>` parses to `n` |
| TagParse.ParseBidRejectsSlashClose | llm-auction-main/src/util_plan.py:143 | `<BID>20</BID>` raises the format error, because the closing alternation `<\\?BID>` has no `/` |
| TagParse.ParseBidCorrectedSlashRoundTrip | llm-auction-main/src/util_plan.py:141-157 | once `</BID>` is accepted as well, `<BID>n</BID>` parses to `n` |
| TagParse.ParseAction | llm-auction-main/src/util_plan.py:578-593 | the only failure is the format error, and a success is exactly "yes" or "no" |
| TagParse.ParseActionSpec | llm-auction-main/src/util_plan.py:578-593 | parse_action fails exactly when the reply, with its ASCII letters lower-cased, contains no `<action>\s*(yes\|no)\s*(closing tag)` match; otherwise it returns the word of the leftmost match |
| TagParse.ParseActionRoundTrip | llm-auction-main/src/util_plan.py:578-593 | an action tag around "yes" or "no", written in any letter case, parses back to that decision |
| TagParse.FindActionSpec | llm-auction-main/src/util_ebay.py:342-350 | the action search, ignoring the case of ASCII letters, finds nothing exactly when there is no match anywhere; otherwise it finds the leftmost match |
| TagParse.FindAmountSpec | llm-auction-main/src/util_ebay.py:343-357 | the amount search, over ASCII digits and ignoring the case of ASCII letters, finds nothing exactly when no `<amount>` match exists; otherwise it finds the leftmost match |
| TagParse.ParseActionAndAmount | llm-auction-main/src/util_ebay.py:329-362 | an amount is never negative, a hold carries 0.0, and every failure is `ValueError` |
| TagParse.ParseActionAndAmountSpec | llm-auction-main/src/util_ebay.py:329-362 | with ASCII digits and ASCII letter case: it fails exactly when there is no action match, or when the leftmost action is "bid" and no amount matches anywhere; a bid carries the value of the leftmost amount match |
| TagParse.ParseBidOfferRoundTrip | llm-auction-main/src/util_ebay.py:329-362 | `<action>bid</action><amount>n</amount>` in any letter case parses to a bid of `n` |
| TagParse.ParseHoldRoundTrip | llm-auction-main/src/util_ebay.py:358-362 | `<action>hold</action>` parses to a hold of 0.0, with no amount needed |
| Bidders.Bidder.BuildBidder | llm-auction-main/src/util.py:381-395 | selecting round `r` sets the current private and common values to that round's values and leaves every appended list alone |
| Bidders.Bidder.Record | llm-auction-main/src/util_plan.py:338-357 | appends exactly one win flag and the given profit entries, and nothing else changes |
| Sealed.ResolveWith | llm-auction-main/src/util_plan.py:304-335 | a resolved sale's price is one of the bids and its winner is one of the bidders |
| Sealed.Resolve | llm-auction-main/src/util_plan.py:304-335 | the float-keyed resolution succeeds exactly for an allowed rule with at least the rule's rank of bids; an unknown rule or all-pay outside the plan variant is `ValueError`, and too few bids leave `winner` unbound |
| Sealed.ResolveAsWritten | llm-auction-main/src/util.py:163-187 | the resolution with each copy's own sort key (`int(bid)` in `src/util.py`) fails in exactly the same cases as `Resolve` |
| Sealed.ResolveByRank | llm-auction-main/src/util_plan.py:306-319 | a successful resolution sells to the drawn tie at the bid in the rule's rank of the sorted list |
| Sealed.ResolveSpec | llm-auction-main/src/util_plan.py:304-335 | the resolution fails exactly for:<br>- an unknown rule (`ValueError`);<br>- all-pay outside the plan variant;<br>- fewer bids than the rule's rank, where `winner` stays unbound.<br>Otherwise the winner is drawn from the bids equal to the maximum. First price and all-pay charge the maximum. The price has the rule's rank: fewer than rank bids lie above it and at least rank bids lie at or above it |
| Sealed.WinnerBidIsMax | llm-auction-main/src/util_plan.py:306-331 | the winner submitted the largest bid |
| Sealed.EveryTopBidCanWin | llm-auction-main/src/util_plan.py:309-312 | every bid equal to the maximum wins, at the same price, for some tie-break draw |
| Sealed.DrawOfTie | llm-auction-main/src/util_plan.py:309-312 | drawing the `k`-th tie sells to that bid's bidder at the same price as every other draw |
| Sealed.FloatCopiesAsWritten | llm-auction-main/test/util_human.py:163-186 | the float-keyed copies resolve exactly as the corrected resolution does |
| Sealed.TruncatedKeyPicksLowerBid | llm-auction-main/src/util.py:165-172 | with the `int(bid)` sort key, bids 10.2 and 10.7 make the 10.2 bidder the winner at 10.2; with the bid itself as key, the 10.7 bidder wins |
| Sealed.TruncatedWinnerIsTop | llm-auction-main/src/util.py:165-172 | with the `int(bid)` key the winner holds a bid whose integer part is the largest of all bids |
| Sealed.TopTiesMembers | llm-auction-main/src/util_plan.py:309-310 | an entry is a top tie exactly when it is a bid equal to the maximum |
| Sealed.SortedTies | llm-auction-main/src/util_plan.py:306-310 | the tie list built from the sorted bids is exactly the bids equal to the maximum, in submission order |
| Sealed.SortedPriceRank | llm-auction-main/src/util_plan.py:314-325 | `sorted[n-1]` has fewer than `n` bids strictly above it and at least `n` bids at or above it |
| Sealed.LastBidOfUnique | llm-auction-main/src/util_plan.py:340-342 | a bidder with exactly one entry in `bid_list` is charged that entry under all-pay, whatever was carried over |
| Sealed.AllPayChargesOwnBid | llm-auction-main/src/util_plan.py:338-347 | under all-pay, with distinct names, every bidder is charged its own bid |
| Sealed.Payout | llm-auction-main/src/util_plan.py:338-357 | the profit entry of one bidder:<br>- all-pay: value less the bidder's own bid for the winner, minus that bid for everybody else;<br>- other rules, a loser: zero;<br>- other rules, the winner: value less the price (private), or the common value less the price (common); `src/util.py` (lines 189-194) subtracts `int(price)` instead;<br>- the plan variant treats an affiliated winner like a private one.<br>No entry is appended exactly for a winner under any other value model |
| Sealed.ExactlyOneWinner | llm-auction-main/src/util_plan.py:348-357 | with distinct names, exactly one bidder gets a True win flag |
| Sealed.PrivateProfitsSum | llm-auction-main/src/util_plan.py:348-357 | outside all-pay, under private values, the profits of all bidders add up to the winner's value less the price |
| Sealed.SealBid.Run | llm-auction-main/src/util_plan.py:160-300 | every bid is appended to `bid_list` and to its bidder's `submitted_bids`. The result is the new list resolved with the copy's own sort key: `int(bid)` for `src/util.py`, the bid for the float copies. Each bidder receives one win flag and its profit entry; on an error no flag or profit changes |
| Sealed.SealBid.DeclareWinnerAndPrice | llm-auction-main/src/util_plan.py:304-357 | the result is `bid_list` resolved with the copy's own sort key (`int(bid)` in `src/util.py`, lines 163-198). On success `winner` is recorded and every bidder receives one win flag and its `Payout` entry; on an error nothing changes |
| Sealed.SealBid.PayOut | llm-auction-main/src/util_plan.py:338-357 | the per-bidder loop appends exactly the flag and entry that `Payout` gives for each bidder |
| ClockAuction.NextPrice | llm-auction-main/src/util.py:230-237 | ascend adds the increment, descend subtracts it, and anything else is `ValueError` |
| ClockAuction.AscendingPriceAfter | llm-auction-main/src/util_plan.py:389-395 | after `n` ascending ticks the price is the start plus `n` increments |
| ClockAuction.AscendingPriceMonotone | llm-auction-main/src/util_plan.py:389-395 | with a non-negative increment the ascending price never falls |
| ClockAuction.ShareInformation | llm-auction-main/src/util_plan.py:596-604 | a summary is produced exactly under open information, and it holds the tick number, the price and the exit count |
| ClockAuction.SplitCount | llm-auction-main/src/util_plan.py:456-465 | every bidder asked in a tick either stays or leaves |
| ClockAuction.SplitMembers | llm-auction-main/src/util_plan.py:456-465 | stayers and leavers are bidders of the tick; "yes" makes a stayer and "no" a leaver |
| ClockAuction.SplitDistinct | llm-auction-main/src/util_plan.py:456-465 | of distinct bidders, nobody both stays and leaves |
| ClockAuction.StaysIffYes | llm-auction-main/src/util_plan.py:456-465 | of distinct bidders, one is still active after the tick exactly when it answered "yes" |
| ClockAuction.TickLeave | llm-auction-main/src/util_plan.py:456-465 | a "no" removes the bidder from `agent_left`, adds it to the leavers and logs one exit at the current price |
| ClockAuction.TickStay | llm-auction-main/src/util_plan.py:456-465 | a "yes" changes only the tick's `bid_list` |
| ClockAuction.RemoveFirstAfter | llm-auction-main/src/util_plan.py:458 | `list.remove` drops exactly the first occurrence |
| ClockAuction.ExitLogOfLeavers | llm-auction-main/src/util_plan.py:459-461 | the exit log names the leavers in the order they left, each at the tick's price |
| ClockAuction.ExitedAt | llm-auction-main/src/util_plan.py:616-619 | the names in the list are exactly those with an exit entry at the given price |
| ClockAuction.AllLeftAllExited | llm-auction-main/test/util_human.py:336-341 | when everybody active leaves in one tick, each of them is among the exits at the final price, so the draw never meets an empty list |
| ClockAuction.AsWrittenExitsPerRun | llm-auction-main/src/util_plan.py:459-461 | as written, a bidder gains one exit price for a run, or two when it both left in a tick and won; a winner drawn at its own exit price gets that price twice |
| ClockAuction.PayOutExitsAsWritten | llm-auction-main/src/util_plan.py:568-570 | the payout appends the final price once to the winner and nothing to anybody else |
| ClockAuction.PayOutExits | llm-auction-main/src/util_plan.py:568-570 | the corrected payout appends the final price once to a winner still active, and nothing otherwise |
| ClockAuction.OneExitPricePerRun | llm-auction-main/src/util_plan.py:566-574 | with the payout corrected, every bidder gets exactly one exit price per run: a leaver its exit price, the sole survivor the final price |
| ClockAuction.ClockProfit | llm-auction-main/src/util.py:302-312 | the winner earns its value less the price, and everybody else zero |
| ClockAuction.Clock.Dynamic | llm-auction-main/src/util_plan.py:389-395 | the price moves by one increment, up or down according to the direction |
| ClockAuction.Clock.Ask | llm-auction-main/src/util_plan.py:456-465 | asking the `k`-th bidder extends `agent_left`, `exit_number`, `exit_list`, `bid_list` and the bidder's exit prices from the first `k` answers to the first `k + 1` |
| ClockAuction.Clock.AskAll | llm-auction-main/src/util_plan.py:455-463 | the ascending tick over `agent_left`: it becomes the stayers, `exit_number` counts the leavers, `exit_list` and `bid_list` gain the tick's entries, and each leaver gains the current price as an exit price |
| ClockAuction.Clock.RunOneClock | llm-auction-main/src/util_plan.py:397-478 | after a tick:<br>- `agent_left` holds the stayers, in order, and nothing new;<br>- `exit_number` counts the leavers;<br>- `exit_list` gains one entry per leaver at the current price;<br>- `bid_list` gains one entry per answer;<br>- each leaver gains one exit price;<br>- the transcript gains the shared summary |
| ClockAuction.Clock.AskRound | llm-auction-main/src/util_plan.py:556-560 | `bid_list` cleared, the tick, the clock counted: `agent_left` becomes the stayers, a bidder gains an exit price exactly when it left, and when everybody left each of them is among the exits at the current price |
| ClockAuction.Clock.DeclareWinnerAndPrice | llm-auction-main/src/util_plan.py:606-622 | ascending:<br>- a sole survivor wins at the current price, is logged in `exit_list`, and the result is True;<br>- with several survivors the result is False and nothing changes;<br>- with nobody left, the winner is drawn among the exits at the current price, and an empty list is the `IndexError`.<br>Descending: False |
| ClockAuction.Clock.Tick | llm-auction-main/src/util_plan.py:554-563 | one pass of the run loop:<br>- the tick;<br>- the winner check;<br>- unless the winner check raised, a move of the price by one step.<br>`agent_left` becomes the bidders of the tick who answered "yes", in order. A declared winner is a bidder logged in `exit_list` at the winning price: the sole survivor, or one drawn among that price's exits. The draw fails only when nobody was active |
| ClockAuction.Clock.RunTicks | llm-auction-main/src/util_plan.py:553-564 | the loop ends with a winner who is a bidder of the auction and holds an `exit_list` entry at the winning price. An error is either running out of decisions or an empty draw in an auction with no bidders. Running out of decisions happens only after every tick was used, or at a tick whose answers do not match the bidders still active. A descending clock always runs out |
| ClockAuction.Clock.PayOut | llm-auction-main/src/util_plan.py:566-574 | each bidder gains one profit (its value less the price for the winner, zero otherwise) and one win flag; as written, the winner also gains the final price as an exit price, even when it already logged one on leaving |
| ClockAuction.Clock.Run | llm-auction-main/src/util_plan.py:479-575 | on success the winner is a bidder, it holds an `exit_list` entry at the winning price, and the price has moved one step past the winning price. Every bidder has exactly one new profit and one new win flag. Its exit prices grow by one if it left in a tick and by one more if it is the winner, so a winner drawn after everybody left gains two. The winner's last exit price is the price. Each bidder's new profit is `ClockProfit`: value less price for the winner, zero for everybody else. An error is either running out of decisions or an empty draw with no bidders. Running out of decisions happens only after every tick was used, or at a tick whose answers do not match the bidders still active. A descending clock never ends |
| EbayAuction.LeaderIsMax | llm-auction-main/src/util_ebay.py:252-260 | the highest bidder holds a maximum at least as large as every agent's maximum |
| EbayAuction.Leader | llm-auction-main/src/util_ebay.py:252-260 | the highest bidder is a position among the agents |
| EbayAuction.SecondBid | llm-auction-main/src/util_ebay.py:252-262 | `second_bid` is 0 with at most one agent, and otherwise one of the agents' maxima |
| EbayAuction.NewPrice | llm-auction-main/src/util_ebay.py:261-277 | with a positive runner-up the price never exceeds the leader's maximum; without one it is at least the start price |
| EbayAuction.LeaderIsFirst | llm-auction-main/src/util_ebay.py:252-260 | among equal maxima the agent listed first leads |
| EbayAuction.SecondBidIsRunnerUp | llm-auction-main/src/util_ebay.py:252-262 | with two or more agents, `second_bid` is the largest maximum of a non-leader, and is at most the leader's |
| EbayAuction.PriceBetweenTopTwo | llm-auction-main/src/util_ebay.py:261-269 | with a positive runner-up and a non-negative increment, the new price is min(top, second + increment), which lies between the two |
| EbayAuction.PriceWithoutRunnerUp | llm-auction-main/src/util_ebay.py:270-277 | without a positive runner-up, the price is max(current, start), replaced by start when the top maximum exceeds it |
| EbayAuction.NoBidsFirstAgentLeads | llm-auction-main/src/util_ebay.py:252-260 | when nobody holds a positive maximum, the first agent leads |
| EbayAuction.FirstAccepted | llm-auction-main/src/util_ebay.py:218-221 | the first reply that parses and is accepted, or none exactly when no such reply exists |
| EbayAuction.Accepts | llm-auction-main/src/util_ebay.py:218-221 | a hold is always accepted, and a bid exactly when it is not below the agent's previous maximum |
| EbayAuction.SelectOffer | llm-auction-main/src/util_ebay.py:159-229 | an accepted offer is one of the replies and never lowers the agent's maximum; a first reply that does not parse aborts the run (`RuntimeError`); otherwise the model runs out of answers only when none is accepted |
| EbayAuction.Apply | llm-auction-main/src/util_ebay.py:239-249 | the maxima keep their number: a bid overwrites the agent's maximum and a hold changes nothing |
| EbayAuction.AcceptedNeverLowers | llm-auction-main/src/util_ebay.py:218-249 | an accepted action never lowers anybody's maximum |
| EbayAuction.OrderingVisitsOnce | llm-auction-main/src/util_ebay.py:116-118 | a `random.sample` ordering visits every agent exactly once |
| EbayAuction.PeriodNamesEachAgentOnce | llm-auction-main/src/util_ebay.py:116-145 | with distinct names, the snapshots of one period name every agent exactly once |
| EbayAuction.Decide | llm-auction-main/src/util_ebay.py:286-297 | there is no sale exactly when nobody leads or the price is below the reserve; otherwise the leader buys at the current price |
| EbayAuction.Ebay.constructor | llm-auction-main/src/util_ebay.py:60-103 | every maximum starts at 0, the price at the start price, and there is no leader and no log |
| EbayAuction.Ebay.GetAgentAction | llm-auction-main/src/util_ebay.py:159-229 | the action returned is the one `SelectOffer` picks against the agent's current maximum |
| EbayAuction.Ebay.ProcessAction | llm-auction-main/src/util_ebay.py:231-283 | the maxima are updated by the action; the leader is the ranking's top agent and the price is the proxy-bidding price |
| EbayAuction.Ebay.Turn | llm-auction-main/src/util_ebay.py:116-145 | one visit: ask, update, and append one snapshot; a failure leaves the maxima and the leader alone. On success the new maxima, leader and price are `Advance` of the old ones by the action, and the log gains exactly `Snapshot` of the new standing, whose logged amount is 0.0 for a hold |
| EbayAuction.Ebay.Visit | llm-auction-main/src/util_ebay.py:118-145 | one visit of a period: on success the log gains that turn's snapshot, the period has seen a bid exactly when an earlier visit or this one bid, and no maximum falls; a failure is `RuntimeError` or running out of answers and leaves the log alone. On success the new maxima, leader, price and log are the period fold `PeriodUpTo` through this turn; a failure is the reply selection's error and the whole period's fold fails with it |
| EbayAuction.Ebay.PeriodStep | llm-auction-main/src/util_ebay.py:132-145 | appending a visit's snapshot extends the period's log by that visit |
| EbayAuction.Ebay.Period | llm-auction-main/src/util_ebay.py:116-145 | a period keeps the earlier log and appends one snapshot per visit; no maximum falls; the result says whether some visit bid. The final maxima, leader, price, appended snapshots and flag are exactly `PeriodUpTo` over the whole ordering, and an error is that fold's error |
| EbayAuction.Ebay.Run | llm-auction-main/src/util_ebay.py:106-156 | `total_periods` only grows, up to max(initial, 20), and not at all without the soft close; no maximum falls; the outcome is `_finalize_auction`'s decision, and every period is logged one snapshot per agent. On success the final maxima, leader, price, appended snapshots and period count are exactly the run fold `RunUpTo` over `total_periods` periods. On an error there is a period `n` that the fold completes, still inside its period count, and the fold through period `n + 1` fails with exactly that error |
| EbayAuction.Ebay.RunStep | llm-auction-main/src/util_ebay.py:112-148 | a completed period's log extends the run's log by one period, leaving the earlier periods' logs in place |
| EbayAuction.Ebay.Advance | llm-auction-main/src/util_ebay.py:231-283 | `_process_actions` on one action: the acting agent's maximum alone may change, and the leader becomes the ranking's top agent |
| EbayAuction.Ebay.Snapshot | llm-auction-main/src/util_ebay.py:132-145 | the `AuctionStatus` of a turn records its period, turn, agent and action, with the price and leader after the update. It logs an amount of 0.0 for a hold, as `parse_action_and_amount` returns, and the offer's amount otherwise. It also logs the maxima after the update, the agent's value and the reserve price |
| EbayAuction.Ebay.PeriodUpTo | llm-auction-main/src/util_ebay.py:116-145 | the fold of the first `n` visits of a period: on success one snapshot per visit and one maximum per agent; a failure is `RuntimeError` or running out of answers |
| EbayAuction.Ebay.VisitAfter | llm-auction-main/src/util_ebay.py:118-145 | visit `m` of a period after the first `m`: on success the period log has `m + 1` snapshots and one maximum per agent; a failure is `RuntimeError` or running out of answers |
| EbayAuction.Ebay.PeriodErrSticks | llm-auction-main/src/util_ebay.py:118-124 | once a visit fails, every longer prefix of the period fails with the same error: the exception ends the run |
| EbayAuction.Ebay.PeriodFailsAt | llm-auction-main/src/util_ebay.py:118-124 | a visit whose reply selection fails, or that has no answers, makes the whole period fail with that error |
| EbayAuction.Ebay.PeriodUpToLogged | llm-auction-main/src/util_ebay.py:116-145 | the fold's snapshots are the period's log of the visited agents, its flag says exactly whether a snapshot is a bid, and no maximum falls |
| EbayAuction.Ebay.PeriodDone | llm-auction-main/src/util_ebay.py:116-145 | a completed period's log has one snapshot per agent of the ordering, logged in order; its flag is whether one of them bid; no maximum falls |
| EbayAuction.Ebay.VisitLogged | llm-auction-main/src/util_ebay.py:118-145 | one accepted visit extends the period's log by its snapshot, keeps it logged, raises the flag exactly on a bid, lowers no maximum, and is the fold through this turn |
| EbayAuction.Ebay.SoftClose | llm-auction-main/src/util_ebay.py:148-153 | the soft close either leaves the period count and flag alone or, with `closing` on and a bid seen, adds one period, at most 20, and clears the flag |
| EbayAuction.Ebay.RunUpTo | llm-auction-main/src/util_ebay.py:106-153 | the fold of the first `n` periods: on success one snapshot per agent per period, and a period count no smaller than the initial one; a failure is `RuntimeError` or running out of answers |
| EbayAuction.Ebay.PeriodAfter | llm-auction-main/src/util_ebay.py:112-153 | period `m` after the first `m`, with the soft close after it: on success one snapshot per agent for each of `m + 1` periods, one maximum per agent, and a period count no smaller than the initial one; a failure is `RuntimeError` or running out of answers |
| EbayAuction.Ebay.RunPeriodDone | llm-auction-main/src/util_ebay.py:112-153 | a completed period from the standing reached extends the run fold by that period and the soft close after it |
| EbayAuction.Ebay.RunSoFarStep | llm-auction-main/src/util_ebay.py:112-153 | the run so far, extended by a completed, logged period and the soft close, is the run so far through that period |
| EbayAuction.Ebay.RunPeriod | llm-auction-main/src/util_ebay.py:112-153 | one pass of `run`'s loop: the period and the soft close; `total_periods` grows only by the soft close, no maximum falls, and on success the new state is the run fold through this period. On an error the run fold through this period fails with that same error |
| EbayAuction.Ebay.Finalize | llm-auction-main/src/util_ebay.py:286-297 | no sale exactly when nobody leads or the price is below the reserve |
| EbayAuction.SaleGoesToTopMaximum | llm-auction-main/src/util_ebay.py:279-297 | a sale goes to an agent whose maximum is at least every agent's maximum, at a price no lower than the reserve |
| Combinatorial.TopOf | llm-auction-main/test/util_CA.py:504-512 | an item has no amount exactly when its list of top bidders is empty |
| Combinatorial.TopOfSpec | llm-auction-main/test/util_CA.py:504-512 | after the scan, an item's amount is absent exactly when nobody bid on it; otherwise it is the largest bid on it, attained by some record, and the list holds exactly the agents that bid it, in `bid_list` order |
| Combinatorial.ItemFirstPrice | llm-auction-main/test/util_CA.py:515-523 | each item goes to a bidder who bid its price, and that price is the item's top bid |
| Combinatorial.SettleFirstPrice | llm-auction-main/test/util_CA.py:498-523 | simultaneous and sequential: each item goes to one of its top bidders at the top bid; the call fails exactly when some record bids on an untracked item or an item has no bid |
| Combinatorial.SettleMenu | llm-auction-main/test/util_CA.py:549-577 | menu: when the top AB bid beats top A plus top B, one top AB bidder gets both items at half the AB bid each; otherwise each item goes to one of its own top bidders at that bid |
| Combinatorial.SettleUnknownType | llm-auction-main/test/util_CA.py:592-594 | any other type is `ValueError` |
| Combinatorial.Settle | llm-auction-main/test/util_CA.py:496-594 | an unknown type is `ValueError`, a bid on an untracked item is `KeyError`, and the only other failure is the menu's draw from an empty list |
| Combinatorial.Allocate | llm-auction-main/test/util_CA.py:515-577 | menu with the AB bid above A plus B: one top AB bidder gets both items at half the AB bid each. Otherwise it fails exactly when an item has no bid (`KeyError`, or the empty draw under the menu), and each item goes to one of its top bidders at its top bid |
| Combinatorial.ItemsProfit | llm-auction-main/test/util_CA.py:525-540 | winning both items pays 2·vA + 2·vB − pA − pB, one item its value less its price, none zero |
| Combinatorial.DetermineWinnerSequSpec | llm-auction-main/test/util_CA.py:597-609 | it fails exactly when a record has no A bid (`KeyError`) or there are no records (unbound winner); otherwise the winner submitted the bid map that is the price, and that map holds the largest A bid |
| Combinatorial.DetermineWinnerSequ | llm-auction-main/test/util_CA.py:597-609 | a record without an A bid is `KeyError`, no records leave `winner` unbound, and a success means every record bid on A |
| Combinatorial.EveryTopRecordCanWinA | llm-auction-main/test/util_CA.py:600-603 | every record whose bid map equals the price wins for some draw |
| Combinatorial.FirstAppearanceSpec | llm-auction-main/test/util_CA.py:366-378 | the merged list has no repeated agent and names exactly the agents that bid |
| Combinatorial.SequentialMerge | llm-auction-main/test/util_CA.py:366-380 | merging the stage-A records and then the stage-B records of distinct agents gives one record per agent, in order, holding its A and B bids |
| Combinatorial.MergeBids | llm-auction-main/test/util_CA.py:366-380 | the loop's `list(combined_bids.values())` is exactly `MergedRecords` |
| Combinatorial.MergedLookup | llm-auction-main/test/util_CA.py:381-382 | an agent's merged bid map is found exactly when the agent has a record |
| Combinatorial.ItemBidder.BuildBidder | llm-auction-main/test/util_CA.py:902-916 | selects one round's pair of values and leaves the appended lists alone |
| Combinatorial.ItemBidder.Submit | llm-auction-main/test/util_CA.py:382 | appends exactly one bid map, and nothing else changes |
| Combinatorial.ItemBidder.Record | llm-auction-main/test/util_CA.py:525-542 | appends one win pair and one profit, and nothing else changes |
| Combinatorial.ItemAuction.ScanBids | llm-auction-main/test/util_CA.py:504-512 | the scan succeeds exactly when every item bid on is tracked (otherwise `KeyError`), and then each tracked item's entry is `TopOf` |
| Combinatorial.ItemAuction.DeterminePayment | llm-auction-main/test/util_CA.py:496-594 | the result is `Settle`'s; on success the winner is recorded and every bidder gets exactly one profit and one win pair; on an error nothing changes |
| Combinatorial.ItemAuction.PayOut | llm-auction-main/test/util_CA.py:525-542 | every bidder receives one win pair and the profit of the allocation |
| Combinatorial.ItemAuction.CombineStages | llm-auction-main/test/util_CA.py:366-382 | `bid_list` becomes the merged records. Each bidder appends its merged map. The call fails with `KeyError` exactly when some bidder has no record, and only bidders before the first missing one have appended |
| Values.TableSpec | llm-auction-main/src/util_plan.py:701-734 | the table is `round` × `number_agents`. Each common value is 0 for the private model and in `common_range` otherwise. Each value is its round's common value plus a private part in [0, private_range], or in [−private_range, private_range] for the common model of the plan variant |
| Values.FirstError | llm-auction-main/src/util_plan.py:701-734 | no error exactly when there are no rounds, or the model is recognised, the common range is non-empty unless values are private, and `private_range` is non-negative when there are bidders. `ValueError` exactly for an unrecognised model with rounds to draw; every other error is the empty-range error |
| Values.Table | llm-auction-main/src/util_plan.py:701-734 | the table has one row per round and one value per bidder in each row |
| Values.EveryValueDrawable | llm-auction-main/src/util.py:419-444 | every common value in range combined with every private part in range is drawn by some stream |
| Values.ValueDrawing.DrawValue | llm-auction-main/src/util_plan.py:701-734 | it fails exactly when `FirstError` says so: an unrecognised model is `ValueError`, and an empty range is `randint`'s error. On success the table is `Table`, with one common value appended per round. On an error the table is all zeros, and only a common value drawn before the failure is appended |
| Values.DrawCommon | llm-auction-main/src/util.py:424-435 | a round's common value: 0 for private, a draw from `common_range` otherwise, `ValueError` for an unknown model |
| Values.DrawRow | llm-auction-main/src/util.py:436-443 | one round's row is `Row`, unless `private_range` is negative and there is a bidder |
| Values.PairTableSpec | llm-auction-main/test/util_CA.py:940-968 | each bidder's A and B values are its round's common value plus parts in [0, private_range] |
| Values.EveryPairDrawable | llm-auction-main/test/util_CA.py:940-968 | every such pair of values is drawn by some stream |
| Values.PairDrawing.DrawValue | llm-auction-main/test/util_CA.py:940-968 | the same contract as `ValueDrawing.DrawValue`, with a pair of values per bidder |
| Repeated.Auction.Run | llm-auction-main/src/util.py:456-471 | an unknown format is `ValueError`. A clock with an unknown direction is the `AttributeError` on the unset `agent_left`. A sealed round without one offer per bidder runs out of decisions. A sealed round's winner is the winner of `src/util.py`'s `int(bid)`-keyed resolution of the offers, and a failed resolution is the round's error. On success the winner's name is appended to `winner_list`, every bidder holds a profit and a win flag for the round played, and in a clock round each loser has one new exit price and a profit of zero while the winner has one or two new exit prices. In a clock round each bidder's new profit is `ClockProfit` at the winning price: value less price for the winner, zero for everybody else |
| Repeated.Auction.Play | llm-auction-main/src/util.py:458-465 | the auction of the configured format. A sealed round's winner is the winner of the `int(bid)`-keyed resolution, and after a sale each bidder gains exactly its `SaleProfit` entry. In a clock round each bidder's new profit is `ClockProfit` at the winning price: value less price for the winner, zero for everybody else. A loser gains one exit price, the winner one or two |
| Repeated.Auction.Record | llm-auction-main/src/util.py:468-469 | the winner is appended to `winner_list`, and the result is the winner exactly when every bidder holds `profit[round_number]`; otherwise it is `IndexError` |
| Repeated.Auction.EveryProfitAt | llm-auction-main/src/util.py:469 | true exactly when `agent.profit[i]` exists for every bidder |
| Repeated.Auction.PlaySeal | llm-auction-main/src/util.py:116-198 | a sealed round appends each offer to its bidder's `submitted_bids`. Its result is the winner of the `int(bid)`-keyed resolution of the offers, or that resolution's error. After a sale each bidder gains one win flag and exactly its `SaleProfit` entry |
| Repeated.Auction.PlayClock | llm-auction-main/src/util.py:291-313 | a clock round gives each bidder one profit and one win flag, and the winner is a bidder. Each bidder's new profit is `ClockProfit` at the winning price: value less price for the winner, zero for a loser. A loser gains one exit price; the winner gains one or two exit prices |
| Repeated.Auction.UpdateBidders | llm-auction-main/src/util.py:557-561 | every bidder moves on to the next round's values, unless the last round was played |
| Repeated.Auction.RunRepeated | llm-auction-main/src/util.py:477-483 | on success all rounds are played; every bidder holds exactly one profit and one win flag per round; `winner_list` holds one name per round. The names for the earlier rounds stay in place. For every round played, `winner_list[i]` is a bidder, and bidder `k`'s win flag for round `i` is set exactly when `k` is that round's winner |
| Repeated.Auction.PlayRound | llm-auction-main/src/util.py:479-481 | on success one more round has been played and the auction's round invariant holds again. The round's winner `w` is a bidder appended to `winner_list`, and each bidder's new win flag says whether it is `w`. On an error the round number stays |

## Left out

- The language-model calls are parameters of the model. This covers `Model`, `Survey`, the question classes, the prompts and plan texts, and the retry loops that re-ask. Each agent's decision is an input: a bid, an answer, or a parsed reply.
- EbayAuction.SelectOffer: `attempt` is never incremented in `_get_agent_action`, so the source re-asks without bound. The model is given a finite list of replies and reports `OutOfDecisions` when none is accepted.
- The descending clock's resolution branch of `declear_winner_and_price` (`src/util_plan.py:623-635`) is not modelled; it calls `.name` on a list and never stores a winner. The model keeps what the source does before it: `agent_left` starts empty, nobody is asked, and the clock never ends (`OutOfDecisions`).
- `random.seed` and reproducibility are not modelled. Every call to `random` is a supplied draw, index or permutation.
- File output is not modelled: `save_json`, `data_to_json` and the CSV export of the eBay log.
- The natural-language history, transcript and summary texts are not modelled, including `update_bidders`' reading of `sorted_bids[1]` and `next(...)`. Of `share_information` only the open/blind choice and the numbers it reports are kept. Of `update_bidders` only the move to the next round's values is kept.
- The entry points (`main*.py`) are not modelled. They are command-line configuration and thread-pool concurrency.
- The `Rule*` constructors, `describe`, `__repr__`, `build_bidders` and the `PAC` stubs are not modelled. The fresh, distinct bidders `build_bidders` creates are the precondition of `Repeated.Auction.constructor`.
- `parse_bid` of `test/util_CA.py` is not modelled: it is a language-model call. In `seq_bid`, the records an agent submits in each stage are inputs.
- Bidders.Bidder: the source stores an exit price as `str(price)`, while the model keeps the integer.
- Floating-point bids and prices are modelled as exact reals, so rounding is not modelled.
- TagParse.ParseBidSpec: digits are the ASCII digits and letter case is ASCII case only. Python's `\d` also matches every other Unicode decimal digit, which `float()` accepts. Python's case-insensitive matching also equates some non-ASCII letters with ASCII ones, such as the dotless ı with i and the long ſ with s.
- TagParse.ParseActionSpec: digits are the ASCII digits and letter case is ASCII case only. Python's `\d` also matches every other Unicode decimal digit, which `float()` accepts. Python's case-insensitive matching also equates some non-ASCII letters with ASCII ones, such as the dotless ı with i and the long ſ with s.
- TagParse.FindActionSpec: digits are the ASCII digits and letter case is ASCII case only. Python's `\d` also matches every other Unicode decimal digit, which `float()` accepts. Python's case-insensitive matching also equates some non-ASCII letters with ASCII ones, such as the dotless ı with i and the long ſ with s.
- TagParse.FindAmountSpec: digits are the ASCII digits and letter case is ASCII case only. Python's `\d` also matches every other Unicode decimal digit, which `float()` accepts. Python's case-insensitive matching also equates some non-ASCII letters with ASCII ones, such as the dotless ı with i and the long ſ with s.
- TagParse.ParseActionAndAmountSpec: digits are the ASCII digits and letter case is ASCII case only. Python's `\d` also matches every other Unicode decimal digit, which `float()` accepts. Python's case-insensitive matching also equates some non-ASCII letters with ASCII ones, such as the dotless ı with i and the long ſ with s.
- Repeated.Auction.Run: for a sealed round it states the winner, the win flags and the profit count, but not each bidder's profit entry, which `Repeated.Auction.Play` and `Repeated.Auction.PlaySeal` state. Carrying those entries up one more call costs too much for the solver.
- Combinatorial.ItemAuction.DeterminePayment: under the menu the source stores only the names in `self.winner`; the model's winner also holds the two prices.
- EbayAuction.Participant: the eBay bidder is modelled as a value holding its name and current value. That bidder is built with `build_bidder(0)` only, so `value_list[0]` is all the auction reads.
- Values.ValueDrawing.DrawValue: `src/util.py`, `test/util_human.py` and `src/util_ebay.py` share one dialect (`StandardDraw`), because their `draw_value` bodies agree line for line.

## Findings

| source | as written | input that shows it | evidently intended | confidence | as-written member | corrected member |
|---|---|---|---|---|---|---|
| llm-auction-main/src/util_plan.py:143 | the closing tag alternation `<\\?BID>` accepts `<BID>` and `<\BID>` only | the reply `<BID>20</BID>`, the second format the surrounding comments give, raises `ValueError` | `</BID>` closes a bid as well | high, not executed | TagParse.ParseBidRejectsSlashClose | TagParse.ParseBidCorrectedSlashRoundTrip |
| llm-auction-main/src/util.py:165 | bids are sorted by `int(bid)` but ties are collected by comparing the raw bid with the head's | bids 10.2 (first) and 10.7 under first price: both keys are 10, the stable sort keeps 10.2 at the head, and the 10.2 bidder wins at 10.2 | the highest bid wins, as in the float copy of `test/util_human.py` | high, not executed | Sealed.TruncatedKeyPicksLowerBid | Sealed.WinnerBidIsMax |
| llm-auction-main/src/util_plan.py:459-461 | after a tick in which every active bidder leaves, the winner drawn from the exits already holds an exit price for the run, and the payout appends the final price again | an ascending run in which both remaining bidders answer "no" at price 100 gives the winner exit prices `[100, 100]` in one run | one exit price per bidder per run | medium, not executed | ClockAuction.AsWrittenExitsPerRun | ClockAuction.OneExitPricePerRun |
