/**
 * Shared vocabulary of the auction engine: optional values, the exceptions the
 * Python code raises, the string-valued rule options (as closed enumerations with
 * one constructor for every value the code does not recognise), and the two ways
 * the code consumes randomness: `random.choice` and `random.randint`.
 */
module Base {

  datatype Option<T> = None | Some(value: T)

  /** The exceptions the engine raises, named by their cause. */
  datatype Error =
    | RuleNotAllowed   // ValueError(f"Rule {...} not allowed")
    | BadFormat        // ValueError raised by a tag parser
    | UnboundWinner    // UnboundLocalError: `winner` / `price` were never assigned
    | EmptyChoice      // IndexError: random.choice or [0] on an empty list
    | MissingKey       // KeyError on a dict lookup
    | BidFailed        // RuntimeError("Failed to process the bid after multiple attempts.")
    | OutOfDecisions   // the supplied decisions ran out while the source would keep asking
    | EmptyRange       // ValueError raised by random.randint(lo, hi) when lo > hi
    | MissingAttribute // AttributeError: an attribute that was never assigned
    | IndexOutOfRange  // IndexError on a list index

  datatype Result<T> = Ok(value: T) | Err(error: Error)

  /** `rule.price_order` */
  datatype PriceOrder = First | Second | Third | AllPay | UnknownPriceOrder

  /** `rule.private_value` */
  datatype ValueModel = Private | Common | Affiliated | UnknownValueModel

  /** `rule.ascend_descend` */
  datatype Direction = Ascend | Descend | UnknownDirection

  /** `rule.open_blind` */
  datatype Information = Open | Blind | UnknownInformation

  /**
   * Which copy of the duplicated sealed-bid and clock code is meant:
   * Plan = src/util_plan.py, IntBids = src/util.py, FloatBids = test/util_human.py.
   */
  datatype Variant = Plan | IntBids | FloatBids

  /**
   * `random.randint(lo, hi)`: the supplied draw `d` is reduced into the closed
   * range, so every natural number is a legal draw and every value in the range
   * is the result of some draw (RandIntCovers).
   */
  function RandInt(lo: int, hi: int, d: nat): (r: int)
    requires lo <= hi
    ensures lo <= r <= hi
  {
    lo + d % (hi - lo + 1)
  }

  lemma RandIntCovers(lo: int, hi: int, v: int)
    requires lo <= v <= hi
    ensures RandInt(lo, hi, (v - lo) as nat) == v
  {
  }

  /**
   * `random.choice(s)`: the supplied pick is reduced modulo the length of the
   * list, so the result is always an element and every element can be chosen.
   */
  function Choice<T>(s: seq<T>, pick: nat): (r: T)
    requires |s| > 0
    ensures r in s
  {
    s[pick % |s|]
  }

  lemma ChoiceCovers<T>(s: seq<T>, k: nat)
    requires k < |s|
    ensures Choice(s, k) == s[k]
  {
  }

  /** Python's `int(x)` on a float: truncation toward zero. */
  function Trunc(x: real): (r: int)
    ensures x >= 0.0 ==> r as real <= x < r as real + 1.0
    ensures x < 0.0 ==> r as real - 1.0 < x <= r as real
  {
    if x >= 0.0 then x.Floor else -((-x).Floor)
  }

  /** The elements at positions `i` and `j` differ. */
  predicate Apart<T(==)>(s: seq<T>, i: int, j: int)
    requires 0 <= i < |s| && 0 <= j < |s|
  {
    s[i] != s[j]
  }

  /**
   * Whether a sequence has pairwise different elements. The quantifier is
   * only instantiated for the pairs a proof names through `Apart`, which
   * keeps it from being applied to every pair of positions in sight.
   */
  predicate Distinct<T(==)>(s: seq<T>)
  {
    forall i, j {:trigger Apart(s, i, j)} :: 0 <= i < j < |s| ==> Apart(s, i, j)
  }

  /** In a sequence without repetitions, the element at `k` occurs nowhere else. */
  lemma DistinctAt<T>(s: seq<T>, k: nat)
    requires Distinct(s) && k < |s|
    ensures forall j :: 0 <= j < |s| && j != k ==> s[j] != s[k]
  {
    forall j | 0 <= j < |s| && j != k
      ensures s[j] != s[k]
    {
      if j < k {
        assert Apart(s, j, k);
      } else {
        assert Apart(s, k, j);
      }
    }
  }

  /** Appending a new element keeps a sequence free of repetitions. */
  lemma DistinctSnoc<T>(s: seq<T>, x: T)
    requires Distinct(s) && x !in s
    ensures Distinct(s + [x])
  {
    var t := s + [x];
    forall i, j | 0 <= i < j < |t|
      ensures Apart(t, i, j)
    {
      if j < |s| {
        assert Apart(s, i, j);
      }
    }
  }
}
