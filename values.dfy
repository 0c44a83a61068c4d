/**
 * `draw_value`: the table of every bidder's value in every round. Each
 * round draws a common value (none for the private-value model) and then a
 * private part per bidder, and a bidder's value is the sum. The draws of
 * `random.randint` are supplied as a stream `draws`, consumed in the order the
 * source calls it.
 */
module Values {
  import opened Base
  import opened Combinatorial

  /** Which copy of `draw_value`: src/util_plan.py, or the identical one of src/util.py, test/util_human.py and src/util_ebay.py. */
  datatype Dialect = PlanDraw | StandardDraw

  /** The value models `draw_value` accepts: util_plan.py also accepts the affiliated one. */
  predicate Recognized(dialect: Dialect, model: ValueModel)
  {
    model == Private || model == Common || (dialect == PlanDraw && model == Affiliated)
  }

  /** How many draws a round spends on its common value. */
  function CommonDraws(model: ValueModel): (r: nat)
  {
    if model == Private then 0 else 1
  }

  /** How many draws a round spends, with `perAgent` private draws per bidder. */
  function Stride(model: ValueModel, n: nat, perAgent: nat): (r: nat)
  {
    CommonDraws(model) + perAgent * n
  }

  /** The lower end of the private part: the common-value model of util_plan.py draws it from [-pr, pr]. */
  function PrivateLow(dialect: Dialect, model: ValueModel, pr: int): (r: int)
  {
    if dialect == PlanDraw && model == Common then -pr else 0
  }

  /**
   * The error raised, if any: an unknown model in the first round, an empty
   * `common_range` at its first draw, a negative `private_range` at the first
   * private draw. With no rounds nothing is drawn and nothing is raised.
   */
  function FirstError(dialect: Dialect, model: ValueModel, rounds: nat, n: nat, lo: int, hi: int, pr: int): (r: Option<Error>)
    ensures r.None? <==> (rounds == 0
      || (Recognized(dialect, model) && (model != Private ==> lo <= hi) && (n > 0 ==> pr >= 0)))
    ensures r.Some? ==> r.value == RuleNotAllowed || r.value == EmptyRange
    ensures r == Some(RuleNotAllowed) <==> rounds > 0 && !Recognized(dialect, model)
  {
    if rounds == 0 then None
    else if !Recognized(dialect, model) then Some(RuleNotAllowed)
    else if model != Private && lo > hi then Some(EmptyRange)
    else if n > 0 && pr < 0 then Some(EmptyRange)
    else None
  }

  /** The first round draws its common value before any private part can fail. */
  predicate CommonDrawn(dialect: Dialect, model: ValueModel, rounds: nat, lo: int, hi: int)
  {
    rounds > 0 && Recognized(dialect, model) && (model != Private ==> lo <= hi)
  }

  /** The common value of round `i`. */
  function CommonOf(model: ValueModel, lo: int, hi: int, draws: nat -> nat, stride: nat, i: nat): (r: int)
    requires model != Private ==> lo <= hi
  {
    if model == Private then 0 else RandInt(lo, hi, draws(i * stride))
  }

  /** The common values of the first `k` rounds. */
  function Commons(model: ValueModel, lo: int, hi: int, draws: nat -> nat, stride: nat, k: nat): (r: seq<int>)
    requires k > 0 && model != Private ==> lo <= hi
  {
    seq(k, i requires 0 <= i < k => CommonOf(model, lo, hi, draws, stride, i))
  }

  /** The value of bidder `j` in round `i`. */
  function ValueOf(dialect: Dialect, model: ValueModel, n: nat, lo: int, hi: int, pr: int, draws: nat -> nat, i: nat, j: nat): (r: int)
    requires (model != Private ==> lo <= hi) && j < n && pr >= 0
  {
    var stride := Stride(model, n, 1);
    CommonOf(model, lo, hi, draws, stride, i)
    + RandInt(PrivateLow(dialect, model, pr), pr, draws(i * stride + CommonDraws(model) + j))
  }

  /** Row `i` of `values_list`. */
  function Row(dialect: Dialect, model: ValueModel, n: nat, lo: int, hi: int, pr: int, draws: nat -> nat, i: nat): (r: seq<int>)
    requires (model != Private ==> lo <= hi) && (n > 0 ==> pr >= 0)
  {
    seq(n, j requires 0 <= j < n => ValueOf(dialect, model, n, lo, hi, pr, draws, i, j))
  }

  /** `values_list` once every round is drawn. */
  function Table(dialect: Dialect, model: ValueModel, rounds: nat, n: nat, lo: int, hi: int, pr: int, draws: nat -> nat): (r: seq<seq<int>>)
    requires FirstError(dialect, model, rounds, n, lo, hi, pr).None?
    ensures |r| == rounds && forall i :: 0 <= i < rounds ==> |r[i]| == n
  {
    seq(rounds, i requires 0 <= i < rounds => Row(dialect, model, n, lo, hi, pr, draws, i))
  }

  /** The table of zeros `draw_value` starts from. */
  function Zeros<T>(rounds: nat, n: nat, zero: T): (r: seq<seq<T>>)
  {
    seq(rounds, i => seq(n, j => zero))
  }

  /**
   * Every table is `round` × `number_agents`; each common value is 0 for the
   * private model and in `common_range` otherwise; each value is its round's
   * common value plus a private part in [0, pr], or in [-pr, pr] for the
   * common model of util_plan.py.
   */
  lemma TableSpec(dialect: Dialect, model: ValueModel, rounds: nat, n: nat, lo: int, hi: int, pr: int, draws: nat -> nat, i: nat, j: nat)
    requires FirstError(dialect, model, rounds, n, lo, hi, pr).None?
    requires i < rounds && j < n
    ensures var t := Table(dialect, model, rounds, n, lo, hi, pr, draws);
      var c := CommonOf(model, lo, hi, draws, Stride(model, n, 1), i);
      |t| == rounds && |t[i]| == n
      && (model == Private ==> c == 0)
      && (model != Private ==> lo <= c <= hi)
      && (dialect == PlanDraw && model == Common ==> c - pr <= t[i][j] <= c + pr)
      && (!(dialect == PlanDraw && model == Common) ==> c <= t[i][j] <= c + pr)
  {
  }

  /**
   * Conversely, every combination of a common value in range and a private
   * part in range is the value of bidder `j` in round `i` for some stream of
   * draws.
   */
  lemma EveryValueDrawable(dialect: Dialect, model: ValueModel, rounds: nat, n: nat, lo: int, hi: int, pr: int, i: nat, j: nat, c: int, p: int)
    requires FirstError(dialect, model, rounds, n, lo, hi, pr).None?
    requires i < rounds && j < n
    requires if model == Private then c == 0 else lo <= c <= hi
    requires PrivateLow(dialect, model, pr) <= p <= pr
    ensures exists draws: nat -> nat ::
      Table(dialect, model, rounds, n, lo, hi, pr, draws)[i][j] == c + p
      && CommonOf(model, lo, hi, draws, Stride(model, n, 1), i) == c
  {
    var stride := Stride(model, n, 1);
    var low := PrivateLow(dialect, model, pr);
    var draws: nat -> nat := k => if model != Private && k == i * stride then (c - lo) as nat else (p - low) as nat;
    RandIntCovers(low, pr, p);
    if model != Private {
      RandIntCovers(lo, hi, c);
    }
    assert Table(dialect, model, rounds, n, lo, hi, pr, draws)[i][j] == c + p;
  }

  /** The state of an `Auction` that `draw_value` fills. */
  class ValueDrawing {
    var valuesList: seq<seq<int>>
    var commonValueList: seq<int>

    constructor ()
      ensures valuesList == [] && commonValueList == []
    {
      valuesList := [];
      commonValueList := [];
    }

    /**
     * `draw_value`: on success the table is `Table` and one common value per
     * round is appended; on an error the table is still all zeros and only a
     * common value drawn before the failing private draw has been appended.
     */
    method DrawValue(dialect: Dialect, model: ValueModel, rounds: nat, n: nat, lo: int, hi: int, pr: int, draws: nat -> nat)
      returns (r: Result<()>)
      modifies this
      ensures r.Err? <==> FirstError(dialect, model, rounds, n, lo, hi, pr).Some?
      ensures r.Err? ==> r.error == FirstError(dialect, model, rounds, n, lo, hi, pr).value
      ensures r.Ok? ==> valuesList == Table(dialect, model, rounds, n, lo, hi, pr, draws)
      ensures r.Ok? ==> commonValueList == old(commonValueList) + Commons(model, lo, hi, draws, Stride(model, n, 1), rounds)
      ensures r.Err? ==> valuesList == Zeros(rounds, n, 0)
      ensures r.Err? && CommonDrawn(dialect, model, rounds, lo, hi) ==>
        commonValueList == old(commonValueList) + Commons(model, lo, hi, draws, Stride(model, n, 1), 1)
      ensures r.Err? && !CommonDrawn(dialect, model, rounds, lo, hi) ==> commonValueList == old(commonValueList)
    {
      var stride := Stride(model, n, 1);
      valuesList := Zeros(rounds, n, 0);
      var i := 0;
      while i < rounds
        invariant i <= rounds
        invariant i > 0 ==> FirstError(dialect, model, rounds, n, lo, hi, pr).None?
        invariant |valuesList| == rounds
        invariant forall k :: 0 <= k < i ==> valuesList[k] == Row(dialect, model, n, lo, hi, pr, draws, k)
        invariant forall k :: i <= k < rounds ==> valuesList[k] == seq(n, j => 0)
        invariant i > 0 ==> commonValueList == old(commonValueList) + Commons(model, lo, hi, draws, stride, i)
        invariant i == 0 ==> commonValueList == old(commonValueList)
      {
        var drawn := DrawCommon(Recognized(dialect, model), model, lo, hi, draws, stride, i);
        if drawn.Err? {
          return Err(drawn.error);
        }
        var common := drawn.value;
        assert Commons(model, lo, hi, draws, stride, i + 1) == Commons(model, lo, hi, draws, stride, i) + [common];
        commonValueList := commonValueList + [common];
        var row := DrawRow(dialect, model, n, lo, hi, pr, draws, i, common, i * stride + CommonDraws(model));
        if row.None? {
          return Err(EmptyRange);
        }
        valuesList := valuesList[i := row.value];
        i := i + 1;
      }
      return Ok(());
    }
  }

  /**
   * The common value of round `i`: 0 for the private model, a draw from
   * `common_range` for a recognised one, an error otherwise.
   */
  method DrawCommon(recognized: bool, model: ValueModel, lo: int, hi: int, draws: nat -> nat, stride: nat, i: nat)
    returns (r: Result<int>)
    requires recognized ==> model == Private || model == Common || model == Affiliated
    requires model == Private || model == Common ==> recognized
    ensures r.Err? <==> !recognized || (model != Private && lo > hi)
    ensures r.Err? ==> r.error == if !recognized then RuleNotAllowed else EmptyRange
    ensures r.Ok? ==> r.value == CommonOf(model, lo, hi, draws, stride, i)
  {
    if model == Private {
      return Ok(0);
    } else if recognized {
      if lo > hi {
        return Err(EmptyRange);
      }
      return Ok(RandInt(lo, hi, draws(i * stride)));
    } else {
      return Err(RuleNotAllowed);
    }
  }

  /**
   * The inner loop of one round: a private part per bidder added to the
   * round's common value; `None` when `private_range` is negative and
   * there is a bidder to draw for.
   */
  method DrawRow(dialect: Dialect, model: ValueModel, n: nat, lo: int, hi: int, pr: int, draws: nat -> nat, i: nat, common: int, d0: nat)
    returns (r: Option<seq<int>>)
    requires model != Private ==> lo <= hi
    requires common == CommonOf(model, lo, hi, draws, Stride(model, n, 1), i)
    requires d0 == i * Stride(model, n, 1) + CommonDraws(model)
    ensures r.None? <==> n > 0 && pr < 0
    ensures r.Some? ==> r.value == Row(dialect, model, n, lo, hi, pr, draws, i)
  {
    var row := seq(n, j => 0);
    var low := PrivateLow(dialect, model, pr);
    var d := d0;
    var j := 0;
    while j < n
      invariant j <= n && |row| == n
      invariant d == d0 + j
      invariant j > 0 ==> pr >= 0
      invariant forall m :: 0 <= m < j ==> row[m] == ValueOf(dialect, model, n, lo, hi, pr, draws, i, m)
    {
      if low > pr {
        return None;
      }
      var part := RandInt(low, pr, draws(d));
      row := row[j := common + part];
      d := d + 1;
      j := j + 1;
    }
    return Some(row);
  }

  // ---------------------------------------------------------------------------
  // test/util_CA.py: a value for A and a value for B per bidder
  // ---------------------------------------------------------------------------

  /** The A and B values of bidder `j` in round `i`: two private draws, A first. */
  function PairOf(model: ValueModel, n: nat, lo: int, hi: int, pr: int, draws: nat -> nat, i: nat, j: nat): (r: ItemValues)
    requires (model != Private ==> lo <= hi) && j < n && pr >= 0
  {
    var stride := Stride(model, n, 2);
    var c := CommonOf(model, lo, hi, draws, stride, i);
    var at := i * stride + CommonDraws(model) + 2 * j;
    ItemValues(c + RandInt(0, pr, draws(at)), c + RandInt(0, pr, draws(at + 1)))
  }

  function PairRow(model: ValueModel, n: nat, lo: int, hi: int, pr: int, draws: nat -> nat, i: nat): (r: seq<ItemValues>)
    requires (model != Private ==> lo <= hi) && (n > 0 ==> pr >= 0)
  {
    seq(n, j requires 0 <= j < n => PairOf(model, n, lo, hi, pr, draws, i, j))
  }

  /** `values_list` of test/util_CA.py once every round is drawn; it accepts the private and common models only. */
  function PairTable(model: ValueModel, rounds: nat, n: nat, lo: int, hi: int, pr: int, draws: nat -> nat): (r: seq<seq<ItemValues>>)
    requires FirstError(StandardDraw, model, rounds, n, lo, hi, pr).None?
  {
    seq(rounds, i requires 0 <= i < rounds => PairRow(model, n, lo, hi, pr, draws, i))
  }

  /** Both values of a bidder are its round's common value plus a part in [0, pr]. */
  lemma PairTableSpec(model: ValueModel, rounds: nat, n: nat, lo: int, hi: int, pr: int, draws: nat -> nat, i: nat, j: nat)
    requires FirstError(StandardDraw, model, rounds, n, lo, hi, pr).None?
    requires i < rounds && j < n
    ensures var t := PairTable(model, rounds, n, lo, hi, pr, draws);
      var c := CommonOf(model, lo, hi, draws, Stride(model, n, 2), i);
      |t| == rounds && |t[i]| == n
      && (model == Private ==> c == 0)
      && (model == Common ==> lo <= c <= hi)
      && c <= t[i][j].a <= c + pr && c <= t[i][j].b <= c + pr
  {
  }

  /** Every common value in range, with any two private parts in [0, pr], is drawable. */
  lemma EveryPairDrawable(model: ValueModel, rounds: nat, n: nat, lo: int, hi: int, pr: int, i: nat, j: nat, c: int, pa: int, pb: int)
    requires FirstError(StandardDraw, model, rounds, n, lo, hi, pr).None?
    requires i < rounds && j < n
    requires if model == Private then c == 0 else lo <= c <= hi
    requires 0 <= pa <= pr && 0 <= pb <= pr
    ensures exists draws: nat -> nat :: PairTable(model, rounds, n, lo, hi, pr, draws)[i][j] == ItemValues(c + pa, c + pb)
  {
    var stride := Stride(model, n, 2);
    var at := i * stride + CommonDraws(model) + 2 * j;
    var draws: nat -> nat := k =>
      if model != Private && k == i * stride then (c - lo) as nat
      else if k == at then pa as nat
      else pb as nat;
    RandIntCovers(0, pr, pa);
    RandIntCovers(0, pr, pb);
    if model != Private {
      RandIntCovers(lo, hi, c);
    }
    assert PairTable(model, rounds, n, lo, hi, pr, draws)[i][j] == ItemValues(c + pa, c + pb);
  }

  /** The state of an `Auction_CA` that its `draw_value` fills. */
  class PairDrawing {
    var valuesList: seq<seq<ItemValues>>
    var commonValueList: seq<int>

    constructor ()
      ensures valuesList == [] && commonValueList == []
    {
      valuesList := [];
      commonValueList := [];
    }

    /** `draw_value` of test/util_CA.py, with the same error behaviour as the one-value version. */
    method DrawValue(model: ValueModel, rounds: nat, n: nat, lo: int, hi: int, pr: int, draws: nat -> nat)
      returns (r: Result<()>)
      modifies this
      ensures r.Err? <==> FirstError(StandardDraw, model, rounds, n, lo, hi, pr).Some?
      ensures r.Err? ==> r.error == FirstError(StandardDraw, model, rounds, n, lo, hi, pr).value
      ensures r.Ok? ==> valuesList == PairTable(model, rounds, n, lo, hi, pr, draws)
      ensures r.Ok? ==> commonValueList == old(commonValueList) + Commons(model, lo, hi, draws, Stride(model, n, 2), rounds)
      ensures r.Err? ==> valuesList == Zeros(rounds, n, ItemValues(0, 0))
      ensures r.Err? && CommonDrawn(StandardDraw, model, rounds, lo, hi) ==>
        commonValueList == old(commonValueList) + Commons(model, lo, hi, draws, Stride(model, n, 2), 1)
      ensures r.Err? && !CommonDrawn(StandardDraw, model, rounds, lo, hi) ==> commonValueList == old(commonValueList)
    {
      var stride := Stride(model, n, 2);
      valuesList := Zeros(rounds, n, ItemValues(0, 0));
      var i := 0;
      while i < rounds
        invariant i <= rounds
        invariant i > 0 ==> FirstError(StandardDraw, model, rounds, n, lo, hi, pr).None?
        invariant |valuesList| == rounds
        invariant forall k :: 0 <= k < i ==> valuesList[k] == PairRow(model, n, lo, hi, pr, draws, k)
        invariant forall k :: i <= k < rounds ==> valuesList[k] == seq(n, j => ItemValues(0, 0))
        invariant i > 0 ==> commonValueList == old(commonValueList) + Commons(model, lo, hi, draws, stride, i)
        invariant i == 0 ==> commonValueList == old(commonValueList)
      {
        var drawn := DrawCommon(Recognized(StandardDraw, model), model, lo, hi, draws, stride, i);
        if drawn.Err? {
          return Err(drawn.error);
        }
        var common := drawn.value;
        assert Commons(model, lo, hi, draws, stride, i + 1) == Commons(model, lo, hi, draws, stride, i) + [common];
        commonValueList := commonValueList + [common];
        var row := DrawPairRow(model, n, lo, hi, pr, draws, i, common, i * stride + CommonDraws(model));
        if row.None? {
          return Err(EmptyRange);
        }
        valuesList := valuesList[i := row.value];
        i := i + 1;
      }
      return Ok(());
    }
  }

  /** The inner loop of one round of test/util_CA.py: two private parts per bidder. */
  method DrawPairRow(model: ValueModel, n: nat, lo: int, hi: int, pr: int, draws: nat -> nat, i: nat, common: int, d0: nat)
    returns (r: Option<seq<ItemValues>>)
    requires model != Private ==> lo <= hi
    requires common == CommonOf(model, lo, hi, draws, Stride(model, n, 2), i)
    requires d0 == i * Stride(model, n, 2) + CommonDraws(model)
    ensures r.None? <==> n > 0 && pr < 0
    ensures r.Some? ==> r.value == PairRow(model, n, lo, hi, pr, draws, i)
  {
    var row := seq(n, j => ItemValues(0, 0));
    var d := d0;
    var j := 0;
    while j < n
      invariant j <= n && |row| == n
      invariant d == d0 + 2 * j
      invariant j > 0 ==> pr >= 0
      invariant forall m :: 0 <= m < j ==> row[m] == PairOf(model, n, lo, hi, pr, draws, i, m)
    {
      if pr < 0 {
        return None;
      }
      var partA := RandInt(0, pr, draws(d));
      var partB := RandInt(0, pr, draws(d + 1));
      row := row[j := ItemValues(common + partA, common + partB)];
      d := d + 2;
      j := j + 1;
    }
    return Some(row);
  }
}
