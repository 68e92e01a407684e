/** The start-up validation of the bill splitter's configuration: the number of
    roommates and the "deal", the ratio each roommate pays of the deal-split part
    of a bill. A deal one ratio short is completed so that it adds up to 1. */
module DealValidator {
  import opened PyBuiltins

  /** The largest number of roommates accepted (a product choice). */
  const MaxRoommates: int := 10

  /** The smallest number of roommates accepted. */
  const MinRoommates: int := 2

  /** A deal one ratio short is completed only if its ratios add up to at most
      this much, which leaves at least 0.01 for the missing roommate. */
  const AutoFillLimit: real := 0.99

  /** The five configuration errors, each with the values its message reports. */
  datatype ConfigError =
    | TooFewRoommates(n: int)                 // "... we need at least 2"
    | TooManyRoommates(n: int, max: int)      // "... bigger than maximum allowed ..."
    | DealSumNotOne(sum: real)                // "deal (...) must add up to 1.0"
    | DealSumTooHigh(sum: real)               // "sum of deal (...) is too high, cannot fill"
    | LengthMismatch(n: int, dealLength: int) // "n_roommates (...) and deal values (...) do not match"

  datatype Result<T, E> = Ok(value: T) | Err(error: E)

  /** Python's `process_input`: checks the roommate count, then the deal, in that
      order, and returns the roommate count with the (possibly completed) deal. */
  function ProcessInput(n: int, deal: seq<real>): (r: Result<(int, seq<real>), ConfigError>)
    // the lower bound is checked first, whatever the deal
    ensures n < MinRoommates ==> r == Err(TooFewRoommates(n))
    // the upper bound is checked before anything about the deal
    ensures MinRoommates <= n && n > MaxRoommates ==> r == Err(TooManyRoommates(n, MaxRoommates))
    // a success returns the same count and a deal of exactly that length,
    // extending the given deal, whose ratios round to a total of 1.0
    ensures r.Ok? ==> MinRoommates <= n <= MaxRoommates && r.value.0 == n
    ensures r.Ok? ==> |r.value.1| == n && |deal| <= n && r.value.1[..|deal|] == deal
    ensures r.Ok? ==> 0.95 <= Sum(r.value.1) < 1.05
  {
    if n < MinRoommates then Err(TooFewRoommates(n))
    else if n > MaxRoommates then Err(TooManyRoommates(n, MaxRoommates))
    else if |deal| == n then
      RoundsToOne(Sum(deal));
      if Round1(Sum(deal)) == 1.0 then Ok((n, deal))
      else Err(DealSumNotOne(Sum(deal)))
    else if |deal| == n - 1 then
      if Sum(deal) <= AutoFillLimit then
        SumAppend(deal, 1.0 - Sum(deal));
        assert (deal + [1.0 - Sum(deal)])[..|deal|] == deal;
        Ok((n, deal + [1.0 - Sum(deal)]))
      else Err(DealSumTooHigh(Sum(deal)))
    else Err(LengthMismatch(n, |deal|))
  }

  /** A deal with one ratio per roommate is returned unchanged exactly when its
      sum lies in [0.95, 1.05), that is, rounds to 1.0 at one decimal. */
  lemma FullDeal(n: int, deal: seq<real>)
    requires MinRoommates <= n <= MaxRoommates && |deal| == n
    ensures ProcessInput(n, deal) ==
            if 0.95 <= Sum(deal) < 1.05 then Ok((n, deal)) else Err(DealSumNotOne(Sum(deal)))
  {
    RoundsToOne(Sum(deal));
  }

  /** A deal one ratio short whose sum is at most 0.99 is completed with
      `1.0 - sum(deal)`: the result sums exactly to 1 and the added ratio is at least 0.01. */
  lemma AutoFill(n: int, deal: seq<real>)
    requires MinRoommates <= n <= MaxRoommates && |deal| == n - 1
    requires Sum(deal) <= AutoFillLimit
    ensures ProcessInput(n, deal).Ok?
    ensures var d := ProcessInput(n, deal).value.1;
            |d| == n && d[..n - 1] == deal && d[n - 1] == 1.0 - Sum(deal)
    ensures var d := ProcessInput(n, deal).value.1;
            Sum(d) == 1.0 && d[n - 1] >= 0.01
  {
    SumAppend(deal, 1.0 - Sum(deal));
  }

  /** A deal one ratio short whose sum exceeds 0.99 is refused as too high to fill. */
  lemma AutoFillTooHigh(n: int, deal: seq<real>)
    requires MinRoommates <= n <= MaxRoommates && |deal| == n - 1
    requires Sum(deal) > AutoFillLimit
    ensures ProcessInput(n, deal) == Err(DealSumTooHigh(Sum(deal)))
  {
  }

  /** A deal whose length is neither the roommate count nor one less is refused. */
  lemma DealLengthMismatch(n: int, deal: seq<real>)
    requires MinRoommates <= n <= MaxRoommates && |deal| != n && |deal| != n - 1
    ensures ProcessInput(n, deal) == Err(LengthMismatch(n, |deal|))
  {
  }

  /** Exactly when the configuration is accepted, in terms of the inputs alone. */
  lemma Accepted(n: int, deal: seq<real>)
    ensures ProcessInput(n, deal).Ok? <==>
            MinRoommates <= n <= MaxRoommates &&
            ((|deal| == n && 0.95 <= Sum(deal) < 1.05) ||
             (|deal| == n - 1 && Sum(deal) <= AutoFillLimit))
  {
    if MinRoommates <= n <= MaxRoommates && |deal| == n {
      FullDeal(n, deal);
    }
  }

  /** Validating an accepted configuration again accepts it unchanged. */
  lemma ProcessInputIdempotent(n: int, deal: seq<real>)
    requires ProcessInput(n, deal).Ok?
    ensures var (n', deal') := ProcessInput(n, deal).value;
            ProcessInput(n', deal') == Ok((n', deal'))
  {
    var (n', deal') := ProcessInput(n, deal).value;
    FullDeal(n', deal');
  }

  /** The mutable argument record of the command line (`args`): `process_input`
      completes the deal by appending to this record's own list. */
  class Args {
    var nRoommates: int
    var deal: seq<real>

    constructor (nRoommates: int, deal: seq<real>)
      ensures this.nRoommates == nRoommates && this.deal == deal
    {
      this.nRoommates := nRoommates;
      this.deal := deal;
    }
  }

  /** `process_input(args)` as the source runs it: on the auto-fill path the
      missing ratio is appended to `args.deal` itself, and the returned deal is
      that same list; on every error path `args` is left as it was. */
  method ProcessArgs(args: Args) returns (r: Result<(int, seq<real>), ConfigError>)
    modifies args`deal
    ensures r == ProcessInput(old(args.nRoommates), old(args.deal))
    ensures r.Ok? ==> args.deal == r.value.1
    ensures r.Err? ==> args.deal == old(args.deal)
  {
    if args.nRoommates < MinRoommates {
      return Err(TooFewRoommates(args.nRoommates));
    }
    if args.nRoommates > MaxRoommates {
      return Err(TooManyRoommates(args.nRoommates, MaxRoommates));
    }
    var deal: seq<real>;
    if |args.deal| == args.nRoommates {
      if Round1(Sum(args.deal)) == 1.0 {
        deal := args.deal;
      } else {
        return Err(DealSumNotOne(Sum(args.deal)));
      }
    } else if |args.deal| == args.nRoommates - 1 {
      if Sum(args.deal) <= AutoFillLimit {
        args.deal := args.deal + [1.0 - Sum(args.deal)];
        deal := args.deal;
      } else {
        return Err(DealSumTooHigh(Sum(args.deal)));
      }
    } else {
      return Err(LengthMismatch(args.nRoommates, |args.deal|));
    }
    return Ok((args.nRoommates, deal));
  }

  // The scenarios exercised by the source's self-test, for every roommate count
  // it draws at random (2 to 10).

  /** An equal deal of `1/n` per roommate. */
  function EqualDeal(k: nat, n: int): (d: seq<real>)
    requires n > 0
    ensures |d| == k && forall i :: 0 <= i < k ==> d[i] == 1.0 / n as real
    // `k` equal ratios make up `k / n` of the bill
    ensures Sum(d) == k as real / n as real
  {
    SumConstant(k, 1.0 / n as real);
    seq(k, _ => 1.0 / n as real)
  }

  /** A full equal deal is accepted unchanged. */
  lemma EqualDealAccepted(n: int)
    requires MinRoommates <= n <= MaxRoommates
    ensures ProcessInput(n, EqualDeal(n, n)) == Ok((n, EqualDeal(n, n)))
  {
    FullDeal(n, EqualDeal(n, n));
  }

  /** An equal deal one ratio short is completed into the full equal deal. */
  lemma EqualDealAutoFilled(n: int)
    requires MinRoommates <= n <= MaxRoommates
    ensures ProcessInput(n, EqualDeal(n - 1, n)) == Ok((n, EqualDeal(n, n)))
  {
    var d := EqualDeal(n - 1, n);
    OneShortHasRoom(n);
    AutoFill(n, d);
    RestAndShare(n, 1);
    assert d + [1.0 / n as real] == EqualDeal(n, n);
  }

  /** The equal deal one short leaves at least a tenth for the last roommate. */
  lemma OneShortHasRoom(n: int)
    requires MinRoommates <= n <= MaxRoommates
    ensures (n - 1) as real / n as real <= 0.9
  {
    if n <= 5 {
      assert n == 2 || n == 3 || n == 4 || n == 5;
    } else {
      assert n == 6 || n == 7 || n == 8 || n == 9 || n == 10;
    }
  }

  /** `n - k` shares of `1/n` and `k` more make up the whole. */
  lemma RestAndShare(n: int, k: int)
    requires n > 0
    ensures (n - k) as real / n as real + k as real / n as real == 1.0
  {
    var x, y, m := (n - k) as real, k as real, n as real;
    assert x / m + y / m == (x + y) / m;
    assert x + y == m;
  }

  /** An equal deal two ratios short does not match the roommate count. */
  lemma EqualDealTooShort(n: int)
    requires MinRoommates <= n <= MaxRoommates
    ensures ProcessInput(n, EqualDeal(n - 2, n)) == Err(LengthMismatch(n, n - 2))
  {
  }

  /** An equal deal whose last ratio is raised or lowered by 0.1 no longer adds up to 1. */
  lemma EqualDealShifted(n: int, delta: real)
    requires MinRoommates <= n <= MaxRoommates
    requires delta == 0.1 || delta == -0.1
    ensures var d := EqualDeal(n - 1, n) + [1.0 / n as real + delta];
            ProcessInput(n, d) == Err(DealSumNotOne(1.0 + delta))
  {
    var d := EqualDeal(n - 1, n) + [1.0 / n as real + delta];
    SumAppend(EqualDeal(n - 1, n), 1.0 / n as real + delta);
    RestAndShare(n, 1);
    FullDeal(n, d);
  }

  /** An equal deal one ratio short whose last ratio is doubled sums to 1, too high to fill. */
  lemma EqualDealDoubledTooHigh(n: int)
    requires MinRoommates <= n <= MaxRoommates
    ensures var d := EqualDeal(n - 2, n) + [2.0 / n as real];
            ProcessInput(n, d) == Err(DealSumTooHigh(1.0))
  {
    SumAppend(EqualDeal(n - 2, n), 2.0 / n as real);
    RestAndShare(n, 2);
  }

  /** Two roommates with ratios 0.5 and 0.7: the sum 1.2 does not round to 1.0. */
  lemma OverfullDealExample()
    ensures ProcessInput(2, [0.5, 0.7]) == Err(DealSumNotOne(1.2))
  {
    assert [0.5, 0.7][..1] == [0.5];
    assert [0.5][..0] == [];
    RoundsToOne(1.2);
  }

  /** Three roommates with ratios 0.5 and 0.5 given: nothing is left for the third. */
  lemma NothingLeftExample()
    ensures ProcessInput(3, [0.5, 0.5]) == Err(DealSumTooHigh(1.0))
  {
    assert [0.5, 0.5][..1] == [0.5];
    assert [0.5][..0] == [];
  }
}
