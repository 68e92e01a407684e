/** The payment report of one bill: every roommate pays an equal share of the
    equally-split amounts plus their deal ratio times the deal-split amounts. */
module PaymentReport {
  import opened PyBuiltins

  /** One roommate's line of the report. */
  datatype RoomieLine = RoomieLine(
    roomie: int,       // 1-based roommate number
    ratio: real,       // the roommate's deal ratio
    equalShare: real,  // share of the equally-split amounts
    dealShare: real,   // share of the deal-split amounts
    total: real)       // what the roommate pays in all

  /** The figures of a report: the header total and one line per deal ratio. */
  datatype Report = Report(totalToPay: real, lines: seq<RoomieLine>)

  /** `to_pay_eq`: what each roommate pays of the equally-split amounts. */
  function EqualShare(valuesEq: seq<real>, n: int): real
    requires n != 0
  {
    Sum(valuesEq) / n as real
  }

  /** The line of roommate number `roomie`, whose deal ratio is `ratio`, when the
      equal share is `share` and the deal-split amounts come to `amount`. */
  function Line(roomie: int, ratio: real, share: real, amount: real): RoomieLine
  {
    RoomieLine(roomie, ratio, share, amount * ratio, share + amount * ratio)
  }

  /** The loop `for i, ratio in enumerate(deal)`: one line per ratio, numbered from 1. */
  function Lines(deal: seq<real>, share: real, amount: real): (lines: seq<RoomieLine>)
    ensures |lines| == |deal|
    ensures forall i :: 0 <= i < |deal| ==> lines[i] == Line(i + 1, deal[i], share, amount)
    decreases |deal|
  {
    if deal == [] then []
    else Lines(deal[..|deal| - 1], share, amount) + [Line(|deal|, deal[|deal| - 1], share, amount)]
  }

  /** Python's `report(values_eq, values_dl, n_roommates, deal)`, without the text:
      the numbers it prints. Dividing by `n_roommates` needs it to be non-zero;
      its only caller passes a validated count. */
  function MakeReport(valuesEq: seq<real>, valuesDl: seq<real>, n: int, deal: seq<real>): (r: Report)
    requires n != 0
    // the header is the whole bill
    ensures r.totalToPay == Sum(valuesEq) + Sum(valuesDl)
    // one line per deal ratio: roommate `i + 1` has ratio `deal[i]` and pays the
    // equal amounts divided by the roommate count plus the deal amounts times that ratio
    ensures |r.lines| == |deal|
    ensures forall i :: 0 <= i < |deal| ==>
              r.lines[i].roomie == i + 1 && r.lines[i].ratio == deal[i] &&
              r.lines[i].total == Sum(valuesEq) / n as real + Sum(valuesDl) * deal[i]
  {
    Report(Sum(valuesEq) + Sum(valuesDl), Lines(deal, EqualShare(valuesEq, n), Sum(valuesDl)))
  }

  /** The lines' totals, in order. */
  function Totals(lines: seq<RoomieLine>): (t: seq<real>)
    ensures |t| == |lines| && forall i :: 0 <= i < |lines| ==> t[i] == lines[i].total
    decreases |lines|
  {
    if lines == [] then [] else Totals(lines[..|lines| - 1]) + [lines[|lines| - 1].total]
  }

  /** What the roommates pay in all. */
  function Paid(lines: seq<RoomieLine>): real
  {
    Sum(Totals(lines))
  }
}

/** What the payment report promises about money: the totals cover the bill,
    and the report is linear in the bill's amounts. */
module ReportProperties {
  import opened PyBuiltins
  import opened PaymentReport
  import DealValidator

  /** The roommates pay `|deal|` equal shares plus the deal-split amount scaled by the deal's sum. */
  lemma PaidLines(deal: seq<real>, share: real, amount: real)
    ensures Paid(Lines(deal, share, amount)) == |deal| as real * share + amount * Sum(deal)
  {
    var lines := Lines(deal, share, amount);
    SumAffine(Totals(lines), deal, share, amount);
  }

  /** `n` equal shares cover the equally-split amounts, stated with the count
      as the length `k` of a deal of one ratio per roommate. */
  lemma EqualSharesCover(valuesEq: seq<real>, n: int, k: nat)
    requires n != 0 && k == n
    ensures k as real * EqualShare(valuesEq, n) == Sum(valuesEq)
  {
  }

  /** Lines whose equal shares make up `eqSum`, for a deal summing exactly to 1,
      add up to `eqSum` plus the deal-split amount. */
  lemma PaidExactly(deal: seq<real>, share: real, amount: real, eqSum: real)
    requires |deal| as real * share == eqSum && Sum(deal) == 1.0
    ensures Paid(Lines(deal, share, amount)) == eqSum + amount
  {
    PaidLines(deal, share, amount);
  }

  /** Lines whose equal shares make up `eqSum`, for a deal summing to within 5% of 1,
      add up to within 5% of a non-negative deal-split amount of `eqSum + amount`. */
  lemma PaidNearly(deal: seq<real>, share: real, amount: real, eqSum: real, header: real)
    requires |deal| as real * share == eqSum && header == eqSum + amount
    requires 0.95 <= Sum(deal) < 1.05 && amount >= 0.0
    ensures header - 0.05 * amount <= Paid(Lines(deal, share, amount)) <= header + 0.05 * amount
  {
    PaidLines(deal, share, amount);
    ScaledBound(Paid(Lines(deal, share, amount)), header, amount, Sum(deal));
  }

  /** `PaidExactly` for the equal share of one ratio per roommate. */
  lemma SharedExactly(deal: seq<real>, valuesEq: seq<real>, n: int, amount: real)
    requires n != 0 && |deal| == n && Sum(deal) == 1.0
    ensures Paid(Lines(deal, EqualShare(valuesEq, n), amount)) == Sum(valuesEq) + amount
  {
    EqualSharesCover(valuesEq, n, |deal|);
    PaidExactly(deal, EqualShare(valuesEq, n), amount, Sum(valuesEq));
  }

  /** `PaidNearly` for the equal share of one ratio per roommate. */
  lemma SharedNearly(deal: seq<real>, valuesEq: seq<real>, n: int, amount: real, header: real)
    requires n != 0 && |deal| == n && header == Sum(valuesEq) + amount
    requires 0.95 <= Sum(deal) < 1.05 && amount >= 0.0
    ensures header - 0.05 * amount <= Paid(Lines(deal, EqualShare(valuesEq, n), amount)) <= header + 0.05 * amount
  {
    EqualSharesCover(valuesEq, n, |deal|);
    PaidNearly(deal, EqualShare(valuesEq, n), amount, Sum(valuesEq), header);
  }

  /** With one ratio per roommate and ratios summing exactly to 1, the roommates'
      totals add up to the header total: the whole bill is paid, no more. */
  lemma TotalsAddUp(valuesEq: seq<real>, valuesDl: seq<real>, n: int, deal: seq<real>)
    requires n != 0 && |deal| == n && Sum(deal) == 1.0
    ensures var r := MakeReport(valuesEq, valuesDl, n, deal);
            Paid(r.lines) == r.totalToPay
  {
    SharedExactly(deal, valuesEq, n, Sum(valuesDl));
  }

  /** A deal that was accepted only because its sum rounds to 1.0 may leave the
      totals off the header by at most 5% of the (non-negative) deal-split amount. */
  lemma TotalsNearHeader(valuesEq: seq<real>, valuesDl: seq<real>, n: int, deal: seq<real>)
    requires n != 0 && |deal| == n && 0.95 <= Sum(deal) < 1.05 && Sum(valuesDl) >= 0.0
    ensures var r := MakeReport(valuesEq, valuesDl, n, deal);
            r.totalToPay - 0.05 * Sum(valuesDl) <= Paid(r.lines) <= r.totalToPay + 0.05 * Sum(valuesDl)
  {
    var r := MakeReport(valuesEq, valuesDl, n, deal);
    SharedNearly(deal, valuesEq, n, Sum(valuesDl), r.totalToPay);
  }

  /** Arithmetic step: if `total` exceeds `header` by `s * f - s` for a non-negative
      `s` and a factor `f` within 5% of 1, it is within `0.05 * s` of `header`. */
  lemma ScaledBound(total: real, header: real, s: real, f: real)
    requires total - header == s * f - s
    requires s >= 0.0 && 0.95 <= f < 1.05
    ensures header - 0.05 * s <= total <= header + 0.05 * s
  {
    MulNonNegative(s, 1.05 - f);
    assert s * (1.05 - f) == 1.05 * s - s * f;
    MulNonNegative(s, f - 0.95);
    assert s * (f - 0.95) == s * f - 0.95 * s;
  }

  lemma MulNonNegative(a: real, b: real)
    requires a >= 0.0 && b >= 0.0
    ensures a * b >= 0.0
  {
  }

  /** Every configuration the validator accepts yields reports whose totals
      stay within 5% of the deal-split amount of the header; an auto-filled deal
      makes them add up to the header exactly. */
  lemma ValidatedTotals(n: int, deal: seq<real>, valuesEq: seq<real>, valuesDl: seq<real>)
    requires DealValidator.ProcessInput(n, deal).Ok?
    ensures var (n', deal') := DealValidator.ProcessInput(n, deal).value;
            var r := MakeReport(valuesEq, valuesDl, n', deal');
            Sum(valuesDl) >= 0.0 ==>
            r.totalToPay - 0.05 * Sum(valuesDl) <= Paid(r.lines) <= r.totalToPay + 0.05 * Sum(valuesDl)
    ensures var (n', deal') := DealValidator.ProcessInput(n, deal).value;
            var r := MakeReport(valuesEq, valuesDl, n', deal');
            |deal| == n - 1 ==> Paid(r.lines) == r.totalToPay
  {
    var (n', deal') := DealValidator.ProcessInput(n, deal).value;
    if Sum(valuesDl) >= 0.0 {
      TotalsNearHeader(valuesEq, valuesDl, n', deal');
    }
    if |deal| == n - 1 {
      DealValidator.AutoFill(n, deal);
      TotalsAddUp(valuesEq, valuesDl, n', deal');
    }
  }

  /** The report is linear in the bill: reporting two bills' amounts together gives
      the sum of the two reports, header and every line. */
  lemma ReportAdditive(eq1: seq<real>, dl1: seq<real>, eq2: seq<real>, dl2: seq<real>, n: int, deal: seq<real>)
    requires n != 0
    ensures var r := MakeReport(eq1 + eq2, dl1 + dl2, n, deal);
            var r1 := MakeReport(eq1, dl1, n, deal);
            var r2 := MakeReport(eq2, dl2, n, deal);
            r.totalToPay == r1.totalToPay + r2.totalToPay &&
            forall i :: 0 <= i < |deal| ==> r.lines[i].total == r1.lines[i].total + r2.lines[i].total
  {
    SumConcat(eq1, eq2);
    SumConcat(dl1, dl2);
    EqualShareConcat(eq1, eq2, n);
    var e1, e2, s1, s2 := EqualShare(eq1, n), EqualShare(eq2, n), Sum(dl1), Sum(dl2);
    assert Lines(deal, EqualShare(eq1 + eq2, n), Sum(dl1 + dl2)) == Lines(deal, e1 + e2, s1 + s2);
    LinesAdditive(deal, e1, e2, s1, s2);
  }

  /** Every line's total is additive in the equal share and the deal-split amount. */
  lemma LinesAdditive(deal: seq<real>, share1: real, share2: real, amount1: real, amount2: real)
    ensures forall i :: 0 <= i < |deal| ==>
              Lines(deal, share1 + share2, amount1 + amount2)[i].total ==
              Lines(deal, share1, amount1)[i].total + Lines(deal, share2, amount2)[i].total
  {
    forall i | 0 <= i < |deal|
      ensures Lines(deal, share1 + share2, amount1 + amount2)[i].total ==
              Lines(deal, share1, amount1)[i].total + Lines(deal, share2, amount2)[i].total
    {
      assert (amount1 + amount2) * deal[i] == amount1 * deal[i] + amount2 * deal[i];
    }
  }

  /** Arithmetic step: the equal share of two bills together is the sum of their equal shares. */
  lemma EqualShareConcat(a: seq<real>, b: seq<real>, n: int)
    requires n != 0
    ensures EqualShare(a + b, n) == EqualShare(a, n) + EqualShare(b, n)
  {
    SumConcat(a, b);
    DivAdd(Sum(a), Sum(b), n as real);
  }

  lemma DivAdd(x: real, y: real, d: real)
    requires d != 0.0
    ensures (x + y) / d == x / d + y / d
  {
  }

  /** Two roommates, equal amounts 100 and 50, deal amount 30, deal 0.5/0.5:
      each pays 75 + 15 = 90 of a 180 bill. */
  lemma EvenSplitExample()
    ensures var r := MakeReport([100.0, 50.0], [30.0], 2, [0.5, 0.5]);
            r.totalToPay == 180.0 && |r.lines| == 2 &&
            forall i :: 0 <= i < 2 ==>
              r.lines[i].equalShare == 75.0 && r.lines[i].dealShare == 15.0 && r.lines[i].total == 90.0
  {
    assert Sum([100.0, 50.0]) == 150.0 by {
      assert [100.0, 50.0][..1] == [100.0];
      assert [100.0][..0] == [];
    }
    assert Sum([30.0]) == 30.0 by {
      assert [30.0][..0] == [];
    }
  }

  /** Two roommates with the deal given as 0.6 alone: it is completed to 0.6/0.4,
      and equal amount 40 with deal amount 20 costs them 32 and 28. */
  lemma AutoFilledExample()
    ensures DealValidator.ProcessInput(2, [0.6]) == DealValidator.Ok((2, [0.6, 0.4]))
    ensures var r := MakeReport([40.0], [20.0], 2, [0.6, 0.4]);
            |r.lines| == 2 && r.lines[0].total == 32.0 && r.lines[1].total == 28.0
  {
    assert Sum([0.6]) == 0.6 by {
      assert [0.6][..0] == [];
    }
    assert [0.6] + [1.0 - 0.6] == [0.6, 0.4];
    assert Sum([40.0]) == 40.0 by {
      assert [40.0][..0] == [];
    }
    assert Sum([20.0]) == 20.0 by {
      assert [20.0][..0] == [];
    }
  }
}
