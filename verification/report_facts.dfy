/**
 * Facts about `getFinancialReport`: what a soft delete does to it (nothing), and how
 * the monthly figure relates to the total.
 */
module ReportFacts {
  import opened Wrappers
  import opened Entities
  import opened Dates
  import opened Database
  import Seqs
  import ConsultationRepository
  import ConsultationService
  import Dtos

  /** Two row sequences that agree, position by position, on every column a report reads. */
  predicate SameFigures(a: seq<Consultation>, b: seq<Consultation>)
  {
    && |a| == |b|
    && forall i :: 0 <= i < |a| ==>
         a[i].price == b[i].price && a[i].dueAmount == b[i].dueAmount
         && a[i].consultationDate == b[i].consultationDate
  }

  lemma SameFiguresSums(a: seq<Consultation>, b: seq<Consultation>)
    requires SameFigures(a, b)
    ensures ConsultationRepository.Prices(a) == ConsultationRepository.Prices(b)
    ensures ConsultationRepository.DueAmounts(a) == ConsultationRepository.DueAmounts(b)
  {
  }

  lemma {:induction false} FilterSameFigures(a: seq<Consultation>, b: seq<Consultation>, p: Consultation -> bool)
    requires SameFigures(a, b)
    requires forall i :: 0 <= i < |a| ==> p(a[i]) == p(b[i])
    ensures SameFigures(Seqs.Filter(a, p), Seqs.Filter(b, p))
    decreases |a|
  {
    if a != [] {
      var a', b' := a[1..], b[1..];
      assert SameFigures(a', b') by {
        forall i | 0 <= i < |a'|
          ensures a'[i].price == b'[i].price && a'[i].dueAmount == b'[i].dueAmount
          ensures a'[i].consultationDate == b'[i].consultationDate
        {
          assert a'[i] == a[i + 1] && b'[i] == b[i + 1];
        }
      }
      assert forall i :: 0 <= i < |a'| ==> p(a'[i]) == p(b'[i]) by {
        forall i | 0 <= i < |a'|
          ensures p(a'[i]) == p(b'[i])
        {
          assert a'[i] == a[i + 1] && b'[i] == b[i + 1];
        }
      }
      FilterSameFigures(a', b', p);
      var fa, fb := Seqs.Filter(a', p), Seqs.Filter(b', p);
      if p(a[0]) {
        assert Seqs.Filter(a, p) == [a[0]] + fa;
        assert Seqs.Filter(b, p) == [b[0]] + fb;
        SameFiguresCons(a[0], b[0], fa, fb);
      } else {
        assert Seqs.Filter(a, p) == fa;
        assert Seqs.Filter(b, p) == fb;
      }
    }
  }

  lemma SameFiguresCons(x: Consultation, y: Consultation, a: seq<Consultation>, b: seq<Consultation>)
    requires SameFigures(a, b)
    requires x.price == y.price && x.dueAmount == y.dueAmount && x.consultationDate == y.consultationDate
    ensures SameFigures([x] + a, [y] + b)
  {
    assert forall i :: 1 <= i <= |a| ==> ([x] + a)[i] == a[i - 1] && ([y] + b)[i] == b[i - 1];
  }

  /** A soft delete changes only the flag of one row; the rows the aggregates read agree on the rest. */
  lemma DeleteKeepsRows(s: Store, id: int)
    ensures SameFigures(
              ConsultationRepository.RowsOfLiveClients(ConsultationService.DeleteConsultation(s, id).store),
              ConsultationRepository.RowsOfLiveClients(s))
  {
    var s' := ConsultationService.DeleteConsultation(s, id).store;
    if s' != s {
      Seqs.KeysBetweenSameKeys(s'.consultations, s.consultations, 1, s.nextConsultationId);
      var all := ConsultationIds(s);
      var p' := k => k in s'.consultations && ConsultationRepository.OfLiveClient(s', s'.consultations[k]);
      var p := k => k in s.consultations && ConsultationRepository.OfLiveClient(s, s.consultations[k]);
      Seqs.FilterCongruent(all, p', p);
    }
  }

  /**
   * Deleting a consultation does not change the financial report: every aggregate
   * ranges over deleted and live consultations of live clients alike.
   */
  lemma DeleteConsultationKeepsReport(s: Store, id: int, date: Date)
    ensures ConsultationService.GetFinancialReport(ConsultationService.DeleteConsultation(s, id).store, date)
         == ConsultationService.GetFinancialReport(s, date)
  {
    var s' := ConsultationService.DeleteConsultation(s, id).store;
    var rows', rows := ConsultationRepository.RowsOfLiveClients(s'), ConsultationRepository.RowsOfLiveClients(s);
    DeleteKeepsRows(s, id);
    SameFiguresSums(rows', rows);
    var inMonth := c => ConsultationRepository.InMonth(c, date.month, date.year);
    FilterSameFigures(rows', rows, inMonth);
    SameFiguresSums(Seqs.Filter(rows', inMonth), Seqs.Filter(rows, inMonth));
  }

  predicate PricesNonNegative(cs: seq<Consultation>)
  {
    forall i :: 0 <= i < |cs| && cs[i].price.Some? ==> cs[i].price.value >= 0.0
  }

  lemma {:induction false} FilteredPricesAtMost(cs: seq<Consultation>, p: Consultation -> bool)
    requires PricesNonNegative(cs)
    ensures ConsultationRepository.SumNonNull(ConsultationRepository.Prices(Seqs.Filter(cs, p)))
         <= ConsultationRepository.SumNonNull(ConsultationRepository.Prices(cs))
    decreases |cs|
  {
    if cs != [] {
      var rest := cs[1..];
      assert PricesNonNegative(rest);
      FilteredPricesAtMost(rest, p);
      assert ConsultationRepository.Prices(cs)[1..] == ConsultationRepository.Prices(rest);
      if p(cs[0]) {
        assert Seqs.Filter(cs, p)[1..] == Seqs.Filter(rest, p);
        assert ConsultationRepository.Prices(Seqs.Filter(cs, p))[1..] == ConsultationRepository.Prices(Seqs.Filter(rest, p));
      }
    }
  }

  /** A price that is present after filtering was present before it. */
  lemma FilteredPriceFromRow(cs: seq<Consultation>, p: Consultation -> bool, i: int)
    requires 0 <= i < |Seqs.Filter(cs, p)| && Seqs.Filter(cs, p)[i].price.Some?
    ensures exists j :: 0 <= j < |cs| && ConsultationRepository.Prices(cs)[j].Some?
  {
    var c := Seqs.Filter(cs, p)[i];
    assert c in Seqs.Filter(cs, p);
    var j :| 0 <= j < |cs| && cs[j] == c;
    assert ConsultationRepository.Prices(cs)[j].Some?;
  }

  /** Over any rows with non-negative prices, a non-null filtered sum is at most the non-null whole sum. */
  lemma FilteredSqlSumAtMost(cs: seq<Consultation>, p: Consultation -> bool)
    requires PricesNonNegative(cs)
    ensures var part := ConsultationRepository.SqlSum(ConsultationRepository.Prices(Seqs.Filter(cs, p)));
            var whole := ConsultationRepository.SqlSum(ConsultationRepository.Prices(cs));
            part.Some? ==> whole.Some? && part.value <= whole.value
  {
    var prices := ConsultationRepository.Prices(Seqs.Filter(cs, p));
    FilteredPricesAtMost(cs, p);
    if ConsultationRepository.SqlSum(prices).Some? {
      var i :| 0 <= i < |prices| && prices[i].Some?;
      FilteredPriceFromRow(cs, p, i);
    }
  }

  lemma LivePricesNonNegative(s: Store)
    requires forall k :: k in s.consultations && s.consultations[k].price.Some? ==> s.consultations[k].price.value >= 0.0
    ensures PricesNonNegative(ConsultationRepository.RowsOfLiveClients(s))
  {
  }

  /**
   * With no negative price stored, the month's earnings never exceed the total
   * earnings, and the total is null only when the month is null as well.
   */
  lemma MonthlyWithinTotal(s: Store, date: Date)
    requires forall k :: k in s.consultations && s.consultations[k].price.Some? ==> s.consultations[k].price.value >= 0.0
    ensures var r := ConsultationService.GetFinancialReport(s, date);
            && r.Success?
            && (r.value.monthlyEarning.Some? ==>
                  r.value.totalEarning.Some? && r.value.monthlyEarning.value <= r.value.totalEarning.value)
  {
    LivePricesNonNegative(s);
    FilteredSqlSumAtMost(ConsultationRepository.RowsOfLiveClients(s),
                         c => ConsultationRepository.InMonth(c, date.month, date.year));
  }

  /** Without a consultation of a live client, all three figures of the report are null. */
  lemma EmptyReportIsNull(s: Store, date: Date)
    requires forall k :: k in s.consultations ==> !ConsultationRepository.OfLiveClient(s, s.consultations[k])
    ensures ConsultationService.GetFinancialReport(s, date) == Success(Dtos.FinancialReportDto(None, None, None))
  {
    var rows := ConsultationRepository.RowsOfLiveClients(s);
    Seqs.FilterNone(ConsultationIds(s), k => k in s.consultations && ConsultationRepository.OfLiveClient(s, s.consultations[k]));
    assert rows == [];
    assert Seqs.Filter(rows, c => ConsultationRepository.InMonth(c, date.month, date.year)) == [];
  }
}
