/**
 * `ConsultationRepository`: `findById` hides soft-deleted consultations, but
 * every other query filters only on the owning CLIENT's flag, so a
 * soft-deleted consultation of a live client is still listed and summed.
 */
module ConsultationRepository {
  import opened Wrappers
  import opened Entities
  import opened Database
  import Seqs

  /** `SELECT * FROM consultation WHERE id = :id AND is_deleted = false`. */
  function FindById(s: Store, id: int): (r: Option<Consultation>)
    ensures r.Some? <==> ConsultationIsLive(s, id)
    ensures r.Some? ==> r.value == s.consultations[id].(id := Some(id)) && !r.value.isDeleted
  {
    if ConsultationIsLive(s, id) then Some(LoadConsultation(s, id)) else None
  }

  /** `client_id IN (SELECT id FROM client WHERE is_deleted = false)`. */
  predicate OfLiveClient(s: Store, c: Consultation)
  {
    c.clientId.Some? && ClientIsLive(s, c.clientId.value)
  }

  /** Ids of the consultations of `clientId`, provided that client is live; their own flag is not consulted. */
  function IdsByLiveClient(s: Store, clientId: int): (r: seq<int>)
    ensures forall k :: k in r ==> k in s.consultations && s.consultations[k].clientId == Some(clientId)
    ensures !ClientIsLive(s, clientId) ==> r == []
    ensures ClientIsLive(s, clientId) ==> r == ConsultationIdsOfClient(s, clientId)
  {
    if ClientIsLive(s, clientId) then ConsultationIdsOfClient(s, clientId) else []
  }

  /** `SELECT * FROM consultation WHERE client_id = :clientId AND client_id IN (live clients)`. */
  function FindAllByClient(s: Store, clientId: int): (r: seq<Consultation>)
    ensures forall c :: c in r ==> c.clientId == Some(clientId)
    ensures forall c :: c in r ==>
      exists k :: k in s.consultations && s.consultations[k].clientId == Some(clientId) && c == LoadConsultation(s, k)
    ensures !ClientIsLive(s, clientId) ==> r == []
  {
    var ids := IdsByLiveClient(s, clientId);
    var r := LoadConsultations(s, ids);
    forall c | c in r
      ensures c.clientId == Some(clientId)
      ensures exists k :: k in s.consultations && s.consultations[k].clientId == Some(clientId) && c == LoadConsultation(s, k)
    {
      var i :| 0 <= i < |r| && r[i] == c;
      assert ids[i] in ids;
      assert r[i] == LoadConsultation(s, ids[i]);
    }
    r
  }

  /**
   * For a live client, `findAllByClient` lists every consultation of that client,
   * soft-deleted ones included: the consultation's own flag is never consulted.
   */
  lemma FindAllByClientComplete(s: Store, clientId: int, k: int)
    requires WellFormed(s) && ClientIsLive(s, clientId)
    requires k in s.consultations && s.consultations[k].clientId == Some(clientId)
    ensures LoadConsultation(s, k) in FindAllByClient(s, clientId)
  {
    ScansComplete(s);
    var ids := IdsByLiveClient(s, clientId);
    assert k in ids;
    var i :| 0 <= i < |ids| && ids[i] == k;
    assert FindAllByClient(s, clientId)[i] == LoadConsultation(s, k);
  }

  /** `SELECT c.due_amount FROM consultation c WHERE` the `findAllByClient` predicate: one entry per selected row. */
  function FindDueAmountsByClientId(s: Store, clientId: int): (r: seq<Option<real>>)
    ensures |r| == |FindAllByClient(s, clientId)|
    ensures forall i :: 0 <= i < |r| ==> r[i] == FindAllByClient(s, clientId)[i].dueAmount
  {
    var rows := FindAllByClient(s, clientId);
    seq(|rows|, i requires 0 <= i < |rows| => rows[i].dueAmount)
  }

  /** The sum of the non-null entries (0 when there are none). */
  function SumNonNull(xs: seq<Option<real>>): real
    decreases |xs|
  {
    if xs == [] then 0.0
    else (match xs[0] case Some(v) => v case None => 0.0) + SumNonNull(xs[1..])
  }

  /** SQL `SUM(column)`: null entries are skipped, and the result is null when no entry is non-null, over no rows in particular. */
  function SqlSum(xs: seq<Option<real>>): Option<real>
  {
    if forall i :: 0 <= i < |xs| ==> xs[i].None? then None else Some(SumNonNull(xs))
  }

  lemma {:induction false} SumNonNullAppend(a: seq<Option<real>>, b: seq<Option<real>>)
    ensures SumNonNull(a + b) == SumNonNull(a) + SumNonNull(b)
    decreases |a|
  {
    if a == [] {
      assert a + b == b;
    } else {
      assert (a + b)[1..] == a[1..] + b;
      SumNonNullAppend(a[1..], b);
    }
  }

  lemma {:induction false} SumOfNulls(xs: seq<Option<real>>)
    requires forall i :: 0 <= i < |xs| ==> xs[i].None?
    ensures SumNonNull(xs) == 0.0
    decreases |xs|
  {
    if xs != [] {
      SumOfNulls(xs[1..]);
    }
  }

  /**
   * `SUM` over two groups of rows combines the groups' sums: null only when both are
   * null, and otherwise the sum of those that are not.
   */
  lemma SqlSumAppend(a: seq<Option<real>>, b: seq<Option<real>>)
    ensures SqlSum(a + b) ==
      match (SqlSum(a), SqlSum(b))
      case (None, None) => None
      case (Some(x), None) => Some(x)
      case (None, Some(y)) => Some(y)
      case (Some(x), Some(y)) => Some(x + y)
  {
    SumNonNullAppend(a, b);
    if forall i :: 0 <= i < |a| ==> a[i].None? {
      SumOfNulls(a);
    } else {
      var i :| 0 <= i < |a| && a[i].Some?;
      assert (a + b)[i] == a[i];
    }
    if forall i :: 0 <= i < |b| ==> b[i].None? {
      SumOfNulls(b);
    } else {
      var i :| 0 <= i < |b| && b[i].Some?;
      assert (a + b)[|a| + i] == b[i];
    }
  }

  /**
   * The rows every aggregate ranges over: each consultation of a live client, loaded
   * under its id, deleted or not, in scan order.
   */
  function RowsOfLiveClients(s: Store): (r: seq<Consultation>)
    ensures forall c :: c in r ==>
      c.id.Some? && c.id.value in s.consultations && c == LoadConsultation(s, c.id.value) && OfLiveClient(s, c)
    ensures WellFormed(s) ==>
      forall k :: k in s.consultations && OfLiveClient(s, s.consultations[k]) ==> LoadConsultation(s, k) in r
    ensures forall i, j :: 0 <= i < j < |r| ==> r[i].id.Some? && r[j].id.Some? && r[i].id.value < r[j].id.value
  {
    var ids := LiveClientRowIds(s);
    LiveRowsSound(s, ids);
    LiveRowsComplete(s, ids);
    LoadConsultations(s, ids)
  }

  function LiveClientRowIds(s: Store): (r: seq<int>)
    ensures forall k :: k in r ==> k in s.consultations && OfLiveClient(s, s.consultations[k])
    ensures Seqs.Ascending(r)
  {
    var live := k => k in s.consultations && OfLiveClient(s, s.consultations[k]);
    Seqs.FilterAscending(ConsultationIds(s), live);
    Seqs.Filter(ConsultationIds(s), live)
  }

  lemma LiveRowsSound(s: Store, ids: seq<int>)
    requires forall k :: k in ids ==> k in s.consultations && OfLiveClient(s, s.consultations[k])
    ensures forall c :: c in LoadConsultations(s, ids) ==>
      c.id.Some? && c.id.value in s.consultations && c == LoadConsultation(s, c.id.value) && OfLiveClient(s, c)
  {
    var rows := LoadConsultations(s, ids);
    forall c | c in rows
      ensures c.id.Some? && c.id.value in s.consultations && c == LoadConsultation(s, c.id.value) && OfLiveClient(s, c)
    {
      var i :| 0 <= i < |rows| && rows[i] == c;
      assert ids[i] in ids;
    }
  }

  lemma LiveRowsComplete(s: Store, ids: seq<int>)
    requires ids == LiveClientRowIds(s)
    ensures WellFormed(s) ==> forall k :: k in s.consultations && OfLiveClient(s, s.consultations[k]) ==>
      LoadConsultation(s, k) in LoadConsultations(s, ids)
  {
    if !WellFormed(s) {
      return;
    }
    ScansComplete(s);
    var rows := LoadConsultations(s, ids);
    forall k | k in s.consultations && OfLiveClient(s, s.consultations[k])
      ensures LoadConsultation(s, k) in rows
    {
      assert k in ConsultationIds(s);
      assert k in ids;
      var i :| 0 <= i < |ids| && ids[i] == k;
      assert rows[i] == LoadConsultation(s, k);
    }
  }

  function Prices(cs: seq<Consultation>): seq<Option<real>>
  {
    seq(|cs|, i requires 0 <= i < |cs| => cs[i].price)
  }

  function DueAmounts(cs: seq<Consultation>): seq<Option<real>>
  {
    seq(|cs|, i requires 0 <= i < |cs| => cs[i].dueAmount)
  }

  /** `EXTRACT(MONTH ...) = :month AND EXTRACT(YEAR ...) = :year`; a null date matches nothing. */
  predicate InMonth(c: Consultation, month: int, year: int)
  {
    c.consultationDate.Some? && c.consultationDate.value.month == month && c.consultationDate.value.year == year
  }

  lemma PricesNullIff(cs: seq<Consultation>)
    ensures SqlSum(Prices(cs)).None? <==> forall c :: c in cs ==> c.price.None?
  {
    var xs := Prices(cs);
    if !(forall i :: 0 <= i < |xs| ==> xs[i].None?) {
      var i :| 0 <= i < |xs| && xs[i].Some?;
      assert cs[i] in cs;
    } else {
      forall c | c in cs
        ensures c.price.None?
      {
        var i :| 0 <= i < |cs| && cs[i] == c;
        assert xs[i] == c.price;
      }
    }
  }

  lemma DueAmountsNullIff(cs: seq<Consultation>)
    ensures SqlSum(DueAmounts(cs)).None? <==> forall c :: c in cs ==> c.dueAmount.None?
  {
    var xs := DueAmounts(cs);
    if !(forall i :: 0 <= i < |xs| ==> xs[i].None?) {
      var i :| 0 <= i < |xs| && xs[i].Some?;
      assert cs[i] in cs;
    } else {
      forall c | c in cs
        ensures c.dueAmount.None?
      {
        var i :| 0 <= i < |cs| && cs[i] == c;
        assert xs[i] == c.dueAmount;
      }
    }
  }

  /**
   * `SELECT SUM(c.price) FROM consultation c WHERE c.client_id IN (live clients)`:
   * null exactly when no such row has a price.
   */
  function FindTotalEarnings(s: Store): (r: Option<real>)
    ensures r.None? <==> forall c :: c in RowsOfLiveClients(s) ==> c.price.None?
    ensures r.Some? ==> r.value == SumNonNull(Prices(RowsOfLiveClients(s)))
  {
    PricesNullIff(RowsOfLiveClients(s));
    SqlSum(Prices(RowsOfLiveClients(s)))
  }

  /** `SELECT SUM(c.due_amount) ...` over the same rows: null exactly when no such row has a due amount. */
  function FindTotalBalance(s: Store): (r: Option<real>)
    ensures r.None? <==> forall c :: c in RowsOfLiveClients(s) ==> c.dueAmount.None?
    ensures r.Some? ==> r.value == SumNonNull(DueAmounts(RowsOfLiveClients(s)))
  {
    DueAmountsNullIff(RowsOfLiveClients(s));
    SqlSum(DueAmounts(RowsOfLiveClients(s)))
  }

  /**
   * The monthly query: the total-earnings rows further restricted to one calendar
   * month; null exactly when none of those rows in that month has a price.
   */
  function FindMonthlyEarnings(s: Store, month: int, year: int): (r: Option<real>)
    ensures r.None? <==> forall c :: c in RowsOfLiveClients(s) && InMonth(c, month, year) ==> c.price.None?
    ensures r.Some? ==> r.value == SumNonNull(Prices(Seqs.Filter(RowsOfLiveClients(s), c => InMonth(c, month, year))))
  {
    var selected := Seqs.Filter(RowsOfLiveClients(s), c => InMonth(c, month, year));
    PricesNullIff(selected);
    SqlSum(Prices(selected))
  }
}

/** `ConsultationPaginationRepository.findByClientId`: one page of a client's consultations, with no deletion filter at all. */
module ConsultationPaginationRepository {
  import opened Wrappers
  import opened Entities
  import opened Database
  import opened Paging

  /** `SELECT c FROM Consultation c WHERE c.client.id = :clientId`, one page. */
  function FindByClientId(s: Store, clientId: int, p: PageRequest): (r: seq<Consultation>)
    ensures |r| <= p.pageSize
    ensures forall c :: c in r ==> c.clientId == Some(clientId)
    ensures r == PageContent(LoadConsultations(s, ConsultationIdsOfClient(s, clientId)), p)
  {
    var ids := ConsultationIdsOfClient(s, clientId);
    var all := LoadConsultations(s, ids);
    PageContentSubset(all, p);
    assert forall c :: c in all ==> c.clientId == Some(clientId) by {
      forall c | c in all
        ensures c.clientId == Some(clientId)
      {
        var i :| 0 <= i < |all| && all[i] == c;
        assert ids[i] in ids;
      }
    }
    PageContent(all, p)
  }

  /**
   * Every consultation of a client is on some page, whatever its own flag and
   * whatever the client's flag says.
   */
  lemma FindByClientIdComplete(s: Store, clientId: int, k: int, size: nat)
    requires WellFormed(s) && size >= 1
    requires k in s.consultations && s.consultations[k].clientId == Some(clientId)
    ensures exists page: nat :: LoadConsultation(s, k) in FindByClientId(s, clientId, PageRequest(page, size))
  {
    ScansComplete(s);
    var ids := ConsultationIdsOfClient(s, clientId);
    assert k in ids;
    var i :| 0 <= i < |ids| && ids[i] == k;
    var all := LoadConsultations(s, ids);
    assert all[i] == LoadConsultation(s, k);
    OnSomePage(all, size, i);
    var n: nat :| all[i] in PageContent(all, PageRequest(n, size));
    assert FindByClientId(s, clientId, PageRequest(n, size)) == PageContent(all, PageRequest(n, size));
  }
}
