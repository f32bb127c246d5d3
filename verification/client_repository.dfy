/**
 * `ClientRepository`: the overridden `findById`, which hides soft-deleted
 * clients, and the inherited `findAll`, which does not.
 */
module ClientRepository {
  import opened Wrappers
  import opened Entities
  import opened Database

  /** `SELECT * FROM client WHERE id = :id AND is_deleted = false`. */
  function FindById(s: Store, id: int): (r: Option<Client>)
    ensures r.Some? <==> id in s.clients && !s.clients[id].isDeleted
    ensures r.Some? ==> r.value.id == Some(id) && !r.value.isDeleted && SameClientData(r.value, s.clients[id])
    ensures r.Some? ==> r.value.consultations == Some(LoadConsultations(s, ConsultationIdsOfClient(s, id)))
  {
    if ClientIsLive(s, id) then Some(LoadClient(s, id)) else None
  }

  /** The inherited `JpaRepository.findAll()`: every row, soft-deleted or not. */
  function FindAll(s: Store): (r: seq<Client>)
    ensures |r| == |ClientIds(s)|
    ensures forall i :: 0 <= i < |r| ==>
      r[i].id == Some(ClientIds(s)[i]) && SameClientData(r[i], s.clients[ClientIds(s)[i]])
  {
    LoadClients(s, ClientIds(s))
  }

  /** A soft-deleted client is never found by id, and an absent one neither. */
  lemma DeletedClientNotFound(s: Store, id: int)
    requires id !in s.clients || s.clients[id].isDeleted
    ensures FindById(s, id).None?
  {
  }

  /** `findAll` still lists a soft-deleted client, flag and all. */
  lemma FindAllIncludesDeleted(s: Store, id: int)
    requires WellFormed(s) && id in s.clients && s.clients[id].isDeleted
    ensures exists c :: c in FindAll(s) && c.id == Some(id) && c.isDeleted
  {
    ScansComplete(s);
    var ids := ClientIds(s);
    var i :| 0 <= i < |ids| && ids[i] == id;
    assert FindAll(s)[i].id == Some(id);
  }
}

/**
 * `ClientRepositoryPagination`: three native queries over live clients, each
 * returning one page of rows.
 */
module ClientRepositoryPagination {
  import opened Wrappers
  import opened Entities
  import opened Database
  import opened Paging
  import Seqs
  import Text
  import NameOrder

  /** Ids of the rows with `is_deleted = false`, in scan order. */
  function LiveClientIds(s: Store): (r: seq<int>)
    ensures forall k :: k in r ==> ClientIsLive(s, k)
    ensures WellFormed(s) ==> forall k :: ClientIsLive(s, k) ==> k in r
    ensures Seqs.Ascending(r)
  {
    var live := k => ClientIsLive(s, k);
    Seqs.FilterAscending(ClientIds(s), live);
    Seqs.Filter(ClientIds(s), live)
  }

  /** `LOWER(name) LIKE LOWER(CONCAT('%', :name, '%'))`; a null name never matches. */
  predicate NameMatches(name: Option<string>, filter: string)
  {
    name.Some? && Text.Contains(Text.Lower(name.value), Text.Lower(filter))
  }

  /** Every row of a page is a live client of the store. */
  predicate AllLive(s: Store, cs: seq<Client>)
  {
    forall c :: c in cs ==> c.id.Some? && ClientIsLive(s, c.id.value) && !c.isDeleted
  }

  /** Every row carries an id and the ids strictly increase: id order, each row once. */
  predicate IdsAscending(cs: seq<Client>)
  {
    forall i, j :: 0 <= i < j < |cs| ==> IdBefore(cs[i], cs[j])
  }

  predicate IdBefore(a: Client, b: Client)
  {
    a.id.Some? && b.id.Some? && a.id.value < b.id.value
  }

  /** A page of rows loaded in ascending key order is itself in ascending id order. */
  lemma PageAscending(s: Store, ks: seq<int>, p: PageRequest)
    requires forall k :: k in ks ==> k in s.clients
    requires Seqs.Ascending(ks)
    ensures IdsAscending(PageContent(LoadClients(s, ks), p))
  {
    LoadedAscending(s, ks);
    SliceAscending(LoadClients(s, ks), p);
  }

  lemma LoadedAscending(s: Store, ks: seq<int>)
    requires forall k :: k in ks ==> k in s.clients
    requires Seqs.Ascending(ks)
    ensures IdsAscending(LoadClients(s, ks))
  {
    var all := LoadClients(s, ks);
    forall i, j | 0 <= i < j < |all|
      ensures IdBefore(all[i], all[j])
    {
      assert all[i].id == Some(ks[i]) && all[j].id == Some(ks[j]);
    }
  }

  lemma SliceAscending(cs: seq<Client>, p: PageRequest)
    requires IdsAscending(cs)
    ensures IdsAscending(PageContent(cs, p))
  {
    var lo, hi := PageSlice(cs, p);
    SubrangeAscending(cs, lo, hi);
  }

  lemma SubrangeAscending(cs: seq<Client>, lo: nat, hi: nat)
    requires IdsAscending(cs) && lo <= hi <= |cs|
    ensures IdsAscending(cs[lo..hi])
  {
    var sub := cs[lo..hi];
    forall i, j | 0 <= i < j < |sub|
      ensures IdBefore(sub[i], sub[j])
    {
      assert sub[i] == cs[lo + i] && sub[j] == cs[lo + j];
    }
  }

  lemma LoadedLive(s: Store, ks: seq<int>)
    requires forall k :: k in ks ==> k in s.clients && !s.clients[k].isDeleted
    ensures AllLive(s, LoadClients(s, ks))
  {
    var cs := LoadClients(s, ks);
    forall c | c in cs
      ensures c.id.Some? && ClientIsLive(s, c.id.value) && !c.isDeleted
    {
      var i :| 0 <= i < |cs| && cs[i] == c;
    }
  }

  lemma PageLive(s: Store, cs: seq<Client>, p: PageRequest)
    requires AllLive(s, cs)
    ensures AllLive(s, PageContent(cs, p))
  {
    PageContentSubset(cs, p);
  }

  /** `SELECT * FROM client WHERE is_deleted = false`, one page. */
  function FindAll(s: Store, p: PageRequest): (r: seq<Client>)
    ensures |r| <= p.pageSize
    ensures AllLive(s, r)
    ensures r == PageContent(LoadClients(s, LiveClientIds(s)), p)
    ensures IdsAscending(r)
  {
    LoadedLive(s, LiveClientIds(s));
    PageAscending(s, LiveClientIds(s), p);
    PageLive(s, LoadClients(s, LiveClientIds(s)), p);
    PageContent(LoadClients(s, LiveClientIds(s)), p)
  }

  /** `... WHERE is_deleted = false ORDER BY name ASC`, one page. */
  function FindAllSortedByName(s: Store, p: PageRequest): (r: seq<Client>)
    ensures |r| <= p.pageSize
    ensures AllLive(s, r)
    ensures NameOrder.SortedByName(r)
    ensures r == PageContent(NameOrder.SortByName(LoadClients(s, LiveClientIds(s))), p)
  {
    var all := NameOrder.SortByName(LoadClients(s, LiveClientIds(s)));
    SortedLiveClients(s);
    PageLive(s, all, p);
    PageSorted(all, p);
    PageContent(all, p)
  }

  /** The live clients in name order are all live and sorted. */
  lemma SortedLiveClients(s: Store)
    ensures AllLive(s, NameOrder.SortByName(LoadClients(s, LiveClientIds(s))))
    ensures NameOrder.SortedByName(NameOrder.SortByName(LoadClients(s, LiveClientIds(s))))
  {
    var loaded := LoadClients(s, LiveClientIds(s));
    var all := NameOrder.SortByName(loaded);
    LoadedLive(s, LiveClientIds(s));
    NameOrder.SortByNamePermutes(loaded);
    NameOrder.SortByNameSorted(loaded);
    forall c | c in all
      ensures c.id.Some? && ClientIsLive(s, c.id.value) && !c.isDeleted
    {
      assert c in multiset(all);
      assert c in loaded;
    }
  }

  /** A page of a name-sorted list is name-sorted. */
  lemma PageSorted(cs: seq<Client>, p: PageRequest)
    requires NameOrder.SortedByName(cs)
    ensures NameOrder.SortedByName(PageContent(cs, p))
  {
  }

  /** Ids of the live rows whose name matches `filter`, in scan order. */
  function MatchingIds(s: Store, filter: string): (r: seq<int>)
    ensures forall k :: k in r ==> ClientIsLive(s, k) && NameMatches(s.clients[k].name, filter)
    ensures WellFormed(s) ==>
      forall k :: ClientIsLive(s, k) && NameMatches(s.clients[k].name, filter) ==> k in r
    ensures Seqs.Ascending(r)
  {
    var matches := k => k in s.clients && NameMatches(s.clients[k].name, filter);
    Seqs.FilterAscending(LiveClientIds(s), matches);
    Seqs.Filter(LiveClientIds(s), matches)
  }

  lemma LoadedMatch(s: Store, ks: seq<int>, filter: string)
    requires forall k :: k in ks ==> k in s.clients && !s.clients[k].isDeleted && NameMatches(s.clients[k].name, filter)
    ensures forall c :: c in LoadClients(s, ks) ==> NameMatches(c.name, filter)
  {
    var cs := LoadClients(s, ks);
    forall c | c in cs
      ensures NameMatches(c.name, filter)
    {
      var i :| 0 <= i < |cs| && cs[i] == c;
      assert ks[i] in ks;
    }
  }

  /** `... WHERE LOWER(name) LIKE LOWER('%' || :name || '%') AND is_deleted = false`, one page. */
  function FindByName(s: Store, name: string, p: PageRequest): (r: seq<Client>)
    ensures |r| <= p.pageSize
    ensures AllLive(s, r)
    ensures forall c :: c in r ==> NameMatches(c.name, name)
    ensures r == PageContent(LoadClients(s, MatchingIds(s, name)), p)
    ensures IdsAscending(r)
  {
    var ids := MatchingIds(s, name);
    var all := LoadClients(s, ids);
    PageAscending(s, ids, p);
    LoadedLive(s, ids);
    LoadedMatch(s, ids, name);
    PageContentSubset(all, p);
    PageContent(all, p)
  }

  /** Every live client appears on some page of the name-ordered listing. */
  lemma FindAllSortedByNameComplete(s: Store, id: int, size: nat)
    requires WellFormed(s) && ClientIsLive(s, id) && size >= 1
    ensures exists page: nat :: LoadClient(s, id) in FindAllSortedByName(s, PageRequest(page, size))
  {
    var ids := LiveClientIds(s);
    var all := LoadClients(s, ids);
    assert id in ids;
    var k :| 0 <= k < |ids| && ids[k] == id;
    assert all[k] == LoadClient(s, id);
    var sorted := NameOrder.SortByName(all);
    NameOrder.SortByNamePermutes(all);
    assert LoadClient(s, id) in multiset(sorted);
    var j :| 0 <= j < |sorted| && sorted[j] == LoadClient(s, id);
    OnSomePage(sorted, size, j);
    var n: nat :| sorted[j] in PageContent(sorted, PageRequest(n, size));
    assert FindAllSortedByName(s, PageRequest(n, size)) == PageContent(sorted, PageRequest(n, size));
  }

  /** The empty filter `'%%'` selects every live client that has a name. */
  lemma EmptyFilterMatchesNamed(name: Option<string>)
    requires name.Some?
    ensures NameMatches(name, "")
  {
    Text.ContainsEmpty(Text.Lower(name.value));
  }

  /** A live client whose name contains the filter, ignoring case, is on some page of `findByName`. */
  lemma FindByNameComplete(s: Store, filter: string, id: int)
    requires WellFormed(s) && ClientIsLive(s, id) && NameMatches(s.clients[id].name, filter)
    ensures exists page: nat :: LoadClient(s, id) in FindByName(s, filter, PageRequest(page, 10))
  {
    var ids := MatchingIds(s, filter);
    assert id in ids;
    var all := LoadClients(s, ids);
    var k :| 0 <= k < |ids| && ids[k] == id;
    assert all[k] == LoadClient(s, id);
    PagesCover(all, 10, k);
    assert LoadClient(s, id) in FindByName(s, filter, PageRequest(k / 10, 10));
  }
}
