/** `ClientServiceImpl`: the client operations as transitions of the store. */
module ClientService {
  import opened Wrappers
  import opened Errors
  import opened Entities
  import opened Dtos
  import opened Database
  import opened Paging
  import Text
  import ClientMapper
  import ClientRepository
  import ClientRepositoryPagination
  import ConsultationRepository
  import ConsultationPaginationRepository
  import NameOrder
  import ConsultationsMapper

  /** Page size of the client listings. */
  const ClientPageSize := 10
  /** Page size of the consultations shown with one client. */
  const ConsultationPageSize := 5

  /** `clientRepository.save` of a freshly mapped client, answered with balance 0.0 and no list. */
  function Insert(s: Store, c: Client): Reply<ClientDto>
  {
    var saved := SaveClient(s, c);
    Reply(saved.store, ClientMapper.MapToClientDtoWith(saved.entity, Some(0.0), None))
  }

  /** `createClient(clientDto)`: a new live row under the next id, echoed back with balance 0.0. */
  function CreateClient(s: Store, d: ClientDto): (r: Reply<ClientDto>)
    ensures r.result.Success?
    ensures var k := s.nextClientId;
      && r.store.clients.Keys == s.clients.Keys + {k}
      && SameClientData(r.store.clients[k], ClientMapper.MapToClient(d))
      && !r.store.clients[k].isDeleted
      && (forall j :: j in s.clients && j != k ==> r.store.clients[j] == s.clients[j])
      && r.store.consultations == s.consultations
      && r.result.value == d.(id := Some(k), consultations := None, balance := Some(0.0))
    ensures WellFormed(s) ==> s.nextClientId !in s.clients && WellFormed(r.store)
    ensures ClientRepository.FindById(r.store, s.nextClientId).Some?
  {
    Insert(s, ClientMapper.MapToClient(d).(isDeleted := false))
  }

  /** `createClient(clientDto, image)`: as `createClient`, with the uploaded bytes as the image. */
  function CreateClientWithImage(s: Store, d: ClientDto, image: Bytes): (r: Reply<ClientDto>)
    ensures r.result.Success?
    ensures var k := s.nextClientId;
      && r.store.clients.Keys == s.clients.Keys + {k}
      && SameClientData(r.store.clients[k], ClientMapper.MapToClient(d.(image := Some(image))))
      && r.store.clients[k].image == Some(image)
      && !r.store.clients[k].isDeleted
      && (forall j :: j in s.clients && j != k ==> r.store.clients[j] == s.clients[j])
      && r.store.consultations == s.consultations
      && r.result.value == d.(id := Some(k), image := Some(image), consultations := None, balance := Some(0.0))
    ensures WellFormed(s) ==> s.nextClientId !in s.clients && WellFormed(r.store)
  {
    Insert(s, ClientMapper.MapToClient(d).(image := Some(image), isDeleted := false))
  }

  /** `getAllClients`: the inherited `findAll`, so soft-deleted clients are listed too. */
  function GetAllClients(s: Store): (r: seq<ClientDto>)
    ensures |r| == |ClientIds(s)|
    ensures forall i :: 0 <= i < |r| ==>
      && r[i].id == Some(ClientIds(s)[i])
      && CarriesData(r[i], s.clients[ClientIds(s)[i]])
      && r[i].balance.None? && r[i].consultations.None?
  {
    var all := ClientRepository.FindAll(s);
    seq(|all|, i requires 0 <= i < |all| => ClientMapper.MapToClientDto(all[i]))
  }

  /** A soft-deleted client still appears in `getAllClients`. */
  lemma GetAllClientsListsDeleted(s: Store, id: int)
    requires WellFormed(s) && id in s.clients && s.clients[id].isDeleted
    ensures exists d :: d in GetAllClients(s) && d.id == Some(id)
  {
    ScansComplete(s);
    var ids := ClientIds(s);
    var i :| 0 <= i < |ids| && ids[i] == id;
    assert GetAllClients(s)[i].id == Some(id);
  }

  function ToViews(cs: seq<Client>): (r: seq<ViewAllClientsDto>)
    ensures |r| == |cs|
    ensures forall i :: 0 <= i < |cs| ==> r[i] == ClientMapper.MapToViewAllClientsDto(cs[i])
  {
    seq(|cs|, i requires 0 <= i < |cs| => ClientMapper.MapToViewAllClientsDto(cs[i]))
  }

  /** Each row shows a live client: its id, and the name and phone number stored for it. */
  predicate ShowsLiveClients(s: Store, vs: seq<ViewAllClientsDto>)
  {
    forall v :: v in vs ==>
      v.id.Some? && ClientIsLive(s, v.id.value)
      && v.name == s.clients[v.id.value].name && v.phoneNumber == s.clients[v.id.value].phoneNumber
  }

  lemma ViewsOfLive(s: Store, cs: seq<Client>)
    requires ClientRepositoryPagination.AllLive(s, cs)
    requires forall c :: c in cs ==> c.id.Some? && c.id.value in s.clients && c.name == s.clients[c.id.value].name
                                     && c.phoneNumber == s.clients[c.id.value].phoneNumber
    ensures ShowsLiveClients(s, ToViews(cs))
  {
    var vs := ToViews(cs);
    forall v | v in vs
      ensures v.id.Some? && ClientIsLive(s, v.id.value)
      ensures v.name == s.clients[v.id.value].name && v.phoneNumber == s.clients[v.id.value].phoneNumber
    {
      var i :| 0 <= i < |vs| && vs[i] == v;
      assert cs[i] in cs;
    }
  }

  /** Loaded clients carry their stored name and phone number. */
  lemma LoadedKeepData(s: Store, ks: seq<int>)
    requires forall k :: k in ks ==> k in s.clients
    ensures forall c :: c in LoadClients(s, ks) ==>
      c.id.Some? && c.id.value in s.clients && c.name == s.clients[c.id.value].name
      && c.phoneNumber == s.clients[c.id.value].phoneNumber
  {
    var cs := LoadClients(s, ks);
    forall c | c in cs
      ensures c.id.Some? && c.id.value in s.clients && c.name == s.clients[c.id.value].name
      ensures c.phoneNumber == s.clients[c.id.value].phoneNumber
    {
      var i :| 0 <= i < |cs| && cs[i] == c;
      assert ks[i] in ks;
    }
  }

  predicate ViewsSortedByName(vs: seq<ViewAllClientsDto>)
  {
    forall i, j :: 0 <= i < j < |vs| ==> NameOrder.NameLe(vs[i].name, vs[j].name)
  }

  /**
   * `viewAllClients(pageNo, sort)`: a page of at most ten live clients, ordered by
   * name when `sort` equals "name" ignoring case and in scan order otherwise.
   */
  function ViewAllClients(s: Store, pageNo: int, sort: string): (r: Result<seq<ViewAllClientsDto>, Error>)
    ensures r.Failure? <==> pageNo < 0
    ensures r.Failure? ==> r.error == IllegalArgument("Page index must not be less than zero")
    ensures r.Success? ==> |r.value| <= ClientPageSize && ShowsLiveClients(s, r.value)
    ensures r.Success? && Text.EqualsIgnoreCase(sort, "name") ==> ViewsSortedByName(r.value)
    ensures r.Success? && Text.EqualsIgnoreCase(sort, "name") ==>
      r.value == ToViews(ClientRepositoryPagination.FindAllSortedByName(s, PageRequest(pageNo, ClientPageSize)))
    ensures r.Success? && !Text.EqualsIgnoreCase(sort, "name") ==>
      r.value == ToViews(ClientRepositoryPagination.FindAll(s, PageRequest(pageNo, ClientPageSize)))
  {
    match PageRequestOf(pageNo, ClientPageSize)
    case Failure(e) => Failure(e)
    case Success(p) =>
      var page := if Text.EqualsIgnoreCase(sort, "name")
                  then ClientRepositoryPagination.FindAllSortedByName(s, p)
                  else ClientRepositoryPagination.FindAll(s, p);
      ViewPageFacts(s, p);
      ViewsOfLive(s, page);
      Success(ToViews(page))
  }

  lemma ViewPageFacts(s: Store, p: PageRequest)
    ensures forall c :: c in ClientRepositoryPagination.FindAllSortedByName(s, p) ==>
      c.id.Some? && c.id.value in s.clients && c.name == s.clients[c.id.value].name
      && c.phoneNumber == s.clients[c.id.value].phoneNumber
    ensures forall c :: c in ClientRepositoryPagination.FindAll(s, p) ==>
      c.id.Some? && c.id.value in s.clients && c.name == s.clients[c.id.value].name
      && c.phoneNumber == s.clients[c.id.value].phoneNumber
  {
    var live := ClientRepositoryPagination.LiveClientIds(s);
    var all := LoadClients(s, live);
    LoadedKeepData(s, live);
    PageContentSubset(all, p);
    NameOrder.SortByNamePermutes(all);
    var sorted := NameOrder.SortByName(all);
    forall c | c in sorted
      ensures c in all
    {
      assert c in multiset(sorted);
    }
    PageContentSubset(sorted, p);
  }

  /** `filterClients(pageNo, filter)`: a page of at most ten live clients whose name contains the filter, ignoring case. */
  function FilterClients(s: Store, pageNo: int, filter: string): (r: Result<seq<ViewAllClientsDto>, Error>)
    ensures r.Failure? <==> pageNo < 0
    ensures r.Failure? ==> r.error == IllegalArgument("Page index must not be less than zero")
    ensures r.Success? ==> |r.value| <= ClientPageSize && ShowsLiveClients(s, r.value)
    ensures r.Success? ==> forall v :: v in r.value ==> ClientRepositoryPagination.NameMatches(v.name, filter)
    ensures r.Success? ==> r.value == ToViews(ClientRepositoryPagination.FindByName(s, filter, PageRequest(pageNo, ClientPageSize)))
  {
    match PageRequestOf(pageNo, ClientPageSize)
    case Failure(e) => Failure(e)
    case Success(p) =>
      var page := ClientRepositoryPagination.FindByName(s, filter, p);
      FilterPageFacts(s, filter, p);
      ViewsOfLive(s, page);
      var vs := ToViews(page);
      assert forall v :: v in vs ==> ClientRepositoryPagination.NameMatches(v.name, filter) by {
        forall v | v in vs
          ensures ClientRepositoryPagination.NameMatches(v.name, filter)
        {
          var i :| 0 <= i < |vs| && vs[i] == v;
          assert page[i] in page;
        }
      }
      Success(vs)
  }

  lemma FilterPageFacts(s: Store, filter: string, p: PageRequest)
    ensures forall c :: c in ClientRepositoryPagination.FindByName(s, filter, p) ==>
      c.id.Some? && c.id.value in s.clients && c.name == s.clients[c.id.value].name
      && c.phoneNumber == s.clients[c.id.value].phoneNumber
  {
    var ids := ClientRepositoryPagination.MatchingIds(s, filter);
    LoadedKeepData(s, ids);
    PageContentSubset(LoadClients(s, ids), p);
  }

  /** Every live client is shown on some page of `viewAllClients` sorted by name. */
  lemma ViewAllClientsByNameComplete(s: Store, id: int)
    requires WellFormed(s) && ClientIsLive(s, id)
    ensures exists pageNo: nat ::
      && ViewAllClients(s, pageNo, "name").Success?
      && ClientMapper.MapToViewAllClientsDto(LoadClient(s, id)) in ViewAllClients(s, pageNo, "name").value
  {
    assert Text.EqualsIgnoreCase("name", "name");
    ClientRepositoryPagination.FindAllSortedByNameComplete(s, id, ClientPageSize);
    var n: nat :| LoadClient(s, id) in ClientRepositoryPagination.FindAllSortedByName(s, PageRequest(n, ClientPageSize));
    var page := ClientRepositoryPagination.FindAllSortedByName(s, PageRequest(n, ClientPageSize));
    var i :| 0 <= i < |page| && page[i] == LoadClient(s, id);
    assert ToViews(page)[i] == ClientMapper.MapToViewAllClientsDto(LoadClient(s, id));
    var r := ViewAllClients(s, n, "name");
    assert r.Success? && r.value == ToViews(page);
  }

  /** Every live client whose name contains the filter, ignoring case, is shown on some page of `filterClients`. */
  lemma FilterClientsComplete(s: Store, filter: string, id: int)
    requires WellFormed(s) && ClientIsLive(s, id) && ClientRepositoryPagination.NameMatches(s.clients[id].name, filter)
    ensures exists pageNo: nat ::
      && FilterClients(s, pageNo, filter).Success?
      && ClientMapper.MapToViewAllClientsDto(LoadClient(s, id)) in FilterClients(s, pageNo, filter).value
  {
    ClientRepositoryPagination.FindByNameComplete(s, filter, id);
    var n: nat :| LoadClient(s, id) in ClientRepositoryPagination.FindByName(s, filter, PageRequest(n, ClientPageSize));
    var page := ClientRepositoryPagination.FindByName(s, filter, PageRequest(n, ClientPageSize));
    var i :| 0 <= i < |page| && page[i] == LoadClient(s, id);
    assert ToViews(page)[i] == ClientMapper.MapToViewAllClientsDto(LoadClient(s, id));
    var r := FilterClients(s, n, filter);
    assert r.Success? && r.value == ToViews(page);
  }

  /** The five fields `updateClient` overwrites from the DTO. */
  function Overwrite(c: Client, d: ClientDto): Client
  {
    c.(name := d.name, age := d.age, dateAndTimeOfBirth := d.dateAndTimeOfBirth,
       placeOfBirth := d.placeOfBirth, phoneNumber := d.phoneNumber)
  }

  /** The row `id` after an update: the five DTO fields are new, everything else is as before. */
  predicate UpdatedRow(before: Client, after: Client, d: ClientDto, image: Option<Bytes>)
  {
    && after.name == d.name && after.age == d.age && after.dateAndTimeOfBirth == d.dateAndTimeOfBirth
    && after.placeOfBirth == d.placeOfBirth && after.phoneNumber == d.phoneNumber
    && after.image == (if image.Some? then image else before.image)
    && after.isDeleted == before.isDeleted
  }

  /** Only row `id` of the client table changed; the consultation table and the id counters did not. */
  predicate OnlyRowChanged(s: Store, s': Store, id: int)
  {
    && s'.clients.Keys == s.clients.Keys
    && (forall k :: k in s.clients && k != id ==> s'.clients[k] == s.clients[k])
    && s'.consultations == s.consultations
    && s'.nextClientId == s.nextClientId && s'.nextConsultationId == s.nextConsultationId
  }

  /** The DTO carries the client row's six data fields. */
  predicate CarriesData(r: ClientDto, c: Client)
  {
    && r.name == c.name && r.phoneNumber == c.phoneNumber && r.age == c.age
    && r.dateAndTimeOfBirth == c.dateAndTimeOfBirth && r.placeOfBirth == c.placeOfBirth && r.image == c.image
  }

  /**
   * The answer of an update: the saved row's id and data, balance 0.0, and the client's
   * whole consultation list, soft-deleted rows included, or none when the list is empty.
   */
  predicate UpdateAnswer(s: Store, s': Store, id: int, r: ClientDto)
    requires id in s'.clients
  {
    && r.id == Some(id)
    && CarriesData(r, s'.clients[id])
    && r.balance == Some(0.0)
    && r.consultations == (if |ConsultationIdsOfClient(s, id)| > 0
                           then Some(ConsultationsMapper.MapAll(LoadConsultations(s, ConsultationIdsOfClient(s, id))))
                           else None)
  }

  function Update(s: Store, id: int, d: ClientDto, image: Option<Bytes>): (r: Reply<ClientDto>)
  {
    match ClientRepository.FindById(s, id)
    case None => Reply(s, Failure(ClientNotFound(id)))
    case Some(c) =>
      var c' := if image.Some? then Overwrite(c, d).(image := image) else Overwrite(c, d);
      var saved := SaveClient(s, c');
      Reply(saved.store, ClientMapper.MapToClientDtoWith(saved.entity, Some(0.0), c'.consultations))
  }

  /**
   * `updateClient(id, clientDto)`: a live client gets the DTO's name, age, birth
   * date, birth place and phone number; an absent or soft-deleted one is not found.
   * The answer carries balance 0.0, whatever is due.
   */
  function UpdateClient(s: Store, id: int, d: ClientDto): (r: Reply<ClientDto>)
    ensures r.result.Failure? <==> !ClientIsLive(s, id)
    ensures r.result.Failure? ==> r.result.error == ClientNotFound(id) && r.store == s
    ensures r.result.Success? ==>
      && OnlyRowChanged(s, r.store, id)
      && UpdatedRow(s.clients[id], r.store.clients[id], d, None)
      && !r.store.clients[id].isDeleted
      && UpdateAnswer(s, r.store, id, r.result.value)
  {
    Update(s, id, d, None)
  }

  /** `updateClient(id, clientDto, image)`: as `updateClient`, and the image is replaced too. */
  function UpdateClientWithImage(s: Store, id: int, d: ClientDto, image: Bytes): (r: Reply<ClientDto>)
    ensures r.result.Failure? <==> !ClientIsLive(s, id)
    ensures r.result.Failure? ==> r.result.error == ClientNotFound(id) && r.store == s
    ensures r.result.Success? ==>
      && OnlyRowChanged(s, r.store, id)
      && UpdatedRow(s.clients[id], r.store.clients[id], d, Some(image))
      && r.result.value.image == Some(image)
      && UpdateAnswer(s, r.store, id, r.result.value)
  {
    Update(s, id, d, Some(image))
  }

  /** `deleteClient(id)`: a live client is flagged deleted; anything else is not found. */
  function DeleteClient(s: Store, id: int): (r: Reply<()>)
    ensures r.result.Failure? <==> !ClientIsLive(s, id)
    ensures r.result.Failure? ==> r.result.error == ClientNotFound(id) && r.store == s
    ensures r.result.Success? ==>
      && OnlyRowChanged(s, r.store, id)
      && r.store.clients[id].isDeleted
      && SameClientData(r.store.clients[id], s.clients[id].(isDeleted := true))
  {
    match ClientRepository.FindById(s, id)
    case None => Reply(s, Failure(ClientNotFound(id)))
    case Some(c) => Reply(SaveClient(s, c.(isDeleted := true)).store, Success(()))
  }

  /** Deleting is not idempotent: the second delete of the same id always fails. */
  lemma DeleteClientTwiceFails(s: Store, id: int)
    ensures DeleteClient(DeleteClient(s, id).store, id).result == Failure(ClientNotFound(id))
  {
  }

  /** `Double.doubleValue()` over a stream, then `sum()`: a null entry throws. */
  function StreamSum(xs: seq<Option<real>>): (r: Option<real>)
    ensures r.Some? <==> forall i :: 0 <= i < |xs| ==> xs[i].Some?
    ensures r.Some? ==> r.value == ConsultationRepository.SumNonNull(xs)
    decreases |xs|
  {
    if xs == [] then Some(0.0)
    else match (xs[0], StreamSum(xs[1..]))
      case (Some(v), Some(rest)) => Some(v + rest)
      case _ => None
  }

  /**
   * `getClientById(id, page)`: a live client with balance equal to the sum of the
   * due amounts of its consultations, and one page of five of them. The page is
   * shown only when the client has consultations at all.
   */
  function GetClientById(s: Store, id: int, page: int): (r: Result<ClientDto, Error>)
    ensures !ClientIsLive(s, id) ==> r == Failure(ClientNotFound(id))
    ensures ClientIsLive(s, id) && page < 0 ==> r == Failure(IllegalArgument("Page index must not be less than zero"))
    ensures r.Success? <==>
      ClientIsLive(s, id) && page >= 0 && StreamSum(ConsultationRepository.FindDueAmountsByClientId(s, id)).Some?
    ensures ClientIsLive(s, id) && page >= 0 && StreamSum(ConsultationRepository.FindDueAmountsByClientId(s, id)).None?
      ==> r == Failure(NullPointer)
    ensures r.Success? ==>
      && r.value.id == Some(id)
      && CarriesData(r.value, s.clients[id])
      && r.value.balance == Some(ConsultationRepository.SumNonNull(ConsultationRepository.FindDueAmountsByClientId(s, id)))
      && (r.value.consultations.Some? <==> |ConsultationIdsOfClient(s, id)| > 0)
      && (r.value.consultations.Some? ==>
            r.value.consultations.value == ConsultationsMapper.MapAll(
              ConsultationPaginationRepository.FindByClientId(s, id, PageRequest(page, ConsultationPageSize)))
            && |r.value.consultations.value| <= ConsultationPageSize)
  {
    match ClientRepository.FindById(s, id)
    case None => Failure(ClientNotFound(id))
    case Some(c) =>
      match PageRequestOf(page, ConsultationPageSize)
      case Failure(e) => Failure(e)
      case Success(p) =>
        var consultations := ConsultationPaginationRepository.FindByClientId(s, id, p);
        match StreamSum(ConsultationRepository.FindDueAmountsByClientId(s, id))
        case None => Failure(NullPointer)
        case Some(due) => ClientMapper.MapToClientDtoWith(c, Some(due), Some(consultations))
  }
}
