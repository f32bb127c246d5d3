/**
 * The store under every mutating service call: rows are never removed, a soft
 * delete is never undone, and the tables stay well formed. Also the contrasts
 * between the queries' different deletion filters.
 */
module Lifecycle {
  import opened Wrappers
  import opened Errors
  import opened Entities
  import opened Dtos
  import opened Database
  import opened Paging
  import ClientService
  import ConsultationService
  import ConsultationRepository
  import ConsultationPaginationRepository
  import ConsultationsMapper
  import GlobalExceptionHandler

  /** Every service call that writes to the store. */
  datatype Op =
    | CreateClient(client: ClientDto)
    | CreateClientWithImage(client: ClientDto, image: Bytes)
    | UpdateClient(id: int, client: ClientDto)
    | UpdateClientWithImage(id: int, client: ClientDto, image: Bytes)
    | DeleteClient(id: int)
    | CreateConsultation(consultation: ConsultationDto, clientId: int)
    | UpdateConsultation(id: int, consultation: ConsultationDto)
    | DeleteConsultation(id: int)

  function Apply(s: Store, op: Op): Store
  {
    match op
    case CreateClient(d) => ClientService.CreateClient(s, d).store
    case CreateClientWithImage(d, image) => ClientService.CreateClientWithImage(s, d, image).store
    case UpdateClient(id, d) => ClientService.UpdateClient(s, id, d).store
    case UpdateClientWithImage(id, d, image) => ClientService.UpdateClientWithImage(s, id, d, image).store
    case DeleteClient(id) => ClientService.DeleteClient(s, id).store
    case CreateConsultation(d, clientId) => ConsultationService.CreateConsultation(s, d, clientId).store
    case UpdateConsultation(id, d) => ConsultationService.UpdateConsultation(s, id, d).store
    case DeleteConsultation(id) => ConsultationService.DeleteConsultation(s, id).store
  }

  /** What one call may do to a well-formed store: keep it well formed, keep every row, never undelete. */
  predicate Evolves(s: Store, s': Store)
  {
    && WellFormed(s')
    && s.clients.Keys <= s'.clients.Keys
    && s.consultations.Keys <= s'.consultations.Keys
    && (forall k :: k in s.clients && s.clients[k].isDeleted ==> s'.clients[k].isDeleted)
    && (forall k :: k in s.consultations && s.consultations[k].isDeleted ==> s'.consultations[k].isDeleted)
    && (forall k :: k in s.consultations ==> s'.consultations[k].clientId == s.consultations[k].clientId)
  }

  lemma OpEvolves(s: Store, op: Op)
    requires WellFormed(s)
    ensures Evolves(s, Apply(s, op))
  {
    match op
    case CreateClient(d) => CreateClientEvolves(s, ClientService.CreateClient(s, d));
    case CreateClientWithImage(d, image) => CreateClientEvolves(s, ClientService.CreateClientWithImage(s, d, image));
    case UpdateClient(id, d) => ClientRowEvolves(s, ClientService.UpdateClient(s, id, d).store, id);
    case UpdateClientWithImage(id, d, image) => ClientRowEvolves(s, ClientService.UpdateClientWithImage(s, id, d, image).store, id);
    case DeleteClient(id) => ClientRowEvolves(s, ClientService.DeleteClient(s, id).store, id);
    case CreateConsultation(d, clientId) => CreateConsultationEvolves(s, d, clientId);
    case UpdateConsultation(id, d) => ConsultationRowEvolves(s, ConsultationService.UpdateConsultation(s, id, d).store, id);
    case DeleteConsultation(id) => ConsultationRowEvolves(s, ConsultationService.DeleteConsultation(s, id).store, id);
  }

  lemma CreateClientEvolves(s: Store, r: Reply<ClientDto>)
    requires WellFormed(s) && s.nextClientId !in s.clients && WellFormed(r.store)
    requires r.store.clients.Keys == s.clients.Keys + {s.nextClientId}
    requires forall k :: k in s.clients ==> r.store.clients[k] == s.clients[k]
    requires r.store.consultations == s.consultations
    ensures Evolves(s, r.store)
  {
  }

  lemma ClientRowEvolves(s: Store, s': Store, id: int)
    requires WellFormed(s)
    requires s' == s || (ClientService.OnlyRowChanged(s, s', id) && id in s.clients && !s.clients[id].isDeleted)
    ensures Evolves(s, s')
  {
  }

  lemma CreateConsultationEvolves(s: Store, d: ConsultationDto, clientId: int)
    requires WellFormed(s)
    ensures Evolves(s, ConsultationService.CreateConsultation(s, d, clientId).store)
  {
  }

  lemma ConsultationRowEvolves(s: Store, s': Store, id: int)
    requires WellFormed(s)
    requires s' == s || (ConsultationService.OnlyRowChanged(s, s', id) && id in s.consultations
                         && !s.consultations[id].isDeleted
                         && s'.consultations[id].clientId == s.consultations[id].clientId)
    ensures Evolves(s, s')
  {
  }

  function Run(s: Store, ops: seq<Op>): Store
    decreases |ops|
  {
    if ops == [] then s else Run(Apply(s, ops[0]), ops[1..])
  }

  lemma EvolvesTransitive(s: Store, s': Store, s'': Store)
    requires Evolves(s, s') && Evolves(s', s'')
    ensures Evolves(s, s'')
  {
  }

  /**
   * Over any sequence of calls the store stays well formed, keeps every row, and a
   * soft-deleted client or consultation stays deleted: there is no undelete.
   */
  lemma {:induction false} RunEvolves(s: Store, ops: seq<Op>)
    requires WellFormed(s)
    ensures Evolves(s, Run(s, ops))
    decreases |ops|
  {
    if ops == [] {
      assert Run(s, ops) == s;
    } else {
      OpEvolves(s, ops[0]);
      RunEvolves(Apply(s, ops[0]), ops[1..]);
      EvolvesTransitive(s, Apply(s, ops[0]), Run(s, ops));
    }
  }

  /** Starting from the empty database, every reachable store is well formed. */
  lemma ReachableWellFormed(ops: seq<Op>)
    ensures WellFormed(Run(Empty, ops))
  {
    RunEvolves(Empty, ops);
  }

  /** Once a client is deleted, every later lookup by id fails with ClientNotFound. */
  lemma DeletedClientStaysHidden(s: Store, id: int, ops: seq<Op>, page: int)
    requires WellFormed(s)
    requires id in s.clients && s.clients[id].isDeleted
    ensures ClientService.GetClientById(Run(s, ops), id, page) == Failure(ClientNotFound(id))
    ensures ClientService.DeleteClient(Run(s, ops), id).result == Failure(ClientNotFound(id))
  {
    RunEvolves(s, ops);
  }

  /**
   * The same missing consultation answers 404 through `getConsultation` but 400
   * through `updateConsultation`, whose `Optional.get` throws a generic exception.
   */
  lemma MissingConsultationStatuses(s: Store, id: int, d: ConsultationDto, now: int)
    requires !ConsultationIsLive(s, id)
    ensures GlobalExceptionHandler.HandleException(
              ConsultationService.GetConsultation(s, id).error, now).status == GlobalExceptionHandler.NotFound
    ensures GlobalExceptionHandler.HandleException(
              ConsultationService.UpdateConsultation(s, id, d).result.error, now).status == GlobalExceptionHandler.BadRequest
  {
  }

  /** A soft-deleted consultation of a live client is still listed by `getAllConsultations`. */
  lemma DeletedConsultationStillListed(s: Store, id: int)
    requires WellFormed(s) && ConsultationIsLive(s, id)
    requires ClientIsLive(s, s.consultations[id].clientId.value)
    ensures var s' := ConsultationService.DeleteConsultation(s, id).store;
            var clientId := s.consultations[id].clientId.value;
            && s'.consultations[id].isDeleted
            && ConsultationService.GetAllConsultations(s', clientId).Success?
            && ConsultationsMapper.MapToConsultationDto(LoadConsultation(s', id))
                 in ConsultationService.GetAllConsultations(s', clientId).value
  {
    var s' := ConsultationService.DeleteConsultation(s, id).store;
    var clientId := s.consultations[id].clientId.value;
    OpEvolves(s, DeleteConsultation(id));
    ConsultationRepository.FindAllByClientComplete(s', clientId, id);
    var rows := ConsultationRepository.FindAllByClient(s', clientId);
    var i :| 0 <= i < |rows| && rows[i] == LoadConsultation(s', id);
    assert ConsultationsMapper.MapAll(rows)[i] == ConsultationsMapper.MapToConsultationDto(LoadConsultation(s', id));
  }

  /**
   * Deleting a client empties `findAllByClient` for it, while the paginated
   * `findByClientId` still finds every one of its consultations on some page.
   */
  lemma DeletedClientConsultations(s: Store, clientId: int, k: int)
    requires WellFormed(s) && ClientIsLive(s, clientId)
    requires k in s.consultations && s.consultations[k].clientId == Some(clientId)
    ensures var s' := ClientService.DeleteClient(s, clientId).store;
            && ConsultationRepository.FindAllByClient(s', clientId) == []
            && exists page: nat :: LoadConsultation(s', k) in
                 ConsultationPaginationRepository.FindByClientId(s', clientId, PageRequest(page, 5))
  {
    var s' := ClientService.DeleteClient(s, clientId).store;
    OpEvolves(s, DeleteClient(clientId));
    ConsultationPaginationRepository.FindByClientIdComplete(s', clientId, k, 5);
  }
}
