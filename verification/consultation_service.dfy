/** `ConsultationServiceImpl`: the consultation operations as transitions of the store. */
module ConsultationService {
  import opened Wrappers
  import opened Errors
  import opened Dates
  import opened Entities
  import opened Dtos
  import opened Database
  import opened ConsultationsMapper
  import ClientRepository
  import ConsultationRepository
  import MonthUtil

  /** The five fields a consultation DTO supplies and `updateConsultation` overwrites. */
  predicate SameConsultationData(c: Consultation, d: ConsultationDto)
  {
    && c.consultationDate == d.consultationDate && c.notes == d.notes && c.price == d.price
    && c.dueAmount == d.dueAmount && c.nextAppointment == d.nextAppointment
  }

  /**
   * `createConsultation(dto, clientId)`: attaches a new live consultation to a live
   * client. For an absent or soft-deleted client, `Optional.get` throws and nothing is stored.
   */
  function CreateConsultation(s: Store, d: ConsultationDto, clientId: int): (r: Reply<ConsultationDto>)
    ensures r.result.Failure? <==> !ClientIsLive(s, clientId)
    ensures r.result.Failure? ==> r.result.error == NoSuchElement && r.store == s
    ensures r.result.Success? ==>
      var k := s.nextConsultationId;
      && r.store.consultations.Keys == s.consultations.Keys + {k}
      && SameConsultationData(r.store.consultations[k], d)
      && r.store.consultations[k].clientId == Some(clientId)
      && !r.store.consultations[k].isDeleted
      && (forall j :: j in s.consultations && j != k ==> r.store.consultations[j] == s.consultations[j])
      && r.store.clients == s.clients
      && r.result.value == d.(id := Some(k))
    ensures WellFormed(s) ==> WellFormed(r.store)
  {
    var existing := ClientRepository.FindById(s, clientId);
    var consultation := MapToConsultation(d);
    match existing
    case None => Reply(s, Failure(NoSuchElement))
    case Some(client) =>
      var saved := SaveConsultation(s, consultation.(clientId := client.id, isDeleted := false));
      Reply(saved.store, Success(MapToConsultationDto(saved.entity)))
  }

  /**
   * `getAllConsultations(clientId)`: every consultation of a live client, its
   * soft-deleted ones included; an absent or soft-deleted client makes `Optional.get` throw.
   */
  function GetAllConsultations(s: Store, clientId: int): (r: Result<seq<ConsultationDto>, Error>)
    ensures r.Failure? <==> !ClientIsLive(s, clientId)
    ensures r.Failure? ==> r.error == NoSuchElement
    ensures r.Success? ==> r.value == MapAll(ConsultationRepository.FindAllByClient(s, clientId))
  {
    match ClientRepository.FindById(s, clientId)
    case None => Failure(NoSuchElement)
    case Some(client) => Success(MapAll(ConsultationRepository.FindAllByClient(s, client.id.value)))
  }

  /** `getConsultation(id)`: a live consultation, or ConsultationNotFound. */
  function GetConsultation(s: Store, id: int): (r: Result<ConsultationDto, Error>)
    ensures r.Failure? <==> !ConsultationIsLive(s, id)
    ensures r.Failure? ==> r.error == ConsultationNotFound(id)
    ensures r.Success? ==> r.value.id == Some(id) && SameConsultationData(s.consultations[id], r.value)
  {
    match ConsultationRepository.FindById(s, id)
    case None => Failure(ConsultationNotFound(id))
    case Some(c) => MapOptionalToConsultationDto(Some(c))
  }

  /** Only row `id` of the consultation table changed; the client table and the counters did not. */
  predicate OnlyRowChanged(s: Store, s': Store, id: int)
  {
    && s'.consultations.Keys == s.consultations.Keys
    && (forall k :: k in s.consultations && k != id ==> s'.consultations[k] == s.consultations[k])
    && s'.clients == s.clients
    && s'.nextClientId == s.nextClientId && s'.nextConsultationId == s.nextConsultationId
  }

  /**
   * `updateConsultation(id, dto)`: overwrites notes, date, price, due amount and next
   * appointment of a live consultation. An absent or soft-deleted one makes
   * `Optional.get` throw: a generic error, not ConsultationNotFound.
   */
  function UpdateConsultation(s: Store, id: int, d: ConsultationDto): (r: Reply<ConsultationDto>)
    ensures r.result.Failure? <==> !ConsultationIsLive(s, id)
    ensures r.result.Failure? ==> r.result.error == NoSuchElement && r.store == s
    ensures r.result.Success? ==>
      && OnlyRowChanged(s, r.store, id)
      && SameConsultationData(r.store.consultations[id], d)
      && r.store.consultations[id].clientId == s.consultations[id].clientId
      && r.store.consultations[id].isDeleted == s.consultations[id].isDeleted
      && r.result.value == d.(id := Some(id))
  {
    match ConsultationRepository.FindById(s, id)
    case None => Reply(s, Failure(NoSuchElement))
    case Some(c) =>
      var updated := c.(notes := d.notes, consultationDate := d.consultationDate, price := d.price,
                        dueAmount := d.dueAmount, nextAppointment := d.nextAppointment);
      var saved := SaveConsultation(s, updated);
      Reply(saved.store, Success(MapToConsultationDto(saved.entity)))
  }

  /** `deleteConsultation(id)`: a live consultation is flagged deleted; anything else is not found. */
  function DeleteConsultation(s: Store, id: int): (r: Reply<()>)
    ensures r.result.Failure? <==> !ConsultationIsLive(s, id)
    ensures r.result.Failure? ==> r.result.error == ConsultationNotFound(id) && r.store == s
    ensures r.result.Success? ==>
      && OnlyRowChanged(s, r.store, id)
      && r.store.consultations[id] == s.consultations[id].(id := Some(id), isDeleted := true)
  {
    match ConsultationRepository.FindById(s, id)
    case None => Reply(s, Failure(ConsultationNotFound(id)))
    case Some(c) => Reply(SaveConsultation(s, c.(isDeleted := true)).store, Success(()))
  }

  /** The second delete of the same consultation always fails with ConsultationNotFound. */
  lemma DeleteConsultationTwiceFails(s: Store, id: int)
    ensures DeleteConsultation(DeleteConsultation(s, id).store, id).result == Failure(ConsultationNotFound(id))
  {
  }

  /**
   * `getFinancialReport(date)`: the month's constant name is converted back to its
   * number and passed, with the year, to the monthly query; the two totals follow.
   */
  function GetFinancialReport(s: Store, date: Date): (r: Result<FinancialReportDto, Error>)
    ensures r.Success?
    ensures r.value.monthlyEarning == ConsultationRepository.FindMonthlyEarnings(s, date.month, date.year)
    ensures r.value.totalEarning == ConsultationRepository.FindTotalEarnings(s)
    ensures r.value.totalDueAmount == ConsultationRepository.FindTotalBalance(s)
  {
    MonthUtil.MonthNameRoundTrip(date.month);
    match MonthUtil.ConvertMonthNameToInt(MonthUtil.MonthName(date.month))
    case Failure(e) => Failure(e)
    case Success(m) =>
      Success(FinancialReportDto(
        ConsultationRepository.FindMonthlyEarnings(s, m, date.year),
        ConsultationRepository.FindTotalEarnings(s),
        ConsultationRepository.FindTotalBalance(s)))
  }
}

/** The one step of `ConsultationController` with logic of its own: an empty list becomes an exception. */
module ConsultationController {
  import opened Wrappers
  import opened Errors
  import opened Dtos
  import opened Database
  import ConsultationService

  /** `GET /astrotrack/consultation/{clientId}`: ConsultationListEmpty when the service returns no rows. */
  function GetAllConsultations(s: Store, clientId: int): (r: Result<seq<ConsultationDto>, Error>)
    ensures r.Success? ==> |r.value| > 0 && r == ConsultationService.GetAllConsultations(s, clientId)
    ensures r == Failure(ConsultationListEmpty) <==> ConsultationService.GetAllConsultations(s, clientId) == Success([])
    ensures !ClientIsLive(s, clientId) ==> r == Failure(NoSuchElement)
  {
    match ConsultationService.GetAllConsultations(s, clientId)
    case Failure(e) => Failure(e)
    case Success(list) => if |list| == 0 then Failure(ConsultationListEmpty) else Success(list)
  }
}
