/** `ConsultationsMapper`: field copies between the consultation entity and its DTO. */
module ConsultationsMapper {
  import opened Wrappers
  import opened Errors
  import opened Entities
  import opened Dtos

  /** `mapToConsultationDto` on a present consultation. */
  function MapToConsultationDto(c: Consultation): (d: ConsultationDto)
    ensures d.id == c.id && d.consultationDate == c.consultationDate && d.notes == c.notes
    ensures d.price == c.price && d.dueAmount == c.dueAmount && d.nextAppointment == c.nextAppointment
  {
    ConsultationDto(c.id, c.consultationDate, c.notes, c.price, c.dueAmount, c.nextAppointment)
  }

  /** `mapToConsultationDto(Optional<Consultation>)`: `get()` throws on an empty Optional. */
  function MapOptionalToConsultationDto(o: Option<Consultation>): (r: Result<ConsultationDto, Error>)
    ensures o.None? <==> r == Failure(NoSuchElement)
    ensures o.Some? ==> r == Success(MapToConsultationDto(o.value))
  {
    match o
    case None => Failure(NoSuchElement)
    case Some(c) => Success(MapToConsultationDto(c))
  }

  /** `mapToConsultation`: the five data fields, through the five-argument constructor. */
  function MapToConsultation(d: ConsultationDto): (c: Consultation)
    ensures c.consultationDate == d.consultationDate && c.notes == d.notes && c.price == d.price
    ensures c.dueAmount == d.dueAmount && c.nextAppointment == d.nextAppointment
    ensures c.id.None? && c.clientId.None? && !c.isDeleted
  {
    NewConsultation(d.consultationDate, d.notes, d.price, d.dueAmount, d.nextAppointment)
  }

  /** Round trip: a DTO mapped to an entity and back keeps its data and loses only its id. */
  lemma ConsultationRoundTrip(d: ConsultationDto)
    ensures MapToConsultationDto(MapToConsultation(d)) == d.(id := None)
  {
  }

  function MapAll(cs: seq<Consultation>): (r: seq<ConsultationDto>)
    ensures |r| == |cs|
    ensures forall i :: 0 <= i < |cs| ==> r[i] == MapToConsultationDto(cs[i])
  {
    seq(|cs|, i requires 0 <= i < |cs| => MapToConsultationDto(cs[i]))
  }
}

/** `ClientMapper`: field copies between the client entity and its DTOs. */
module ClientMapper {
  import opened Wrappers
  import opened Errors
  import opened Entities
  import opened Dtos
  import ConsultationsMapper

  /** The client's own `@OneToMany` list is neither null nor empty. */
  predicate HasConsultations(c: Client)
  {
    c.consultations.Some? && |c.consultations.value| > 0
  }

  /**
   * The three-argument `mapToClientDto`: the client's fields, the given balance, and
   * the GIVEN list mapped, but only when the client's OWN list is non-empty. A null
   * given list in that case throws.
   */
  function MapToClientDtoWith(c: Client, dueAmount: Option<real>, consultations: Option<seq<Consultation>>)
    : (r: Result<ClientDto, Error>)
    ensures r.Failure? <==> HasConsultations(c) && consultations.None?
    ensures r.Failure? ==> r.error == NullPointer
    ensures r.Success? ==>
      && r.value.id == c.id && r.value.name == c.name && r.value.age == c.age
      && r.value.dateAndTimeOfBirth == c.dateAndTimeOfBirth && r.value.placeOfBirth == c.placeOfBirth
      && r.value.phoneNumber == c.phoneNumber && r.value.image == c.image
      && r.value.balance == dueAmount
      && (r.value.consultations.Some? <==> HasConsultations(c))
      && (HasConsultations(c) ==> r.value.consultations == Some(ConsultationsMapper.MapAll(consultations.value)))
  {
    var base := ClientDto(c.id, c.name, c.dateAndTimeOfBirth, c.age, c.placeOfBirth, c.phoneNumber,
                          c.image, None, dueAmount);
    if !HasConsultations(c) then Success(base)
    else match consultations
      case None => Failure(NullPointer)
      case Some(list) => Success(base.(consultations := Some(ConsultationsMapper.MapAll(list))))
  }

  /** The one-argument `mapToClientDto`: balance and consultations stay null. */
  function MapToClientDto(c: Client): (d: ClientDto)
    ensures d.id == c.id && d.name == c.name && d.age == c.age
    ensures d.dateAndTimeOfBirth == c.dateAndTimeOfBirth && d.placeOfBirth == c.placeOfBirth
    ensures d.phoneNumber == c.phoneNumber && d.image == c.image
    ensures d.balance.None? && d.consultations.None?
  {
    ClientDto(c.id, c.name, c.dateAndTimeOfBirth, c.age, c.placeOfBirth, c.phoneNumber, c.image, None, None)
  }

  /** `mapToClient`: the six data fields; id, balance and consultations are not copied. */
  function MapToClient(d: ClientDto): (c: Client)
    ensures c.name == d.name && c.age == d.age && c.dateAndTimeOfBirth == d.dateAndTimeOfBirth
    ensures c.placeOfBirth == d.placeOfBirth && c.phoneNumber == d.phoneNumber && c.image == d.image
    ensures c.id.None? && !c.isDeleted && c.consultations.None?
  {
    NewClient(d.name, d.age, d.dateAndTimeOfBirth, d.placeOfBirth, d.phoneNumber, d.image)
  }

  /** `mapToViewAllClientsDto`: exactly id, name and phone number. */
  function MapToViewAllClientsDto(c: Client): (v: ViewAllClientsDto)
    ensures v.id == c.id && v.name == c.name && v.phoneNumber == c.phoneNumber
  {
    ViewAllClientsDto(c.id, c.name, c.phoneNumber)
  }

  /** Round trip: a DTO mapped to an entity and back keeps its six data fields and nothing else. */
  lemma ClientRoundTrip(d: ClientDto)
    ensures MapToClientDto(MapToClient(d)) == d.(id := None, consultations := None, balance := None)
  {
  }

  /**
   * With no own consultations (a freshly built client) the three-argument mapper
   * ignores the given list, so a null list is harmless; that is how `createClient` calls it.
   */
  lemma FreshClientMapsWithoutList(d: ClientDto, balance: real)
    ensures MapToClientDtoWith(MapToClient(d), Some(balance), None)
         == Success(d.(id := None, consultations := None, balance := Some(balance)))
  {
  }
}
