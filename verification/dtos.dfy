/** The request/response shapes and their Bean-Validation constraints. */
module Dtos {
  import opened Wrappers
  import opened Dates
  import opened Entities

  datatype ConsultationDto = ConsultationDto(
    id: Option<int>,
    consultationDate: Option<Date>,
    notes: Option<string>,
    price: Option<real>,
    dueAmount: Option<real>,
    nextAppointment: Option<Date>)

  datatype ClientDto = ClientDto(
    id: Option<int>,
    name: Option<string>,
    dateAndTimeOfBirth: Option<Date>,
    age: int,
    placeOfBirth: Option<string>,
    phoneNumber: Option<string>,
    image: Option<Bytes>,
    consultations: Option<seq<ConsultationDto>>,
    balance: Option<real>)

  datatype ViewAllClientsDto = ViewAllClientsDto(id: Option<int>, name: Option<string>, phoneNumber: Option<string>)

  datatype FinancialReportDto = FinancialReportDto(monthlyEarning: Option<real>, totalEarning: Option<real>, totalDueAmount: Option<real>)

  const NameNull := "Name cannot be null"
  const BirthDateNull := "Date and time of birth cannot be null"
  const PlaceNull := "Place of birth cannot be null"
  const PhoneNull := "Phone number cannot be null"
  const PhoneSize := "Phone number should be of 10 digits."

  /** The constraints, read field by field: `@Size` lets null through, `@NotNull` on a primitive never fires. */
  predicate IsValidClientDto(d: ClientDto)
  {
    && d.name.Some?
    && d.dateAndTimeOfBirth.Some?
    && d.placeOfBirth.Some?
    && d.phoneNumber.Some?
    && |d.phoneNumber.value| == 10
  }

  /** The messages `Validator.validate` reports for a `ClientDto`. */
  function ClientViolations(d: ClientDto): (r: set<string>)
    ensures r == {} <==> IsValidClientDto(d)
    ensures NameNull in r <==> d.name.None?
    ensures BirthDateNull in r <==> d.dateAndTimeOfBirth.None?
    ensures PlaceNull in r <==> d.placeOfBirth.None?
    ensures PhoneNull in r <==> d.phoneNumber.None?
    ensures PhoneSize in r <==> d.phoneNumber.Some? && |d.phoneNumber.value| != 10
  {
    (if d.name.None? then {NameNull} else {})
    + (if d.dateAndTimeOfBirth.None? then {BirthDateNull} else {})
    + (if d.placeOfBirth.None? then {PlaceNull} else {})
    + (match d.phoneNumber
       case None => {PhoneNull}
       case Some(p) => if |p| != 10 then {PhoneSize} else {})
  }

  /** Neither the name's content, the age, the image, the list nor the balance is constrained. */
  lemma ClientDtoLooseFields(d: ClientDto, name: string, age: int, image: Option<Bytes>,
                             consultations: Option<seq<ConsultationDto>>, balance: Option<real>)
    requires IsValidClientDto(d)
    ensures IsValidClientDto(d.(name := Some(name), age := age, image := image,
                                consultations := consultations, balance := balance))
  {
  }

  /** Any ten characters pass as a phone number; digits are not required. */
  lemma PhoneNeedNotBeDigits(d: ClientDto, phone: string)
    requires IsValidClientDto(d) && |phone| == 10
    ensures IsValidClientDto(d.(phoneNumber := Some(phone)))
  {
  }

  predicate IsValidConsultationDto(d: ConsultationDto)
  {
    d.consultationDate.Some? && d.notes.Some? && d.price.Some? && d.dueAmount.Some?
  }

  const DateNull := "Consultation date cannot be null"
  const NotesNull := "Notes cannot be null"
  const PriceNull := "Price cannot be null"
  const DueNull := "Due amount cannot be null"

  /** The messages `@Valid` reports for a `ConsultationDto`; `id` and `nextAppointment` are free. */
  function ConsultationViolations(d: ConsultationDto): (r: set<string>)
    ensures r == {} <==> IsValidConsultationDto(d)
    ensures DateNull in r <==> d.consultationDate.None?
    ensures NotesNull in r <==> d.notes.None?
    ensures PriceNull in r <==> d.price.None?
    ensures DueNull in r <==> d.dueAmount.None?
  {
    (if d.consultationDate.None? then {DateNull} else {})
    + (if d.notes.None? then {NotesNull} else {})
    + (if d.price.None? then {PriceNull} else {})
    + (if d.dueAmount.None? then {DueNull} else {})
  }

  /** Empty notes, any id and a null next appointment are all accepted. */
  lemma ConsultationDtoLooseFields(d: ConsultationDto, id: Option<int>, next: Option<Date>)
    requires IsValidConsultationDto(d)
    ensures IsValidConsultationDto(d.(id := id, notes := Some(""), nextAppointment := next))
  {
  }
}
