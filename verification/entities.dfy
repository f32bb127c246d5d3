/**
 * The two persisted entities. Every Java reference field is an `Option`
 * (`None` is null); `age` and `isDeleted` are primitives and never null.
 * A consultation refers to its client by id, the `client_id` column behind
 * the `@ManyToOne` reference.
 */
module Entities {
  import opened Wrappers
  import opened Dates

  type Bytes = seq<bv8>

  datatype Consultation = Consultation(
    id: Option<int>,
    consultationDate: Option<Date>,
    notes: Option<string>,
    price: Option<real>,
    dueAmount: Option<real>,
    nextAppointment: Option<Date>,
    clientId: Option<int>,
    isDeleted: bool)

  /** `consultations` is the `@OneToMany(mappedBy = "client")` list, null until loaded. */
  datatype Client = Client(
    id: Option<int>,
    name: Option<string>,
    dateAndTimeOfBirth: Option<Date>,
    age: int,
    placeOfBirth: Option<string>,
    phoneNumber: Option<string>,
    image: Option<Bytes>,
    isDeleted: bool,
    consultations: Option<seq<Consultation>>)

  /** The six-argument `Client` constructor: the data fields as given, everything else at its default. */
  function NewClient(name: Option<string>, age: int, dateAndTimeOfBirth: Option<Date>,
                     placeOfBirth: Option<string>, phoneNumber: Option<string>, image: Option<Bytes>): (c: Client)
    ensures c.name == name && c.age == age && c.dateAndTimeOfBirth == dateAndTimeOfBirth
    ensures c.placeOfBirth == placeOfBirth && c.phoneNumber == phoneNumber && c.image == image
    ensures c.id.None?             // generated on save
    ensures !c.isDeleted
    ensures c.consultations.None?
  {
    Client(None, name, dateAndTimeOfBirth, age, placeOfBirth, phoneNumber, image, false, None)
  }

  /** The five-argument `Consultation` constructor: no id, no client, not deleted. */
  function NewConsultation(consultationDate: Option<Date>, notes: Option<string>, price: Option<real>,
                           dueAmount: Option<real>, nextAppointment: Option<Date>): (c: Consultation)
    ensures c.consultationDate == consultationDate && c.notes == notes && c.price == price
    ensures c.dueAmount == dueAmount && c.nextAppointment == nextAppointment
    ensures c.id.None?
    ensures c.clientId.None?
    ensures !c.isDeleted
  {
    Consultation(None, consultationDate, notes, price, dueAmount, nextAppointment, None, false)
  }
}
