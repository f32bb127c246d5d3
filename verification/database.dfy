/**
 * The persisted state: the `client` and `consultation` tables, keyed by their
 * generated ids, plus the next value of each identity column. Rows are never
 * removed; a soft delete only sets `isDeleted`. Queries without an `ORDER BY`
 * return rows in ascending id order.
 */
module Database {
  import opened Wrappers
  import opened Errors
  import opened Entities
  import Seqs

  datatype Store = Store(
    clients: map<int, Client>,
    consultations: map<int, Consultation>,
    nextClientId: int,
    nextConsultationId: int)

  const Empty := Store(map[], map[], 1, 1)

  /** The result of a service call: the store after it, and its return value or exception. */
  datatype Reply<T> = Reply(store: Store, result: Result<T, Error>)

  /** Integrity of the tables: ids come from the identity columns and every consultation belongs to a stored client. */
  predicate WellFormed(s: Store)
  {
    && 1 <= s.nextClientId
    && 1 <= s.nextConsultationId
    && (forall k :: k in s.clients ==> 1 <= k < s.nextClientId)
    && (forall k :: k in s.consultations ==> 1 <= k < s.nextConsultationId)
    && (forall k :: k in s.consultations ==>
          s.consultations[k].clientId.Some? && s.consultations[k].clientId.value in s.clients)
  }

  function ClientIds(s: Store): seq<int>
  {
    Seqs.KeysBetween(s.clients, 1, s.nextClientId)
  }

  function ConsultationIds(s: Store): seq<int>
  {
    Seqs.KeysBetween(s.consultations, 1, s.nextConsultationId)
  }

  /** In a well-formed store the scans see every row. */
  lemma ScansComplete(s: Store)
    requires WellFormed(s)
    ensures forall k :: k in ClientIds(s) <==> k in s.clients
    ensures forall k :: k in ConsultationIds(s) <==> k in s.consultations
  {
  }

  predicate ClientIsLive(s: Store, id: int)
  {
    id in s.clients && !s.clients[id].isDeleted
  }

  predicate ConsultationIsLive(s: Store, id: int)
  {
    id in s.consultations && !s.consultations[id].isDeleted
  }

  /** The consultation row `k` as an entity: its id is the key. */
  function LoadConsultation(s: Store, k: int): Consultation
    requires k in s.consultations
  {
    s.consultations[k].(id := Some(k))
  }

  function LoadConsultations(s: Store, ks: seq<int>): seq<Consultation>
    requires forall k :: k in ks ==> k in s.consultations
  {
    seq(|ks|, i requires 0 <= i < |ks| => LoadConsultation(s, ks[i]))
  }

  /** Ids of every consultation whose `client_id` is `k`, deleted ones included. */
  function ConsultationIdsOfClient(s: Store, k: int): (r: seq<int>)
    ensures forall j :: j in r ==> j in s.consultations && s.consultations[j].clientId == Some(k)
    ensures Seqs.Ascending(r)
  {
    var ofClient := j => j in s.consultations && s.consultations[j].clientId == Some(k);
    Seqs.FilterAscending(ConsultationIds(s), ofClient);
    Seqs.Filter(ConsultationIds(s), ofClient)
  }

  /** The client row `k` as an entity, with its `@OneToMany` list filled in from the consultation table. */
  function LoadClient(s: Store, k: int): Client
    requires k in s.clients
  {
    s.clients[k].(id := Some(k), consultations := Some(LoadConsultations(s, ConsultationIdsOfClient(s, k))))
  }

  function LoadClients(s: Store, ks: seq<int>): seq<Client>
    requires forall k :: k in ks ==> k in s.clients
  {
    seq(|ks|, i requires 0 <= i < |ks| => LoadClient(s, ks[i]))
  }

  /** The stored client fields the services read and write, apart from the id and the list. */
  predicate SameClientData(a: Client, b: Client)
  {
    && a.name == b.name && a.dateAndTimeOfBirth == b.dateAndTimeOfBirth && a.age == b.age
    && a.placeOfBirth == b.placeOfBirth && a.phoneNumber == b.phoneNumber && a.image == b.image
    && a.isDeleted == b.isDeleted
  }

  datatype Saved<T> = Saved(store: Store, entity: T)

  /**
   * `clientRepository.save`: a client without an id is inserted under the next
   * identity value; one with an id overwrites that row. The list is not a column.
   */
  function SaveClient(s: Store, c: Client): (r: Saved<Client>)
    ensures c.id.Some? ==> r.entity == c && r.store.nextClientId == s.nextClientId
    ensures c.id.None? ==> r.entity == c.(id := Some(s.nextClientId)) && r.store.nextClientId == s.nextClientId + 1
    ensures r.entity.id.Some?
    ensures r.store.clients.Keys == s.clients.Keys + {r.entity.id.value}
    ensures SameClientData(r.store.clients[r.entity.id.value], c)
    ensures forall k :: k in s.clients && k != r.entity.id.value ==> r.store.clients[k] == s.clients[k]
    ensures r.store.consultations == s.consultations && r.store.nextConsultationId == s.nextConsultationId
  {
    var k := if c.id.Some? then c.id.value else s.nextClientId;
    var entity := c.(id := Some(k));
    var next := if c.id.Some? then s.nextClientId else s.nextClientId + 1;
    Saved(s.(clients := s.clients[k := entity.(consultations := None)], nextClientId := next), entity)
  }

  /** `consultationRepository.save`, with the same insert-or-overwrite rule. */
  function SaveConsultation(s: Store, c: Consultation): (r: Saved<Consultation>)
    ensures c.id.Some? ==> r.entity == c && r.store.nextConsultationId == s.nextConsultationId
    ensures c.id.None? ==> r.entity == c.(id := Some(s.nextConsultationId))
                           && r.store.nextConsultationId == s.nextConsultationId + 1
    ensures r.entity.id.Some?
    ensures r.store.consultations == s.consultations[r.entity.id.value := r.entity]
    ensures r.store.clients == s.clients && r.store.nextClientId == s.nextClientId
  {
    var k := if c.id.Some? then c.id.value else s.nextConsultationId;
    var entity := c.(id := Some(k));
    var next := if c.id.Some? then s.nextConsultationId else s.nextConsultationId + 1;
    Saved(s.(consultations := s.consultations[k := entity], nextConsultationId := next), entity)
  }
}
