# AstroTrack record store, modelled in Dafny

AstroTrack is a Spring Boot back end for an astrologer's practice. It keeps
**clients** (name, birth date and time, age, place of birth, phone number,
photo) and each client's **consultations** (date, notes, price, amount still
due, next appointment). Nothing is ever removed. Deleting a client or a
consultation sets its `isDeleted` flag, and every query then decides for
itself which flags it honours.

This project models that core as pure functions over an immutable store. It
covers:

- the two service classes, `ClientServiceImpl` and `ConsultationServiceImpl`;
- the SQL/JPQL predicates of the four repositories;
- the two mappers and the two entities;
- Bean Validation on the two DTOs;
- `MonthUtil.convertMonthNameToInt`;
- the status mapping of `GlobalExceptionHandler`.

## How the model reads

- **Store** (`database.dfy`). Two tables, `map<int, Client>` and
  `map<int, Consultation>`, plus the next identity value of each.
  - A stored consultation refers to its client by id.
  - Loading a client fills its `@OneToMany` list from the consultation table,
    deleted rows included.
  - `WellFormed` says that ids lie below the counters and that every
    consultation's client exists.
- **Services.** Each service call is a function `Store -> Reply`, pairing the
  new store with `Success(value)` or `Failure(error)`. Every failing call
  leaves the store unchanged, and each contract says so.
- **Errors.** Java exceptions become the `Error` kinds of `errors.dfy`:
  - `ClientNotFound`, `ConsultationNotFound` and `ConsultationListEmpty`
    are the application's own exceptions;
  - `NoSuchElement` is `Optional.get` on an empty optional;
  - `IllegalArgument` is `PageRequest.of` or `Month.valueOf` on bad input;
  - `NullPointer` is unboxing or dereferencing null.
- **Java values.**
  - Java `null` is `None`.
  - `Double` is `real`.
  - `byte[]` is `seq<bv8>`.
  - Strings use ASCII case mapping.
- **Listing order.** Listings scan ids in ascending order. An unordered SQL
  query has no defined order, so this is one admissible order.
- **Deletion filters.** Which flags each query honours is the heart of the
  model:
  - `findById` on either table hides soft-deleted rows;
  - the inherited `findAll` hides nothing;
  - `findAllByClient`, the due amounts and the three report sums honour only
    the *client's* flag, so a deleted consultation of a live client is still
    listed and counted;
  - `findByClientId` honours no flag at all.

Behaviour the proofs make explicit:

- **No idempotent deletes.** Deleting twice fails the second time.
- **Update error kinds.** `updateConsultation` of a missing id answers 400
  (a bare `Optional.get`), while `getConsultation` answers 404.
- **Update balance.** `updateClient` always reports a balance of 0.0.
- **Deleted consultations.** Deleting a consultation changes no figure of the
  financial report, and `getAllConsultations` still lists it.
- **Null due amounts.** `getClientById` throws when any due amount of the
  client is null, because `Double::doubleValue` unboxes it.
- **Empty filter.** `findByName` with an empty filter matches every live client
  whose name is not null. `LOWER(NULL) LIKE '%%'` is not true.
- **Null report figures.** SQL `SUM` is null when no row has a value. All three
  report figures are null when no live client has a consultation.

## Model

| member | source | states |
|---|---|---|
| Entities.NewClient | AstroTrack_Web_Application/src/main/java/com/example/AstroTrack/entity/Client.java:85-92 | the six-argument constructor stores its arguments unchanged and leaves the id unassigned, the flag false and the consultation list null |
| Entities.NewConsultation | AstroTrack_Web_Application/src/main/java/com/example/AstroTrack/entity/Consultation.java:77-83 | the five-argument constructor stores its arguments unchanged and leaves the id and client unassigned and the flag false |
| Dtos.ClientViolations | AstroTrack_Web_Application/src/main/java/com/example/AstroTrack/dto/ClientDto.java:32-59 | each of the five messages is reported exactly when its constraint fails, and there are no violations exactly when the DTO is valid |
| Dtos.ClientDtoLooseFields | AstroTrack_Web_Application/src/main/java/com/example/AstroTrack/dto/ClientDto.java:32-74 | name content, age, image, consultation list and balance never affect validity |
| Dtos.PhoneNeedNotBeDigits | AstroTrack_Web_Application/src/main/java/com/example/AstroTrack/dto/ClientDto.java:57-59 | every ten-character string, letters included, passes as the phone number of a valid DTO |
| Dtos.ConsultationViolations | AstroTrack_Web_Application/src/main/java/com/example/AstroTrack/dto/ConsultationDto.java:29-53 | each of the four not-null messages is reported exactly when its field is null, and there are none exactly when the DTO is valid |
| Dtos.ConsultationDtoLooseFields | AstroTrack_Web_Application/src/main/java/com/example/AstroTrack/dto/ConsultationDto.java:24-53 | id, empty notes and a null next appointment never affect validity |
| MonthUtil.ConvertMonthNameToInt | AstroTrack_Web_Application/src/main/java/com/example/AstroTrack/utils/MonthUtil.java:16-20 | succeeds exactly when the upper-cased input is one of the twelve month names; the result is then in 1..12 and names that month; otherwise it fails with Month.valueOf's message |
| MonthUtil.MonthNameRoundTrip | AstroTrack_Web_Application/src/main/java/com/example/AstroTrack/utils/MonthUtil.java:16-20 | converting a month's own constant name gives back its number |
| MonthUtil.ConvertIgnoresCase | AstroTrack_Web_Application/src/main/java/com/example/AstroTrack/utils/MonthUtil.java:18 | inputs equal up to case convert alike |
| MonthUtil.LowerCaseMonthName | AstroTrack_Web_Application/src/main/java/com/example/AstroTrack/utils/MonthUtil.java:18 | a lower-case month name still converts to its month |
| MonthUtil.NonMonthFails | AstroTrack_Web_Application/src/main/java/com/example/AstroTrack/utils/MonthUtil.java:18 | a string that is no month name, in any case, fails |
| GlobalExceptionHandler.HandleException | AstroTrack_Web_Application/src/main/java/com/example/AstroTrack/exception/GlobalExceptionHandler.java:21-73 | 404 exactly for ClientNotFound, ConsultationNotFound and ConsultationListEmpty, 400 for every other error; the body carries the same status, the error's own message and the given timestamp |
| Errors.ClientNotFoundMessageNamesId | AstroTrack_Web_Application/src/main/java/com/example/AstroTrack/service/Impl/ClientServiceImpl.java:172-176 | two ClientNotFound messages are equal only for equal ids |
| ConsultationsMapper.MapToConsultationDto | AstroTrack_Web_Application/src/main/java/com/example/AstroTrack/mapper/ConsultationsMapper.java:21-30 | all six DTO fields are copied from the entity |
| ConsultationsMapper.MapOptionalToConsultationDto | AstroTrack_Web_Application/src/main/java/com/example/AstroTrack/mapper/ConsultationsMapper.java:21-30 | an empty Optional fails with NoSuchElement, and only that; a present one maps to exactly mapToConsultationDto of its value, all six fields |
| ConsultationsMapper.MapToConsultation | AstroTrack_Web_Application/src/main/java/com/example/AstroTrack/mapper/ConsultationsMapper.java:38-46 | the five data fields are copied; id and client stay unset and the flag false |
| ConsultationsMapper.ConsultationRoundTrip | AstroTrack_Web_Application/src/main/java/com/example/AstroTrack/mapper/ConsultationsMapper.java:21-46 | mapping a DTO to an entity and back returns the DTO with its id dropped |
| ConsultationsMapper.MapAll | AstroTrack_Web_Application/src/main/java/com/example/AstroTrack/service/Impl/ConsultationServiceImpl.java:61-63 | the stream map keeps length and order, position by position |
| ClientMapper.MapToClientDtoWith | AstroTrack_Web_Application/src/main/java/com/example/AstroTrack/mapper/ClientMapper.java:30-47 | balance is the given due amount; the list is set exactly when the client's own list is non-null and non-empty, and then holds the PASSED consultations mapped; a null passed list then throws |
| ClientMapper.MapToClientDto | AstroTrack_Web_Application/src/main/java/com/example/AstroTrack/mapper/ClientMapper.java:55-65 | the seven entity fields are copied; balance and consultations stay null |
| ClientMapper.MapToClient | AstroTrack_Web_Application/src/main/java/com/example/AstroTrack/mapper/ClientMapper.java:73-76 | the six data fields are copied; id, list and flag take the constructor defaults |
| ClientMapper.MapToViewAllClientsDto | AstroTrack_Web_Application/src/main/java/com/example/AstroTrack/mapper/ClientMapper.java:84-86 | exactly id, name and phone number are copied |
| ClientMapper.ClientRoundTrip | AstroTrack_Web_Application/src/main/java/com/example/AstroTrack/mapper/ClientMapper.java:55-76 | mapToClientDto(mapToClient(d)) is d without id, consultations and balance |
| ClientMapper.FreshClientMapsWithoutList | AstroTrack_Web_Application/src/main/java/com/example/AstroTrack/service/Impl/ClientServiceImpl.java:53-56 | a client new from a DTO maps without a list, whatever list is passed |
| Paging.PageRequestOf | AstroTrack_Web_Application/src/main/java/com/example/AstroTrack/service/Impl/ClientServiceImpl.java:92 | PageRequest.of rejects a negative page index with "Page index must not be less than zero" and otherwise a size below one with "Page size must not be less than one"; a valid pair is accepted |
| Paging.PageContent | AstroTrack_Web_Application/src/main/java/com/example/AstroTrack/repository/ClientRepositoryPagination.java:40-41 | a page holds at most its size and is the consecutive run of the selected rows starting at page times size |
| Paging.PagesCover | AstroTrack_Web_Application/src/main/java/com/example/AstroTrack/repository/ClientRepositoryPagination.java:40-41 | every selected row is on page k / size at position k % size |
| Database.SaveClient | AstroTrack_Web_Application/src/main/java/com/example/AstroTrack/service/Impl/ClientServiceImpl.java:56 | save inserts under the next identity value when the id is unset and overwrites otherwise; no other row changes |
| Database.SaveConsultation | AstroTrack_Web_Application/src/main/java/com/example/AstroTrack/service/Impl/ConsultationServiceImpl.java:50 | save inserts or overwrites exactly one consultation row and leaves the client table alone |
| Database.ConsultationIdsOfClient | AstroTrack_Web_Application/src/main/java/com/example/AstroTrack/entity/Client.java:72-73 | the ids behind a client's `@OneToMany` list are consultations of that client, each once, in ascending id order |
| NameOrder.SortByNameSorted | AstroTrack_Web_Application/src/main/java/com/example/AstroTrack/repository/ClientRepositoryPagination.java:21 | the name ordering (nulls last) yields a list sorted by name |
| NameOrder.SortByNamePermutes | AstroTrack_Web_Application/src/main/java/com/example/AstroTrack/repository/ClientRepositoryPagination.java:21 | ordering by name neither loses nor adds a row |
| NameOrder.NameLeTotal | AstroTrack_Web_Application/src/main/java/com/example/AstroTrack/repository/ClientRepositoryPagination.java:21 | any two names are comparable |
| NameOrder.NameLeTransitive | AstroTrack_Web_Application/src/main/java/com/example/AstroTrack/repository/ClientRepositoryPagination.java:21 | the name order is transitive |
| Text.ContainsIffOccurs | AstroTrack_Web_Application/src/main/java/com/example/AstroTrack/repository/ClientRepositoryPagination.java:31 | the LIKE '%x%' test holds exactly when x occurs at some position |
| ClientRepository.FindById | AstroTrack_Web_Application/src/main/java/com/example/AstroTrack/repository/ClientRepository.java:20-21 | a client is returned exactly when the row exists and is not deleted; it carries the requested id, the stored data and its consultation list |
| ClientRepository.DeletedClientNotFound | AstroTrack_Web_Application/src/main/java/com/example/AstroTrack/repository/ClientRepository.java:20-21 | an absent or soft-deleted id yields empty |
| ClientRepository.FindAll | AstroTrack_Web_Application/src/main/java/com/example/AstroTrack/service/Impl/ClientServiceImpl.java:79-80 | the inherited findAll returns one entity per stored row, with that row's data |
| ClientRepository.FindAllIncludesDeleted | AstroTrack_Web_Application/src/main/java/com/example/AstroTrack/service/Impl/ClientServiceImpl.java:79-80 | a soft-deleted client is still returned by findAll |
| ClientRepositoryPagination.LiveClientIds | AstroTrack_Web_Application/src/main/java/com/example/AstroTrack/repository/ClientRepositoryPagination.java:40 | the is_deleted = false scan selects exactly the live clients, each once, in ascending id order |
| ClientRepositoryPagination.FindAll | AstroTrack_Web_Application/src/main/java/com/example/AstroTrack/repository/ClientRepositoryPagination.java:40-41 | page p is the p-th slice of the live clients: at most the page size, only live clients, each once and in ascending id order |
| ClientRepositoryPagination.FindAllSortedByName | AstroTrack_Web_Application/src/main/java/com/example/AstroTrack/repository/ClientRepositoryPagination.java:21-22 | page p is the p-th slice of the live clients sorted by name ascending: at most the page size, only live clients, in name order |
| ClientRepositoryPagination.FindByName | AstroTrack_Web_Application/src/main/java/com/example/AstroTrack/repository/ClientRepositoryPagination.java:31-32 | page p is the p-th slice of the live clients whose lower-cased name contains the lower-cased filter, each once and in ascending id order |
| ClientRepositoryPagination.SortedLiveClients | AstroTrack_Web_Application/src/main/java/com/example/AstroTrack/repository/ClientRepositoryPagination.java:21-22 | the rows ORDER BY name ASC ranges over are all live clients and are in name order |
| ClientRepositoryPagination.FindAllSortedByNameComplete | AstroTrack_Web_Application/src/main/java/com/example/AstroTrack/repository/ClientRepositoryPagination.java:21-22 | every live client appears on some page of the name-sorted listing |
| ClientRepositoryPagination.MatchingIds | AstroTrack_Web_Application/src/main/java/com/example/AstroTrack/repository/ClientRepositoryPagination.java:31 | the selected ids are exactly the live clients whose name matches, each once, in ascending id order |
| ClientRepositoryPagination.FindByNameComplete | AstroTrack_Web_Application/src/main/java/com/example/AstroTrack/repository/ClientRepositoryPagination.java:31-32 | every live client whose name matches the filter appears on some page |
| ClientRepositoryPagination.EmptyFilterMatchesNamed | AstroTrack_Web_Application/src/main/java/com/example/AstroTrack/repository/ClientRepositoryPagination.java:31 | the empty filter matches every non-null name |
| ConsultationRepository.FindById | AstroTrack_Web_Application/src/main/java/com/example/AstroTrack/repository/ConsultationRepository.java:67-68 | a consultation is returned exactly when the row exists and is not deleted, with the requested id |
| ConsultationRepository.IdsByLiveClient | AstroTrack_Web_Application/src/main/java/com/example/AstroTrack/repository/ConsultationRepository.java:23 | the selected ids belong to the client, none for a deleted client, and all of them for a live one |
| ConsultationRepository.FindAllByClient | AstroTrack_Web_Application/src/main/java/com/example/AstroTrack/repository/ConsultationRepository.java:23-24 | only stored consultations of that client, each with its own id; none when the client is soft-deleted |
| ConsultationRepository.FindAllByClientComplete | AstroTrack_Web_Application/src/main/java/com/example/AstroTrack/repository/ConsultationRepository.java:23-24 | for a live client every consultation is listed, soft-deleted ones included |
| ConsultationRepository.FindDueAmountsByClientId | AstroTrack_Web_Application/src/main/java/com/example/AstroTrack/repository/ConsultationRepository.java:32-33 | one due amount per row findAllByClient selects, in the same order |
| ConsultationRepository.SumNonNullAppend | AstroTrack_Web_Application/src/main/java/com/example/AstroTrack/repository/ConsultationRepository.java:40-41 | the sum skipping nulls over two row lists joined is the sum of the two parts |
| ConsultationRepository.SqlSumAppend | AstroTrack_Web_Application/src/main/java/com/example/AstroTrack/repository/ConsultationRepository.java:40-41 | SQL SUM over joined rows is null only when both parts are null, otherwise the sum of the non-null parts |
| ConsultationRepository.RowsOfLiveClients | AstroTrack_Web_Application/src/main/java/com/example/AstroTrack/repository/ConsultationRepository.java:40 | the rows the aggregates read are exactly the stored consultations of live clients, deleted consultations included, each once and in ascending id order |
| ConsultationRepository.LiveClientRowIds | AstroTrack_Web_Application/src/main/java/com/example/AstroTrack/repository/ConsultationRepository.java:40 | the ids selected by `client_id IN (live clients)` are consultations of live clients, each once, in ascending id order |
| ConsultationRepository.PricesNullIff | AstroTrack_Web_Application/src/main/java/com/example/AstroTrack/repository/ConsultationRepository.java:40-41 | SUM of prices is null exactly when every selected row has a null price |
| ConsultationRepository.DueAmountsNullIff | AstroTrack_Web_Application/src/main/java/com/example/AstroTrack/repository/ConsultationRepository.java:48-49 | SUM of due amounts is null exactly when every selected row has a null due amount |
| ConsultationRepository.FindTotalEarnings | AstroTrack_Web_Application/src/main/java/com/example/AstroTrack/repository/ConsultationRepository.java:40-41 | null exactly when no consultation of a live client has a price; otherwise the sum of the non-null prices of those consultations, deleted ones included |
| ConsultationRepository.FindTotalBalance | AstroTrack_Web_Application/src/main/java/com/example/AstroTrack/repository/ConsultationRepository.java:48-49 | null exactly when no consultation of a live client has a due amount; otherwise the sum of the non-null due amounts of those consultations |
| ConsultationRepository.FindMonthlyEarnings | AstroTrack_Web_Application/src/main/java/com/example/AstroTrack/repository/ConsultationRepository.java:58-59 | null exactly when no consultation of a live client dated in that month and year has a price; otherwise the sum of those non-null prices |
| ConsultationPaginationRepository.FindByClientId | AstroTrack_Web_Application/src/main/java/com/example/AstroTrack/repository/ConsultationPaginationRepository.java:23-24 | at most the page size, every row of that client, drawn in order from all its consultations whatever either flag says |
| ConsultationPaginationRepository.FindByClientIdComplete | AstroTrack_Web_Application/src/main/java/com/example/AstroTrack/repository/ConsultationPaginationRepository.java:23-24 | every consultation of a client lies on some page, whether it or its client is soft-deleted |
| ClientService.CreateClient | AstroTrack_Web_Application/src/main/java/com/example/AstroTrack/service/Impl/ClientServiceImpl.java:53-57 | always succeeds; stores the DTO's data under the next id as a live row and changes nothing else; answers with that id, no list and balance 0.0; keeps the store well formed; the new client is found by id |
| ClientService.CreateClientWithImage | AstroTrack_Web_Application/src/main/java/com/example/AstroTrack/service/Impl/ClientServiceImpl.java:67-72 | as createClient, but the stored and returned image is the uploaded one |
| ClientService.GetAllClients | AstroTrack_Web_Application/src/main/java/com/example/AstroTrack/service/Impl/ClientServiceImpl.java:79-81 | one DTO per stored row, deleted or not, carrying that row's id, name, phone, age, date and time of birth, place of birth and image |
| ClientService.GetAllClientsListsDeleted | AstroTrack_Web_Application/src/main/java/com/example/AstroTrack/service/Impl/ClientServiceImpl.java:79-81 | a soft-deleted client is listed |
| ClientService.ViewAllClients | AstroTrack_Web_Application/src/main/java/com/example/AstroTrack/service/Impl/ClientServiceImpl.java:91-101 | fails only for a negative page; at most 10 views, all of live clients; when sort equals "name" ignoring case, exactly the views of the findAllSortedByName page, else of the findAll page |
| ClientService.FilterClients | AstroTrack_Web_Application/src/main/java/com/example/AstroTrack/service/Impl/ClientServiceImpl.java:111-118 | fails only for a negative page, with "Page index must not be less than zero"; otherwise exactly the views of the findByName page of size 10 |
| ClientService.ViewAllClientsByNameComplete | AstroTrack_Web_Application/src/main/java/com/example/AstroTrack/service/Impl/ClientServiceImpl.java:91-101 | every live client's view appears on some page of the name-sorted listing |
| ClientService.FilterClientsComplete | AstroTrack_Web_Application/src/main/java/com/example/AstroTrack/service/Impl/ClientServiceImpl.java:111-118 | every live client whose name matches the filter has its view on some page of the filtered listing |
| ClientService.UpdateClient | AstroTrack_Web_Application/src/main/java/com/example/AstroTrack/service/Impl/ClientServiceImpl.java:127-140 | fails with ClientNotFound exactly for an absent or deleted id, store unchanged; otherwise overwrites exactly the five data fields of that row and no other row, and answers with the saved row's id and data, balance 0.0 and the client's whole consultation list, deleted ones included |
| ClientService.UpdateClientWithImage | AstroTrack_Web_Application/src/main/java/com/example/AstroTrack/service/Impl/ClientServiceImpl.java:151-165 | as updateClient, and the image is replaced too: the answer carries the saved row's id, data and new image, balance 0.0 and the whole consultation list |
| ClientService.DeleteClient | AstroTrack_Web_Application/src/main/java/com/example/AstroTrack/service/Impl/ClientServiceImpl.java:172-180 | fails with ClientNotFound exactly for an absent or deleted id, store unchanged; otherwise sets only that row's flag |
| ClientService.DeleteClientTwiceFails | AstroTrack_Web_Application/src/main/java/com/example/AstroTrack/service/Impl/ClientServiceImpl.java:172-175 | a second delete of the same id fails with ClientNotFound |
| ClientService.StreamSum | AstroTrack_Web_Application/src/main/java/com/example/AstroTrack/service/Impl/ClientServiceImpl.java:195-196 | the unboxing stream sum succeeds exactly when no entry is null, and is then the sum of the entries |
| ClientService.GetClientById | AstroTrack_Web_Application/src/main/java/com/example/AstroTrack/service/Impl/ClientServiceImpl.java:189-199 | ClientNotFound for an absent or deleted id; a bad page index next; a null due amount gives NullPointer (answered 400 by the generic handler); otherwise the client's id and six data fields, balance the sum of the due amounts, and page `page` of size 5 of findByClientId when the client has consultations |
| ConsultationService.CreateConsultation | AstroTrack_Web_Application/src/main/java/com/example/AstroTrack/service/Impl/ConsultationServiceImpl.java:45-51 | fails with NoSuchElement exactly when the client is absent or deleted, storing nothing; otherwise stores one new live row of that client under the next id and answers with it; keeps the store well formed |
| ConsultationService.GetAllConsultations | AstroTrack_Web_Application/src/main/java/com/example/AstroTrack/service/Impl/ConsultationServiceImpl.java:59-65 | NoSuchElement exactly for an absent or deleted client; otherwise exactly findAllByClient mapped to DTOs |
| ConsultationService.GetConsultation | AstroTrack_Web_Application/src/main/java/com/example/AstroTrack/service/Impl/ConsultationServiceImpl.java:73-77 | ConsultationNotFound exactly for an absent or deleted id; otherwise that row's data under its id |
| ConsultationService.UpdateConsultation | AstroTrack_Web_Application/src/main/java/com/example/AstroTrack/service/Impl/ConsultationServiceImpl.java:86-94 | NoSuchElement (not ConsultationNotFound) exactly for an absent or deleted id, store unchanged; otherwise overwrites exactly the five data fields and keeps id, client and flag |
| ConsultationService.DeleteConsultation | AstroTrack_Web_Application/src/main/java/com/example/AstroTrack/service/Impl/ConsultationServiceImpl.java:101-108 | ConsultationNotFound exactly for an absent or deleted id, store unchanged; otherwise sets only that row's flag |
| ConsultationService.DeleteConsultationTwiceFails | AstroTrack_Web_Application/src/main/java/com/example/AstroTrack/service/Impl/ConsultationServiceImpl.java:101-103 | a second delete of the same id fails with ConsultationNotFound |
| ConsultationService.GetFinancialReport | AstroTrack_Web_Application/src/main/java/com/example/AstroTrack/service/Impl/ConsultationServiceImpl.java:116-124 | the month round trip never fails; the monthly query gets the date's own month number and year, and the totals are the two sums |
| ConsultationController.GetAllConsultations | AstroTrack_Web_Application/src/main/java/com/example/AstroTrack/controller/ConsultationController.java:55-61 | an empty list becomes ConsultationListEmpty, a non-empty one passes through, and a service failure passes through |
| Lifecycle.OpEvolves | AstroTrack_Web_Application/src/main/java/com/example/AstroTrack/service/Impl/ClientServiceImpl.java:53-180 | each of the eight mutating calls (createClient (both forms), updateClient (both forms) and deleteClient in ClientServiceImpl.java, and createConsultation, updateConsultation and deleteConsultation in ConsultationServiceImpl.java) keeps the store well formed, keeps every row and client reference, and never clears a deleted flag; the cited lines hold the client-side five |
| Lifecycle.RunEvolves | AstroTrack_Web_Application/src/main/java/com/example/AstroTrack/service/Impl/ConsultationServiceImpl.java:45-108 | over any sequence of the eight mutating calls (createClient (both forms), updateClient (both forms) and deleteClient in ClientServiceImpl.java, and createConsultation, updateConsultation and deleteConsultation in ConsultationServiceImpl.java), deletion is permanent and no row disappears; the cited lines hold the consultation-side three |
| Lifecycle.ReachableWellFormed | AstroTrack_Web_Application/src/main/java/com/example/AstroTrack/service/Impl/ConsultationServiceImpl.java:45-51 | every store reachable from the empty one by the eight mutating calls (createClient (both forms), updateClient (both forms) and deleteClient in ClientServiceImpl.java, and createConsultation, updateConsultation and deleteConsultation in ConsultationServiceImpl.java) is well formed; the cited createConsultation is one representative |
| Lifecycle.DeletedClientStaysHidden | AstroTrack_Web_Application/src/main/java/com/example/AstroTrack/repository/ClientRepository.java:20-21 | once deleted, a client is not found by getClientById or deleteClient after any sequence of calls |
| Lifecycle.MissingConsultationStatuses | AstroTrack_Web_Application/src/main/java/com/example/AstroTrack/service/Impl/ConsultationServiceImpl.java:73-94 | for the same missing id, getConsultation answers 404 and updateConsultation answers 400 |
| Lifecycle.DeletedConsultationStillListed | AstroTrack_Web_Application/src/main/java/com/example/AstroTrack/repository/ConsultationRepository.java:23-24 | after deleteConsultation, getAllConsultations of its live client still lists it |
| Lifecycle.DeletedClientConsultations | AstroTrack_Web_Application/src/main/java/com/example/AstroTrack/repository/ConsultationPaginationRepository.java:23-24 | after deleteClient, findAllByClient is empty for that client but every consultation of it is still on some findByClientId page |
| ReportFacts.DeleteConsultationKeepsReport | AstroTrack_Web_Application/src/main/java/com/example/AstroTrack/repository/ConsultationRepository.java:40-59 | deleting a consultation leaves all three report figures unchanged |
| ReportFacts.MonthlyWithinTotal | AstroTrack_Web_Application/src/main/java/com/example/AstroTrack/repository/ConsultationRepository.java:40-59 | with no negative price stored, a non-null month's earnings imply non-null total earnings at least as large |
| ReportFacts.EmptyReportIsNull | AstroTrack_Web_Application/src/main/java/com/example/AstroTrack/service/Impl/ConsultationServiceImpl.java:116-124 | with no consultation of a live client, all three report figures are null |

## Left out

- Authentication, refresh tokens and users are left out. Their services' implementations are not part of this model.
- Controllers are left out: routing, JSON and multipart parsing, and response building. The exception is the empty-list check of `getAllConsultations`.
- `MultipartFile.getBytes` may throw `IOException`. The uploaded image is a parameter, so that failure is not modelled.
- `Double` arithmetic is exact `real` arithmetic here. Java's `DoubleStream.sum` uses compensated summation, so its rounding is not modelled.
- Java `Long` and `int` widths are not modelled, and ids are unbounded integers.
- LIKE wildcards (`%`, `_`) inside the filter string are matched literally, as a plain substring.
- `ORDER BY name` is modelled as code-point order with nulls last. The database's collation and null placement are not modelled.
- Case mapping is ASCII only. Locale-sensitive `toUpperCase` and SQL `LOWER` are not modelled.
- `@Size` counts `char`s. Here a string's length counts its elements.
- `EXTRACT(MONTH/YEAR ...)` reads the stored date's month and year fields. Time zones are not modelled.
- Identity generation hands out consecutive ids from a counter.
- An unordered query's row order is unspecified in the database. Here it is ascending id.
- `@Transactional` and JPA cascading are not modelled, and neither are lazy loading and the entity cache. Each call reads and writes the store directly.
- The timestamp of an error body is a parameter, not `System.currentTimeMillis`.
- The message of a JVM `NullPointerException` is modelled as null. The JVM's helpful-message text is not modelled.
- `ClientMapper.mapToUpdateClientDto` and `UpdateClientDto` are never called, so they are not modelled.
- `Client.getIsDeleted` is a plain field read and has no member of its own.
- A consultation refers to its client by id rather than by object. `getClient` is not modelled.
- Validation is modelled as predicates only. Where and whether Spring invokes it (`@Valid` on controller parameters) is not modelled.
