# msvc-clients service core in Dafny

This project models the business core of the `msvc-clients` banking
microservice, a Spring WebFlux application over MongoDB, and proves properties
of that model. The core has four parts:

- **Client service** (`ClientServiceImpl`). Clients are PERSONAL or
  EMPRESARIAL. On create, an EMPRESARIAL client must name at least one legal
  representative. Its representatives and authorized signatories are then
  bulk-created through their own services, and their ids are copied into the
  client document. Reads reassemble a client into a DTO (`getData`).
- **Legal-representative and authorized-signatory services**. They are two
  copies of one CRUD service, keyed by document number on create and update.
  The signatory delete reuses the legal-representative message.
- **Person service**. It is CRUD with not-found checks on update and delete,
  and no uniqueness check on create.
- **DTO mappers** (`toDto`/`toEntity` of the four DTOs), the four enums with
  their `fromValue` parsers, and the two response factories.

## How the model reads the system

- A Java `null` is `None`. A field of type `String` is `Text = Option<string>`.
- A Reactor `Mono` result is an `Outcome`:
  - `Value(x)` when it emits;
  - `Empty` when it completes empty;
  - `Error(f)` when it signals an exception. `f` is a `BankException(message, kind)` or an `IllegalArgument(message)`.
- Each MongoDB collection is a `Store.Table`: a map from id to document, plus the keys in natural (insertion) order. The repository operations the services call are modelled as table functions:
  - `save`: an upsert by id; a document without an id gets a fresh one.
  - `saveAll`: the documents saved one after another, in input order.
  - `findById` and `findAll`.
  - `findAllById`: stored documents in natural order; unknown ids are skipped.
  - `delete`.
  - the derived `findByDocumentNumber`: the first match in natural order.
- Each service is a class whose `table` (`clients` for the client service) is reassigned by its state-changing methods. The client service holds the two link services it is wired to.
- Reactor pipelines are read as sequential code:
  - `Mono.zip(a, b)` runs `a` to completion, then `b`.
  - If `b` is empty, the zip is empty.
  - `switchIfEmpty`, `flatMap` and `map` act on the outcome of the previous step.
- `LocalDate.now()` is the parameter `today`. `LocalDateTime.now()` is the parameter `now`.

Client, legal-representative and signatory records carry their own name and
document fields. The signatory record has a `personId` field, but
`AuthorizedSignatoryDto.toEntity` leaves it null and no service calls
`findByPersonId`, so no stored record refers to a Person record in practice.
`ClientServiceImpl` never calls `PersonService`. The person service is therefore modelled on its
own.

Two further points:

- The client and signatory DAO interfaces declare only `findByPersonId`, but
  the services call `findByDocumentNumber` on them. Every table therefore gets
  a document-number lookup.
- The signatory document class declares only `id`, `personId` and `status`.
  The signatory record carries the fields its DTO mapper reads and writes.

## Model

| member | source | states |
|---|---|---|
| Enums.FromValue | src/main/java/com/piere/bootcamp/clients/model/enums/ClientTypeEnum.java:31-38 | The `for` search over the constants returns the first constant, in declaration order, whose value string equals the input, and fails exactly when no constant matches. The failure message is "Unexpected value '…'". |
| Enums.ParseClientType | src/main/java/com/piere/bootcamp/clients/model/enums/ClientTypeEnum.java:31-38 | Accepts a string iff it is the exact value string of some constant, and then the constant's value equals it; otherwise the "Unexpected value" error. |
| Enums.ClientTypeFromValue | src/main/java/com/piere/bootcamp/clients/model/enums/ClientTypeEnum.java:31-38 | The search loop over `values()` gives the same result as the reference parser on every string. |
| Enums.ClientTypeToString | src/main/java/com/piere/bootcamp/clients/model/enums/ClientTypeEnum.java:20-28 | `toString` equals `getValue`, and parses back to the same constant. |
| Enums.ClientTypeRoundTrip | src/main/java/com/piere/bootcamp/clients/model/enums/ClientTypeEnum.java:10-38 | fromValue(getValue(c)) == c for PERSONAL and EMPRESARIAL. |
| Enums.ParseDocumentType | src/main/java/com/piere/bootcamp/clients/model/enums/DocumentTypeEnum.java:35-42 | Accepts exactly the four value strings DNI, CE, RUC and PASSPORT, each mapped to its constant; rejects every other string with the "Unexpected value" message. |
| Enums.DocumentTypeFromValue | src/main/java/com/piere/bootcamp/clients/model/enums/DocumentTypeEnum.java:35-42 | The search loop agrees with the reference parser. |
| Enums.DocumentTypeToString | src/main/java/com/piere/bootcamp/clients/model/enums/DocumentTypeEnum.java:24-32 | `toString` equals `getValue` and parses back. |
| Enums.DocumentTypeValueInjective | src/main/java/com/piere/bootcamp/clients/model/enums/DocumentTypeEnum.java:10-16 | The value strings are pairwise distinct, so `getValue` is injective and `fromValue` inverts it. |
| Enums.DocumentTypeIsCaseSensitive | src/main/java/com/piere/bootcamp/clients/model/enums/DocumentTypeEnum.java:36-41 | Matching is exact: "dni" is rejected. |
| Enums.ParseProfileType | src/main/java/com/piere/bootcamp/clients/model/enums/ProfileTypeEnum.java:30-38 | Accepts exactly VIP, NORMAL and PYME; rejects everything else with the "Unexpected value" message. |
| Enums.ProfileTypeFromValue | src/main/java/com/piere/bootcamp/clients/model/enums/ProfileTypeEnum.java:30-38 | The search loop agrees with the reference parser. |
| Enums.ProfileTypeToString | src/main/java/com/piere/bootcamp/clients/model/enums/ProfileTypeEnum.java:20-28 | `toString` equals `getValue` and parses back. |
| Enums.ProfileTypeRoundTrip | src/main/java/com/piere/bootcamp/clients/model/enums/ProfileTypeEnum.java:10-38 | fromValue(getValue(p)) == p for all three constants. Matching is case-sensitive: "vip" fails. |
| Enums.ParseTypeException | src/main/java/com/piere/bootcamp/clients/model/enums/TypeException.java:30-38 | Accepts exactly "Advertencia" (A) and "Error" (E); rejects everything else with the "Unexpected value" message. |
| Enums.TypeExceptionFromValue | src/main/java/com/piere/bootcamp/clients/model/enums/TypeException.java:30-38 | The search loop agrees with the reference parser. |
| Enums.TypeExceptionToString | src/main/java/com/piere/bootcamp/clients/model/enums/TypeException.java:20-28 | `toString` equals `getValue` and parses back. |
| Enums.TypeExceptionNamesAreNotValues | src/main/java/com/piere/bootcamp/clients/model/enums/TypeException.java:10-37 | The value strings are accepted. The constant names "A" and "E" are rejected, because they differ from the value strings. |
| Responses.BankError | src/main/java/com/piere/bootcamp/clients/model/dto/BankResponse.java:32-34 | `error` is unsuccessful, has no data, and keeps the code, message and type it is given. |
| Responses.BankOk | src/main/java/com/piere/bootcamp/clients/model/dto/BankResponse.java:36-38 | `ok` is successful with code "200" and no type, and keeps the message and data. |
| Responses.BankOkIsNotBankError | src/main/java/com/piere/bootcamp/clients/model/dto/BankResponse.java:32-38 | No `ok` envelope equals an `error` envelope, whatever the arguments. |
| Responses.ResponseOk | src/main/java/com/piere/bootcamp/clients/model/dto/Response.java:22-24 | `ok` is successful and keeps the message and data. |
| Responses.ResponseError | src/main/java/com/piere/bootcamp/clients/model/dto/Response.java:26-28 | `error` is unsuccessful, has no data, and keeps the message. |
| Responses.ResponseOkIsNotResponseError | src/main/java/com/piere/bootcamp/clients/model/dto/Response.java:22-28 | No `ok` envelope equals an `error` envelope. |
| PersonDtos.ToEntity | src/main/java/com/piere/bootcamp/clients/model/dto/PersonDto.java:84-99 | Copies id and documentNumber; the DTO's `lastname` becomes the entity's `lastName`. |
| PersonDtos.ToDto | src/main/java/com/piere/bootcamp/clients/model/dto/PersonDto.java:66-81 | Copies id and documentNumber, maps `lastName` back to `lastname`, and `toEntity` inverts it: no entity field is lost. |
| PersonDtos.DtoRoundTrip | src/main/java/com/piere/bootcamp/clients/model/dto/PersonDto.java:66-99 | toDto(toEntity(d)) == d: all twelve DTO fields survive. |
| LegalRepresentativeDtos.ToEntity | src/main/java/com/piere/bootcamp/clients/model/dto/LegalRepresentativeDto.java:72-85 | Copies id, documentNumber and status. |
| LegalRepresentativeDtos.ToDto | src/main/java/com/piere/bootcamp/clients/model/dto/LegalRepresentativeDto.java:57-70 | Leaves birthDate null, copies id, documentNumber and status, and is inverted by `toEntity`. |
| LegalRepresentativeDtos.DtoRoundTrip | src/main/java/com/piere/bootcamp/clients/model/dto/LegalRepresentativeDto.java:49-85 | toDto(toEntity(d)) is d with birthDate null, so a DTO with a birthDate does not come back equal. |
| AuthorizedSignatoryDtos.ToEntity | src/main/java/com/piere/bootcamp/clients/model/dto/AuthorizedSignatoryDto.java:71-84 | Copies id, documentNumber and status; personId stays null. |
| AuthorizedSignatoryDtos.ToDto | src/main/java/com/piere/bootcamp/clients/model/dto/AuthorizedSignatoryDto.java:56-69 | Copies id, documentNumber and status; `toEntity` gives back the entity except personId. |
| AuthorizedSignatoryDtos.DtoRoundTrip | src/main/java/com/piere/bootcamp/clients/model/dto/AuthorizedSignatoryDto.java:56-84 | toDto(toEntity(d)) == d: all ten DTO fields survive. |
| ClientDtos.ToDto | src/main/java/com/piere/bootcamp/clients/model/dto/ClientDto.java:95-114 | Every scalar field is copied. Through the inverted null test, a present id list becomes an empty list and a null one stays null. The nested lists are null. |
| ClientDtos.LinkIds | src/main/java/com/piere/bootcamp/clients/model/dto/ClientDto.java:131-134 | The ids of a nested list, in order, or an empty list when the nested list is null. |
| ClientDtos.ToEntity | src/main/java/com/piere/bootcamp/clients/model/dto/ClientDto.java:116-137 | Every scalar field is copied. Both id lists are present and are built from the nested DTO lists. |
| ClientDtos.EntityRoundTrip | src/main/java/com/piere/bootcamp/clients/model/dto/ClientDto.java:95-137 | toEntity(toDto(c)) keeps every scalar field of c, but both id lists come back empty. |
| ClientDtos.ToDtoDropsReferences | src/main/java/com/piere/bootcamp/clients/model/dto/ClientDto.java:110 | A client referencing any representative loses those references in its DTO. |
| ClientDtos.ToEntityIgnoresIdLists | src/main/java/com/piere/bootcamp/clients/model/dto/ClientDto.java:131-134 | `toEntity` does not read the DTO's own id lists. |
| Store.SelectIds | src/main/java/com/piere/bootcamp/clients/service/impl/LegalRepresentativeServiceImpl.java:71 | The stored ids a `findAllById` query names: each at most once, in natural order, none for an empty query, and a null in the query matches nothing. |
| Store.Table.FindById | src/main/java/com/piere/bootcamp/clients/service/impl/LegalRepresentativeServiceImpl.java:42 | The document stored under the id, and none iff the id is not stored. |
| Store.Table.FindAll | src/main/java/com/piere/bootcamp/clients/service/impl/LegalRepresentativeServiceImpl.java:50 | Every stored document, in natural order, one per key: a document is returned iff it is stored. |
| Store.Table.FindAllById | src/main/java/com/piere/bootcamp/clients/service/impl/LegalRepresentativeServiceImpl.java:71 | Every stored document whose id the query names is returned; an empty query returns nothing. |
| Store.Table.FindAllByIdExact | src/main/java/com/piere/bootcamp/clients/service/impl/LegalRepresentativeServiceImpl.java:71 | A document is returned iff it is stored and its id is in the query. Each returned document is the one stored under its id. |
| Store.Table.FindFirst | src/main/java/com/piere/bootcamp/clients/service/impl/LegalRepresentativeServiceImpl.java:56 | A found document is stored and has the field value asked for. Nothing is found iff no stored document has it. |
| Store.Table.Save | src/main/java/com/piere/bootcamp/clients/service/impl/LegalRepresentativeServiceImpl.java:76 | The upsert writes the input, given a fresh id when it has none, under exactly one key: its own id or the fresh one. Every other document stays as it was. The table stays keyed by id. |
| Store.Table.SaveAll | src/main/java/com/piere/bootcamp/clients/service/impl/LegalRepresentativeServiceImpl.java:63-65 | One saved document per input, in input order, each its input given a fresh id when it had none, and stored. Every document no saved one overwrites stays as it was. The keys added are exactly the saved documents' ids. Where an id repeats, the last write wins. |
| Store.Table.Delete | src/main/java/com/piere/bootcamp/clients/service/impl/LegalRepresentativeServiceImpl.java:44 | Exactly that key is removed. |
| Store.SaveThenFindFirst | src/main/java/com/piere/bootcamp/clients/service/impl/LegalRepresentativeServiceImpl.java:25-28 | After a save, a lookup by the saved document's field value finds a document. That document is the saved one when no other document had that value. |
| LegalRepresentativeServices.LegalRepresentativeService.FindByDocumentNumber | src/main/java/com/piere/bootcamp/clients/service/impl/LegalRepresentativeServiceImpl.java:54-59 | Empty, not an error, iff no stored representative has the number. Otherwise it returns the DTO of a stored representative with that number. |
| LegalRepresentativeServices.LegalRepresentativeService.FindAllLegalRepresentatives | src/main/java/com/piere/bootcamp/clients/service/impl/LegalRepresentativeServiceImpl.java:48-52 | One DTO per stored representative, in natural order. |
| LegalRepresentativeServices.LegalRepresentativeService.FindAllByIdList | src/main/java/com/piere/bootcamp/clients/service/impl/LegalRepresentativeServiceImpl.java:69-73 | Exactly the stored representatives whose id is in the list. Every returned DTO is stored under an id in the list, and every such stored one is returned. |
| LegalRepresentativeServices.LegalRepresentativeService.Save | src/main/java/com/piere/bootcamp/clients/service/impl/LegalRepresentativeServiceImpl.java:76 | The saved document is the input with its assigned id. Exactly that one entry of the collection is written. |
| LegalRepresentativeServices.LegalRepresentativeService.CreateLegalRepresentative | src/main/java/com/piere/bootcamp/clients/service/impl/LegalRepresentativeServiceImpl.java:25-28 | A taken document number gives "El representante legal ya existe" and nothing is written. Otherwise exactly one record is written, and the returned DTO is the input (birthDate null) with its id. The number is then found, so a second create fails. |
| LegalRepresentativeServices.LegalRepresentativeService.CreateNewLegalRepresentative | src/main/java/com/piere/bootcamp/clients/service/impl/LegalRepresentativeServiceImpl.java:75-78 | Saves toEntity of the DTO without any check and returns the stored record's DTO. |
| LegalRepresentativeServices.LegalRepresentativeService.UpdateLegalRepresentative | src/main/java/com/piere/bootcamp/clients/service/impl/LegalRepresentativeServiceImpl.java:31-38 | An unknown document number gives "El representante legal no existe" and leaves the store unchanged. Otherwise toEntity of the input is saved (an upsert by its own id) and returned. |
| LegalRepresentativeServices.LegalRepresentativeService.DeleteLegalRepresentativeById | src/main/java/com/piere/bootcamp/clients/service/impl/LegalRepresentativeServiceImpl.java:40-46 | An unknown id gives "El representante legal no existe". Otherwise exactly that record is removed and the result is empty. |
| LegalRepresentativeServices.LegalRepresentativeService.CreateLegalRepresentatives | src/main/java/com/piere/bootcamp/clients/service/impl/LegalRepresentativeServiceImpl.java:61-67 | Saves every input in order, with no document-number check. Returns one DTO per input, which is that input with its stored id. Records whose id no created one carries stay as they were. |
| AuthorizedSignatoryServices.AuthorizedSignatoryService.FindByDocumentNumber | src/main/java/com/piere/bootcamp/clients/service/impl/AuthorizedSignatoryServiceImpl.java:54-59 | Empty iff no stored signatory has the number; otherwise a stored signatory with it. |
| AuthorizedSignatoryServices.AuthorizedSignatoryService.FindAllAuthorizedSignatories | src/main/java/com/piere/bootcamp/clients/service/impl/AuthorizedSignatoryServiceImpl.java:48-52 | One DTO per stored signatory, in natural order. |
| AuthorizedSignatoryServices.AuthorizedSignatoryService.FindAllByIdList | src/main/java/com/piere/bootcamp/clients/service/impl/AuthorizedSignatoryServiceImpl.java:69-73 | Exactly the stored signatories whose id is in the list. |
| AuthorizedSignatoryServices.AuthorizedSignatoryService.Save | src/main/java/com/piere/bootcamp/clients/service/impl/AuthorizedSignatoryServiceImpl.java:76 | The saved document is the input with its assigned id; exactly one entry is written. |
| AuthorizedSignatoryServices.AuthorizedSignatoryService.CreateAuthorizedSignatory | src/main/java/com/piere/bootcamp/clients/service/impl/AuthorizedSignatoryServiceImpl.java:25-28 | A taken document number gives "El firmante autorizado ya existe" and nothing is written. Otherwise exactly one record is written and returned with its id, and it is found by its number afterwards. |
| AuthorizedSignatoryServices.AuthorizedSignatoryService.CreateNewAuthorizedSignatory | src/main/java/com/piere/bootcamp/clients/service/impl/AuthorizedSignatoryServiceImpl.java:75-78 | Saves toEntity of the DTO without any check. |
| AuthorizedSignatoryServices.AuthorizedSignatoryService.UpdateAuthorizedSignatory | src/main/java/com/piere/bootcamp/clients/service/impl/AuthorizedSignatoryServiceImpl.java:31-38 | An unknown number gives "El firmante autorizado no existe" and leaves the store unchanged. Otherwise toEntity of the input is saved and returned. |
| AuthorizedSignatoryServices.AuthorizedSignatoryService.DeleteAuthorizedSignatoryById | src/main/java/com/piere/bootcamp/clients/service/impl/AuthorizedSignatoryServiceImpl.java:41-45 | An unknown id fails with the legal-representative message "El representante legal no existe". Otherwise exactly that record is removed. |
| AuthorizedSignatoryServices.AuthorizedSignatoryService.CreateAuthorizedSignatories | src/main/java/com/piere/bootcamp/clients/service/impl/AuthorizedSignatoryServiceImpl.java:61-67 | Saves every input in order, with no existence check. Returns one DTO per input, which is that input with its id. Records whose id no created one carries stay as they were. |
| PersonServices.PersonService.FindByDocumentNumber | src/main/java/com/piere/bootcamp/clients/service/impl/PersonServiceImpl.java:49-53 | Empty iff no stored person has the number; otherwise the DTO of a stored person with it. |
| PersonServices.PersonService.FindAllPersons | src/main/java/com/piere/bootcamp/clients/service/impl/PersonServiceImpl.java:43-47 | One DTO per stored person, in natural order. |
| PersonServices.PersonService.Save | src/main/java/com/piere/bootcamp/clients/service/impl/PersonServiceImpl.java:24 | The saved document is the input with its assigned id; exactly one entry is written. |
| PersonServices.PersonService.CreatePerson | src/main/java/com/piere/bootcamp/clients/service/impl/PersonServiceImpl.java:22-26 | Saves toEntity of the input with no uniqueness check: exactly one entry is written. Returns the input with its id. |
| PersonServices.PersonService.UpdatePerson | src/main/java/com/piere/bootcamp/clients/service/impl/PersonServiceImpl.java:28-34 | An unknown number gives IllegalArgumentException "Persona no encontrada" and leaves the store unchanged. Otherwise toEntity of the input is saved, overwriting by id. |
| PersonServices.PersonService.DeletePerson | src/main/java/com/piere/bootcamp/clients/service/impl/PersonServiceImpl.java:36-41 | An unknown number gives "Persona no encontrada". Otherwise the stored person found by the number is removed, not whatever the input's id names. |
| PersonServices.PersonService.CreatePersons | src/main/java/com/piere/bootcamp/clients/service/impl/PersonServiceImpl.java:55-61 | Saves every input in order; one DTO per input, equal to it apart from the id. Records whose id no created one carries stay as they were. |
| ClientServices.ClientService.GetData | src/main/java/com/piere/bootcamp/clients/service/impl/ClientServiceImpl.java:133-150 | A non-EMPRESARIAL client is its toDto. For an EMPRESARIAL client the attached lists come from the DTO's id lists, which toDto has emptied, so both are empty. A null id list gives the repository's IllegalArgumentException. Never empty. |
| ClientServices.ClientService.FindById | src/main/java/com/piere/bootcamp/clients/service/impl/ClientServiceImpl.java:71-74 | Empty iff the id is unknown; otherwise the assembled client with that id. Never an error while every stored client has both id lists. |
| ClientServices.ClientService.FindByDocumentNumber | src/main/java/com/piere/bootcamp/clients/service/impl/ClientServiceImpl.java:76-79 | Empty iff no client has the number. Otherwise it is exactly the assembly (`getData`), value or error, of a stored client with that number. It is never an error while every stored client has both id lists. |
| ClientServices.ClientService.AssembleAll | src/main/java/com/piere/bootcamp/clients/service/impl/ClientServiceImpl.java:63 | `flatMap(getData)`: succeeds iff every client assembles, and then yields each client's assembly in order. Never empty. |
| ClientServices.ClientService.FindAllClients | src/main/java/com/piere/bootcamp/clients/service/impl/ClientServiceImpl.java:61-64 | Every stored client, assembled, in natural order. It cannot fail while every stored client has both id lists. |
| ClientServices.ClientService.FindAllByIdList | src/main/java/com/piere/bootcamp/clients/service/impl/ClientServiceImpl.java:66-69 | The assemblies of exactly the stored clients whose id is in the list: each returned DTO is the assembly of the stored client under an id named in the list, and each such client's assembly is returned. Unknown ids are skipped; an empty list gives an empty result. |
| ClientServices.ClientService.SaveClient | src/main/java/com/piere/bootcamp/clients/service/impl/ClientServiceImpl.java:92 | The saved client is the input with its assigned id. Exactly one entry is written. Saving a client with both id lists keeps every stored client linked. |
| ClientServices.ClientService.CreateNewLegalRepresentatives | src/main/java/com/piere/bootcamp/clients/service/impl/ClientServiceImpl.java:116-122 | For EMPRESARIAL, the representatives are bulk-created and their ids come back in save order. For any other type, an empty list and no write. |
| ClientServices.ClientService.CreateNewAuthorizeSignatories | src/main/java/com/piere/bootcamp/clients/service/impl/ClientServiceImpl.java:124-131 | For EMPRESARIAL with a null or empty list: empty, no write. For EMPRESARIAL otherwise: a bulk create. For any other type: an empty list, no write. |
| ClientServices.ClientService.CreateNewClient | src/main/java/com/piere/bootcamp/clients/service/impl/ClientServiceImpl.java:81-114 | EMPRESARIAL without representatives: type-A error, nothing written. PERSONAL: exactly one client document, no link records. EMPRESARIAL with representatives but no signatories: empty, representatives written, no client saved. EMPRESARIAL with both: the saved client's id lists equal the created records' ids, in save order. Every created client has status true and createAt today, and the response shows empty id lists. |
| ClientServices.ClientService.CreateClient | src/main/java/com/piere/bootcamp/clients/service/impl/ClientServiceImpl.java:38-43 | A client found by the document number gives "El cliente ya existe" and nothing is written. Otherwise createNewClient runs. After a success, the lookup by the number finds the new client, so a second create is refused. |
| ClientServices.ClientService.ClientFoundAfterCreate | src/main/java/com/piere/bootcamp/clients/service/impl/ClientServiceImpl.java:76-79 | Once a client is written where no client had its document number, the lookup by that number returns it. |
| ClientServices.ClientService.UpdateClient | src/main/java/com/piere/bootcamp/clients/service/impl/ClientServiceImpl.java:52-59 | An unknown number gives "El cliente no existe" and no write. Otherwise toEntity of the input is saved as it is, without an EMPRESARIAL check and with id lists rebuilt from the nested lists. |
| ClientServices.ClientService.DeleteClientById | src/main/java/com/piere/bootcamp/clients/service/impl/ClientServiceImpl.java:45-50 | An unknown id gives "El cliente no existe". Otherwise exactly that client is removed, and its link records stay. |
| ClientServices.ClientService.ByIdListMembers | src/main/java/com/piere/bootcamp/clients/service/impl/ClientServiceImpl.java:66-69 | Every client `findAllById` returns is stored. When the result assembles, every DTO in it is the assembly of the stored client under an id named in the list. |
| ClientServices.ClientService.ByIdListComplete | src/main/java/com/piere/bootcamp/clients/service/impl/ClientServiceImpl.java:66-69 | When the result of `findAllByIdList` is a value, each stored client whose id is in the list assembles, and its assembly is in the result. |
| ClientServices.ClientService.LinkedClientsAssemble | src/main/java/com/piere/bootcamp/clients/service/impl/ClientServiceImpl.java:133-150 | Stored clients whose id lists are all present always assemble. |

## Left out

- Controllers, the global exception handler and the HTTP mapping of failures to status codes: transport only.
- The DAO interfaces are Spring Data code. The model replaces them with `Store.Table`.
- The unique indexes on the document classes (`@Indexed(unique = true)`) are not enforced. A `save` in the model never rejects a duplicate. The services' own lookup-before-create is modelled.
- Reactor scheduling is not modelled: concurrency, lazy subscription, cancellation of a zip's sibling branch, and the eager assembly of `switchIfEmpty(createNewClient(client))`. In particular, with an empty signatory branch the model has already written the representatives. The real zip may cancel that write part-way.
- ClientServices.ClientService.FindAllClients: returns clients in natural order. `Flux.flatMap` may interleave the asynchronous `getData` results in any order. Of several failures, the model reports the first in natural order. A failing Flux may already have emitted some clients before the error; the model returns only the error and does not model those earlier elements.
- ClientServices.ClientService.FindAllByIdList: the same ordering simplification as `FindAllClients`.
- ClientServices.ClientService.CreateNewClient: mutates a copy of the DTO. The Java code mutates the caller's DTO in place (`setStatus`, `setCreateAt`), and callers do not observe that here.
- ClientServices.ClientService.CreateNewClient: reads both calls to `LocalDate.now()` as the same `today`.
- ClientServices.ClientService.CreateNewLegalRepresentatives: requires the representative list of an EMPRESARIAL client to be present. The Java code would throw a NullPointerException on a null list, but `createNewClient` rejects that case before calling it.
- The DAO's derived `findByDocumentNumber` returns the first match in natural order. With duplicate document numbers, Spring Data's single-result query may raise an error instead; that case is not modelled.
- Null arguments are not modelled: `findById` with a null id, `findAllById` with a null list inside the link services, `ClientServiceImpl.findAllByIdList(null)`, `createLegalRepresentatives(null)`, `createAuthorizedSignatories(null)`, `createPersons(null)` and `fromValue(null)`. Lists are always present sequences. Ids are plain strings; a null element of an id list matches nothing.
- `ClientDto.build()` and the other `build()` factories only create the mapper receivers. They have no behaviour of their own.
- LegalRepresentative.java is not part of this model. The record's fields are taken from its DTO mapper.
- ClientServices.NullIdList: the message of the error for a null id list is the Spring Data library's, from its argument check in `findAllById`, not the service's. Its exact wording depends on the library version.
- Timestamps are plain integers (`Date`, `DateTime`). No calendar arithmetic is modelled.
