/** ClientServiceImpl: clients, plus the legal representatives and
    authorized signatories an EMPRESARIAL client is linked to. The two link
    services are the injected LegalRepresentativeService and
    AuthorizedSignatoryService; the clients collection is the service's own. */
module ClientServices {
  import opened Common
  import opened Enums
  import opened Outcomes
  import opened Store
  import opened Documents
  import opened ClientDtos
  import LR = LegalRepresentativeDtos
  import AS = AuthorizedSignatoryDtos
  import Representatives = LegalRepresentativeServices
  import Signatories = AuthorizedSignatoryServices

  const ClientExists := "El cliente ya existe"
  const ClientMissing := "El cliente no existe"
  const RepresentativeRequired := "Debe ingresar al menos un representante legal"
  /** What the repository's findAllById raises when handed a null id list. */
  const NullIdList := "The given Iterable of Id's must not be null"

  /** The DTO createNewClient works on once it has set status and createAt. */
  function Prepared(client: ClientDto, today: Date): (d: ClientDto)
    ensures d.status == Some(true) && d.createAt == Some(today)
    ensures d == client.(status := d.status, createAt := d.createAt)
  {
    client.(status := Some(true), createAt := Some(today))
  }

  /** The DTO names no legal representative: its list is null or empty. */
  predicate LacksRepresentatives(d: ClientDto) {
    d.legalRepresentatives.None? || d.legalRepresentatives.value == []
  }

  /** The DTO names no authorized signatory: its list is null or empty. */
  predicate LacksSignatories(d: ClientDto) {
    d.authorizedSignatories.None? || d.authorizedSignatories.value == []
  }

  /** The ids a bulk create of dtos on t hands back, in the order it saved
      them. */
  function CreatedRepresentativeIds(t: Table<LegalRepresentative>, dtos: seq<LR.LegalRepresentativeDto>): seq<Text>
    requires t.Valid()
  {
    LR.Ids(LR.ToDtos(t.SaveAll(LR.ToEntities(dtos), RepresentativeId, WithRepresentativeId).1))
  }

  function CreatedSignatoryIds(t: Table<AuthorizedSignatory>, dtos: seq<AS.AuthorizedSignatoryDto>): seq<Text>
    requires t.Valid()
  {
    AS.Ids(AS.ToDtos(t.SaveAll(AS.ToEntities(dtos), SignatoryId, WithSignatoryId).1))
  }

  class ClientService {
    /** The collection behind `clientDao`. */
    var clients: Table<Client>
    const legalRepresentatives: Representatives.LegalRepresentativeService
    const authorizedSignatories: Signatories.AuthorizedSignatoryService

    ghost predicate Valid()
      reads this, legalRepresentatives, authorizedSignatories
    {
      && clients.Valid() && clients.Keyed(ClientId)
      && legalRepresentatives.Valid() && authorizedSignatories.Valid()
    }

    /** Every stored client has both id lists present. Every client this
        service writes has them; a document written by anyone else may not. */
    ghost predicate Linked()
      reads this
    {
      forall id | id in clients.docs ::
        clients.docs[id].legalRepresentativeIds.Some? && clients.docs[id].authorizedSignatoryIds.Some?
    }

    constructor (legalRepresentatives: Representatives.LegalRepresentativeService,
                 authorizedSignatories: Signatories.AuthorizedSignatoryService)
      requires legalRepresentatives.Valid() && authorizedSignatories.Valid()
      ensures this.legalRepresentatives == legalRepresentatives
      ensures this.authorizedSignatories == authorizedSignatories
      ensures Valid() && Linked() && clients.docs == map[]
    {
      clients := EmptyTable();
      this.legalRepresentatives := legalRepresentatives;
      this.authorizedSignatories := authorizedSignatories;
    }

    /** `getData`: the client as a DTO; an EMPRESARIAL client gets the
        representatives and signatories fetched by the DTO's id lists, which
        toDto has already emptied, so what it gets is always two empty
        lists. */
    function GetData(e: Client): (r: Outcome<ClientDto>)
      requires legalRepresentatives.Valid() && authorizedSignatories.Valid()
      reads legalRepresentatives, authorizedSignatories
      ensures !r.Empty?
      ensures e.clientType != Some(EMPRESARIAL) ==> r == Value(ToDto(e))
      ensures e.clientType == Some(EMPRESARIAL) && (e.legalRepresentativeIds.None? || e.authorizedSignatoryIds.None?) ==>
        r == Error(IllegalArgument(NullIdList))
      ensures e.clientType == Some(EMPRESARIAL) && e.legalRepresentativeIds.Some? && e.authorizedSignatoryIds.Some? ==>
        r == Value(ToDto(e).(legalRepresentatives := Some([]), authorizedSignatories := Some([])))
      ensures r.Value? ==> SameScalars(r.value, e)
    {
      var dto := ToDto(e);
      if dto.clientType == Some(EMPRESARIAL) then
        if dto.authorizedSignatoryIds.None? || dto.legalRepresentativeIds.None? then
          Error(IllegalArgument(NullIdList))
        else
          var signatories := authorizedSignatories.FindAllByIdList(dto.authorizedSignatoryIds.value);
          var representatives := legalRepresentatives.FindAllByIdList(dto.legalRepresentativeIds.value);
          Value(dto.(legalRepresentatives := Some(representatives), authorizedSignatories := Some(signatories)))
      else
        Value(dto)
    }

    /** `findById`: empty for an unknown id, never an error while every
        stored client is linked. */
    function FindById(id: Id): (r: Outcome<ClientDto>)
      requires Valid()
      reads this, legalRepresentatives, authorizedSignatories
      ensures r.Empty? <==> id !in clients.docs
      ensures id in clients.docs ==> r == GetData(clients.docs[id])
      ensures r.Value? ==> r.value.id == Some(id) && SameScalars(r.value, clients.docs[id])
      ensures Linked() ==> !r.Error?
    {
      match clients.FindById(id)
      case None => Empty
      case Some(e) => GetData(e)
    }

    /** `findByDocumentNumber`: the first client with that document number,
        assembled; empty, not an error, when there is none. */
    function FindByDocumentNumber(documentNumber: Text): (r: Outcome<ClientDto>)
      requires Valid()
      reads this, legalRepresentatives, authorizedSignatories
      ensures r.Empty? <==> forall id :: id in clients.docs ==> clients.docs[id].documentNumber != documentNumber
      ensures r.Value? ==>
        && r.value.documentNumber == documentNumber
        && r.value.id.Some? && r.value.id.value in clients.docs
        && SameScalars(r.value, clients.docs[r.value.id.value])
      ensures !r.Empty? ==> exists id :: id in clients.docs && clients.docs[id].documentNumber == documentNumber && r == GetData(clients.docs[id])
      ensures Linked() ==> !r.Error?
    {
      match clients.FindFirst(ClientDocumentNumber, documentNumber)
      case None => Empty
      case Some(e) =>
        assert e.id.Some? && clients.docs[e.id.value] == e by {
          var id :| id in clients.docs && clients.docs[id] == e;
        }
        GetData(e)
    }

    /** `flatMap(this::getData)` over a list of clients: every client
        assembled, in order, unless one of them fails, in which case the
        first failure is the result. */
    function AssembleAll(es: seq<Client>): (r: Outcome<seq<ClientDto>>)
      requires legalRepresentatives.Valid() && authorizedSignatories.Valid()
      reads legalRepresentatives, authorizedSignatories
      ensures !r.Empty?
      ensures r.Value? <==> forall k :: 0 <= k < |es| ==> GetData(es[k]).Value?
      ensures r.Value? ==> |r.value| == |es| && forall k :: 0 <= k < |es| ==> GetData(es[k]) == Value(r.value[k])
      decreases |es|
    {
      if es == [] then Value([])
      else
        var head := GetData(es[0]);
        var rest := AssembleAll(es[1..]);
        if head.Value? && rest.Value? then
          assert forall k :: 1 <= k < |es| ==> es[k] == es[1..][k - 1];
          Value([head.value] + rest.value)
        else if head.Error? then Error(head.failure)
        else Error(rest.failure)
    }

    /** `findAllClients`: every stored client, assembled, in natural order. */
    function FindAllClients(): (r: Outcome<seq<ClientDto>>)
      requires Valid()
      reads this, legalRepresentatives, authorizedSignatories
      ensures !r.Empty?
      ensures Linked() ==> r.Value?
      ensures r.Value? ==>
        && |r.value| == |clients.ids|
        && forall k :: 0 <= k < |clients.ids| ==>
             r.value[k].id == Some(clients.ids[k]) && GetData(clients.docs[clients.ids[k]]) == Value(r.value[k])
    {
      AssembleAll(clients.FindAll())
    }

    /** `findAllByIdList`: exactly the stored clients whose id is in the
        list, assembled; unknown ids are skipped. */
    function FindAllByIdList(ids: seq<Text>): (r: Outcome<seq<ClientDto>>)
      requires Valid()
      reads this, legalRepresentatives, authorizedSignatories
      ensures !r.Empty?
      ensures Linked() ==> r.Value?
      ensures ids == [] ==> r == Value([])
      ensures r.Value? ==> forall d :: d in r.value ==>
        d.id in ids && d.id.Some? && d.id.value in clients.docs && GetData(clients.docs[d.id.value]) == Value(d)
      ensures r.Value? ==> forall id :: id in clients.docs && Some(id) in ids ==>
        GetData(clients.docs[id]).Value? && GetData(clients.docs[id]).value in r.value
    {
      clients.FindAllByIdExact(ClientId, ids);
      LinkedClientsAssemble(clients.FindAllById(ids));
      ByIdListMembers(ids);
      ByIdListComplete(ids);
      AssembleAll(clients.FindAllById(ids))
    }

    /** Stored, linked clients never fail to assemble. */
    lemma LinkedClientsAssemble(es: seq<Client>)
      requires Valid()
      requires forall e :: e in es ==> e.id.Some? && e.id.value in clients.docs && clients.docs[e.id.value] == e
      ensures Linked() ==> AssembleAll(es).Value?
    {
      if Linked() {
        forall k | 0 <= k < |es|
          ensures GetData(es[k]).Value?
        {
          assert es[k] in es;
        }
      }
    }

    lemma ByIdListMembers(ids: seq<Text>)
      requires Valid()
      ensures forall e :: e in clients.FindAllById(ids) ==> e in clients.docs.Values
      ensures var r := AssembleAll(clients.FindAllById(ids));
        r.Value? ==> forall d :: d in r.value ==>
          d.id in ids && d.id.Some? && d.id.value in clients.docs && GetData(clients.docs[d.id.value]) == Value(d)
    {
      var es := clients.FindAllById(ids);
      clients.FindAllByIdExact(ClientId, ids);
      var r := AssembleAll(es);
      if r.Value? {
        forall d | d in r.value
          ensures d.id in ids && d.id.Some? && d.id.value in clients.docs && GetData(clients.docs[d.id.value]) == Value(d)
        {
          var k :| 0 <= k < |r.value| && r.value[k] == d;
          assert es[k] in es;
        }
      }
    }

    lemma ByIdListComplete(ids: seq<Text>)
      requires Valid()
      ensures var r := AssembleAll(clients.FindAllById(ids));
        r.Value? ==> forall id :: id in clients.docs && Some(id) in ids ==>
          GetData(clients.docs[id]).Value? && GetData(clients.docs[id]).value in r.value
    {
      var es := clients.FindAllById(ids);
      var r := AssembleAll(es);
      if r.Value? {
        forall id | id in clients.docs && Some(id) in ids
          ensures GetData(clients.docs[id]).Value? && GetData(clients.docs[id]).value in r.value
        {
          var k :| 0 <= k < |es| && es[k] == clients.docs[id];
          assert r.value[k] == GetData(es[k]).value;
        }
      }
    }

    /** `clientDao.save`: the saved client, carrying the id it is stored
        under. */
    method SaveClient(c: Client) returns (saved: Client)
      requires Valid()
      modifies this
      ensures Valid()
      ensures clients == old(clients).Save(c, ClientId, WithClientId)
      ensures saved == old(clients).Stored(c, ClientId, WithClientId)
      ensures saved == c.(id := saved.id) && (c.id.Some? ==> saved.id == c.id)
      ensures saved.id.Some? && saved.id.value in clients.docs && clients.docs[saved.id.value] == saved
      ensures clients.docs == old(clients.docs)[saved.id.value := saved]
      ensures old(Linked()) && c.legalRepresentativeIds.Some? && c.authorizedSignatoryIds.Some? ==> Linked()
    {
      IdsAreStamped();
      saved := clients.Stored(c, ClientId, WithClientId);
      clients := clients.Save(c, ClientId, WithClientId);
    }

    /** `createNewLegalRepresentatives`: for an EMPRESARIAL client, the bulk
        create of its representatives; for any other, nothing. */
    method CreateNewLegalRepresentatives(client: ClientDto) returns (created: seq<LR.LegalRepresentativeDto>)
      requires legalRepresentatives.Valid()
      requires client.clientType == Some(EMPRESARIAL) ==> client.legalRepresentatives.Some?
      modifies legalRepresentatives
      ensures legalRepresentatives.Valid()
      ensures client.clientType != Some(EMPRESARIAL) ==> created == [] && unchanged(legalRepresentatives)
      ensures client.clientType == Some(EMPRESARIAL) ==>
        && legalRepresentatives.table ==
             old(legalRepresentatives.table).SaveAll(LR.ToEntities(client.legalRepresentatives.value), RepresentativeId, WithRepresentativeId).0
        && LR.Ids(created) == CreatedRepresentativeIds(old(legalRepresentatives.table), client.legalRepresentatives.value)
        && |created| == |client.legalRepresentatives.value|
        && forall k :: 0 <= k < |created| ==>
             && created[k].id.Some? && created[k].id.value in legalRepresentatives.table.docs
             && (client.legalRepresentatives.value[k].id.Some? ==> created[k].id == client.legalRepresentatives.value[k].id)
    {
      if client.clientType == Some(EMPRESARIAL) {
        created := legalRepresentatives.CreateLegalRepresentatives(client.legalRepresentatives.value);
      } else {
        created := [];
      }
    }

    /** `createNewAuthorizeSignatories`: for an EMPRESARIAL client, the bulk
        create of its signatories, or an empty Mono (None) when it names
        none; for any other client, an empty list. */
    method CreateNewAuthorizeSignatories(client: ClientDto) returns (created: Option<seq<AS.AuthorizedSignatoryDto>>)
      requires authorizedSignatories.Valid()
      modifies authorizedSignatories
      ensures authorizedSignatories.Valid()
      ensures client.clientType != Some(EMPRESARIAL) ==> created == Some([]) && unchanged(authorizedSignatories)
      ensures client.clientType == Some(EMPRESARIAL) && LacksSignatories(client) ==>
        created.None? && unchanged(authorizedSignatories)
      ensures client.clientType == Some(EMPRESARIAL) && !LacksSignatories(client) ==>
        && created.Some?
        && authorizedSignatories.table ==
             old(authorizedSignatories.table).SaveAll(AS.ToEntities(client.authorizedSignatories.value), SignatoryId, WithSignatoryId).0
        && AS.Ids(created.value) == CreatedSignatoryIds(old(authorizedSignatories.table), client.authorizedSignatories.value)
        && |created.value| == |client.authorizedSignatories.value|
        && forall k :: 0 <= k < |created.value| ==>
             && created.value[k].id.Some? && created.value[k].id.value in authorizedSignatories.table.docs
             && (client.authorizedSignatories.value[k].id.Some? ==> created.value[k].id == client.authorizedSignatories.value[k].id)
    {
      if client.clientType == Some(EMPRESARIAL) {
        if LacksSignatories(client) {
          created := None;
        } else {
          var saved := authorizedSignatories.CreateAuthorizedSignatories(client.authorizedSignatories.value);
          created := Some(saved);
        }
      } else {
        created := Some([]);
      }
    }

    /** What createNewClient does, by the kind of client: the rows of its
        outcome. */
    twostate predicate CreatedNewClient(client: ClientDto, today: Date, new r: Outcome<ClientDto>)
      requires old(Valid()) && Valid()
      reads this, legalRepresentatives, authorizedSignatories
    {
      && (client.clientType == Some(EMPRESARIAL) && LacksRepresentatives(client) ==>
          r == Error(BankException(RepresentativeRequired, A))
          && unchanged(this, legalRepresentatives, authorizedSignatories))
      && (client.clientType == Some(PERSONAL) ==>
          && unchanged(legalRepresentatives, authorizedSignatories)
          && clients == old(clients).Save(ToEntity(Prepared(client, today)), ClientId, WithClientId)
          && r.Value?)
      && (client.clientType == Some(EMPRESARIAL) && !LacksRepresentatives(client) && LacksSignatories(client) ==>
          && r == Empty
          && unchanged(this, authorizedSignatories)
          && legalRepresentatives.table ==
               old(legalRepresentatives.table).SaveAll(LR.ToEntities(client.legalRepresentatives.value), RepresentativeId, WithRepresentativeId).0)
      && (client.clientType == Some(EMPRESARIAL) && !LacksRepresentatives(client) && !LacksSignatories(client) ==>
          && legalRepresentatives.table ==
               old(legalRepresentatives.table).SaveAll(LR.ToEntities(client.legalRepresentatives.value), RepresentativeId, WithRepresentativeId).0
          && authorizedSignatories.table ==
               old(authorizedSignatories.table).SaveAll(AS.ToEntities(client.authorizedSignatories.value), SignatoryId, WithSignatoryId).0
          && clients == old(clients).Save(
               ToEntity(Prepared(client, today)).(
                 legalRepresentativeIds := Some(CreatedRepresentativeIds(old(legalRepresentatives.table), client.legalRepresentatives.value)),
                 authorizedSignatoryIds := Some(CreatedSignatoryIds(old(authorizedSignatories.table), client.authorizedSignatories.value))),
               ClientId, WithClientId)
          && r.Value?)
      && (client.clientType.None? ==>
          && unchanged(legalRepresentatives, authorizedSignatories)
          && clients == old(clients).Save(
               ToEntity(Prepared(client, today)).(legalRepresentativeIds := Some([]), authorizedSignatoryIds := Some([])),
               ClientId, WithClientId)
          && r.Value?)
      && (r.Value? ==>
          && r.value.id.Some? && r.value.id.value in clients.docs
          && clients.docs == old(clients.docs)[r.value.id.value := clients.docs[r.value.id.value]]
          && r.value == ToDto(clients.docs[r.value.id.value])
          && r.value.status == Some(true) && r.value.createAt == Some(today)
          && r.value.documentNumber == client.documentNumber
          && (client.id.Some? ==> r.value.id == client.id)
          && r.value.legalRepresentativeIds == Some([]) && r.value.authorizedSignatoryIds == Some([]))
    }

    /** `createNewClient`, with `LocalDate.now()` read as today. The client is
        stamped active and created today. An EMPRESARIAL client without
        representatives is refused before anything is written; a PERSONAL
        one is saved as it is; any other creates its representatives, then
        its signatories, and is saved linked to the ids they came back
        with, unless the signatory branch is empty, in which case the whole
        result is empty and no client is saved. */
    method CreateNewClient(client: ClientDto, today: Date) returns (r: Outcome<ClientDto>)
      requires Valid()
      modifies this, legalRepresentatives, authorizedSignatories
      ensures Valid()
      ensures old(Linked()) ==> Linked()
      ensures CreatedNewClient(client, today, r)
    {
      var prepared := Prepared(client, today);
      var newClient := ToEntity(prepared);
      if prepared.clientType == Some(EMPRESARIAL) && LacksRepresentatives(prepared) {
        return Error(BankException(RepresentativeRequired, A));
      }
      if prepared.clientType == Some(PERSONAL) {
        var saved := SaveClient(newClient);
        return Value(ToDto(saved));
      }
      var representatives := CreateNewLegalRepresentatives(prepared);
      var signatories := CreateNewAuthorizeSignatories(prepared);
      if signatories.None? {
        return Empty;
      }
      var linked := newClient.(legalRepresentativeIds := Some(LR.Ids(representatives)),
                               authorizedSignatoryIds := Some(AS.Ids(signatories.value)),
                               createAt := Some(today));
      var saved := SaveClient(linked);
      r := Value(ToDto(saved));
    }

    /** `createClient`: refused when a client with the document number is
        found, a lookup failure passed on as it is, and otherwise
        createNewClient. Once it succeeds the document number is taken: the
        lookup now finds the new client, so a second create is refused. */
    method CreateClient(client: ClientDto, today: Date) returns (r: Outcome<ClientDto>)
      requires Valid()
      modifies this, legalRepresentatives, authorizedSignatories
      ensures Valid()
      ensures old(Linked()) ==> Linked()
      ensures old(FindByDocumentNumber(client.documentNumber)).Value? ==>
        r == Error(BankException(ClientExists, E)) && unchanged(this, legalRepresentatives, authorizedSignatories)
      ensures old(FindByDocumentNumber(client.documentNumber)).Error? ==>
        r == old(FindByDocumentNumber(client.documentNumber)) && unchanged(this, legalRepresentatives, authorizedSignatories)
      ensures old(FindByDocumentNumber(client.documentNumber)).Empty? ==> CreatedNewClient(client, today, r)
      ensures r.Value? ==> FindByDocumentNumber(client.documentNumber) == GetData(clients.docs[r.value.id.value])
      ensures r.Value? ==> FindByDocumentNumber(client.documentNumber).Value?
    {
      var existing := FindByDocumentNumber(client.documentNumber);
      if existing.Value? {
        return Error(BankException(ClientExists, E));
      }
      if existing.Error? {
        return existing;
      }
      ghost var before := clients;
      r := CreateNewClient(client, today);
      if r.Value? {
        ClientFoundAfterCreate(before, client.documentNumber, r.value.id.value);
      }
    }

    /** After a save into a collection where no client had the document
        number, the lookup by it finds the saved client. */
    lemma ClientFoundAfterCreate(before: Table<Client>, documentNumber: Text, id: Id)
      requires Valid() && before.Valid() && before.Keyed(ClientId)
      requires before.FindFirst(ClientDocumentNumber, documentNumber).None?
      requires id in clients.docs && clients.docs[id].documentNumber == documentNumber
      requires clients.docs == before.docs[id := clients.docs[id]]
      ensures FindByDocumentNumber(documentNumber) == GetData(clients.docs[id])
    {
      var found := clients.FindFirst(ClientDocumentNumber, documentNumber);
      var j :| j in clients.docs && clients.docs[j] == found.value;
    }

    /** `updateClient`: refused when no client has the DTO's document
        number; otherwise toEntity of the DTO is saved as it is, an upsert
        by its id, with no EMPRESARIAL check and with the id lists rebuilt
        from the DTO's nested lists. */
    method UpdateClient(client: ClientDto) returns (r: Outcome<ClientDto>)
      requires Valid()
      modifies this
      ensures Valid()
      ensures old(Linked()) ==> Linked()
      ensures old(FindByDocumentNumber(client.documentNumber)).Empty? ==>
        r == Error(BankException(ClientMissing, E)) && unchanged(this)
      ensures old(FindByDocumentNumber(client.documentNumber)).Error? ==>
        r == old(FindByDocumentNumber(client.documentNumber)) && unchanged(this)
      ensures old(FindByDocumentNumber(client.documentNumber)).Value? ==>
        && clients == old(clients).Save(ToEntity(client), ClientId, WithClientId)
        && r.Value? && r.value.id.Some? && r.value.id.value in clients.docs
        && clients.docs[r.value.id.value] == ToEntity(client).(id := r.value.id)
        && (client.id.Some? ==> r.value.id == client.id)
        && r.value == ToDto(ToEntity(client)).(id := r.value.id)
    {
      var existing := FindByDocumentNumber(client.documentNumber);
      if existing.Empty? {
        return Error(BankException(ClientMissing, E));
      }
      if existing.Error? {
        return existing;
      }
      var saved := SaveClient(ToEntity(client));
      r := Value(ToDto(saved));
    }

    /** `deleteClientById`: refused when no client has that id; otherwise
        that client, and only it, is removed. Its representatives and
        signatories stay. */
    method DeleteClientById(id: Id) returns (r: Outcome<()>)
      requires Valid()
      modifies this
      ensures Valid()
      ensures old(Linked()) ==> Linked()
      ensures id !in old(clients.docs) ==> r == Error(BankException(ClientMissing, E)) && unchanged(this)
      ensures id in old(clients.docs) ==> r == Empty && clients == old(clients).Delete(id)
      ensures clients.docs == old(clients.docs) - {id}
    {
      var found := clients.FindById(id);
      if found.None? {
        return Error(BankException(ClientMissing, E));
      }
      assert found.value.id == Some(id);
      clients := clients.Delete(found.value.id.value);
      r := Empty;
    }
  }
}
