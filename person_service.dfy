/** PersonServiceImpl: CRUD over the persons collection. Unlike the other
    services, create does not check the document number, and update and
    delete fail with an IllegalArgumentException. */
module PersonServices {
  import opened Common
  import opened Outcomes
  import opened Store
  import opened Documents
  import opened PersonDtos

  const PersonNotFound := "Persona no encontrada"

  class PersonService {
    /** The collection behind `personDao`. */
    var table: Table<Person>

    ghost predicate Valid()
      reads this
    {
      table.Valid() && table.Keyed(PersonId)
    }

    constructor ()
      ensures Valid() && table.docs == map[]
    {
      table := EmptyTable();
    }

    /** `findByDocumentNumber`: the first stored person with that document
        number, as a DTO; empty when there is none. */
    function FindByDocumentNumber(documentNumber: Text): (r: Option<PersonDto>)
      requires Valid()
      reads this
      ensures r.Some? ==>
        && r.value.documentNumber == documentNumber
        && r.value.id.Some? && r.value.id.value in table.docs
        && ToEntity(r.value) == table.docs[r.value.id.value]
      ensures r.None? <==> forall id :: id in table.docs ==> table.docs[id].documentNumber != documentNumber
    {
      match table.FindFirst(PersonDocumentNumber, documentNumber)
      case None => None
      case Some(p) =>
        assert p.id.Some? && table.docs[p.id.value] == p by {
          var id :| id in table.docs && table.docs[id] == p;
        }
        Some(ToDto(p))
    }

    /** `findAllPersons`: every stored person, in natural order. */
    function FindAllPersons(): (ds: seq<PersonDto>)
      requires Valid()
      reads this
      ensures |ds| == |table.ids|
      ensures forall k :: 0 <= k < |ds| ==> ToEntity(ds[k]) == table.docs[table.ids[k]] && ds[k].id == Some(table.ids[k])
    {
      ToDtos(table.FindAll())
    }

    /** `personDao.save`: the saved document, carrying the id it is stored
        under. */
    method Save(p: Person) returns (saved: Person)
      requires Valid()
      modifies this
      ensures Valid()
      ensures table == old(table).Save(p, PersonId, WithPersonId)
      ensures saved == old(table).Stored(p, PersonId, WithPersonId)
      ensures saved.id.Some? && saved.id.value in table.docs && table.docs[saved.id.value] == saved
      ensures table.docs == old(table.docs)[saved.id.value := saved]
      ensures saved == p.(id := saved.id)
    {
      IdsAreStamped();
      saved := table.Stored(p, PersonId, WithPersonId);
      table := table.Save(p, PersonId, WithPersonId);
    }

    /** `createPerson`: the DTO is saved as given, whatever is stored
        already, and returned with its id. */
    method CreatePerson(dto: PersonDto) returns (r: Outcome<PersonDto>)
      requires Valid()
      modifies this
      ensures Valid()
      ensures table == old(table).Save(ToEntity(dto), PersonId, WithPersonId)
      ensures r.Value? && r.value == dto.(id := r.value.id)
      ensures r.value.id.Some? && table.docs == old(table.docs)[r.value.id.value := ToEntity(r.value)]
      ensures dto.id.Some? ==> r.value.id == dto.id
      ensures FindByDocumentNumber(dto.documentNumber).Some?
    {
      ghost var before := table;
      var saved := Save(ToEntity(dto));
      IdsAreStamped();
      SaveThenFindFirst(before, ToEntity(dto), PersonId, WithPersonId, PersonDocumentNumber);
      DtoRoundTrip(dto);
      r := Value(ToDto(saved));
    }

    /** `updatePerson`: refused when no person has the DTO's document
        number; otherwise the DTO is saved as given (an upsert by its id). */
    method UpdatePerson(dto: PersonDto) returns (r: Outcome<PersonDto>)
      requires Valid()
      modifies this
      ensures Valid()
      ensures old(FindByDocumentNumber(dto.documentNumber)).None? ==>
        r == Error(IllegalArgument(PersonNotFound)) && table == old(table)
      ensures old(FindByDocumentNumber(dto.documentNumber)).Some? ==>
        && table == old(table).Save(ToEntity(dto), PersonId, WithPersonId)
        && r.Value? && r.value == dto.(id := r.value.id)
        && r.value.id.Some? && table.docs == old(table.docs)[r.value.id.value := ToEntity(r.value)]
        && (dto.id.Some? ==> r.value.id == dto.id)
    {
      var existing := FindByDocumentNumber(dto.documentNumber);
      if existing.None? {
        return Error(IllegalArgument(PersonNotFound));
      }
      var saved := Save(ToEntity(dto));
      DtoRoundTrip(dto);
      r := Value(ToDto(saved));
    }

    /** `deletePerson`: refused when no person has the DTO's document
        number; otherwise the stored person found by it is removed, whatever
        id the DTO carries. */
    method DeletePerson(dto: PersonDto) returns (r: Outcome<()>)
      requires Valid()
      modifies this
      ensures Valid()
      ensures old(FindByDocumentNumber(dto.documentNumber)).None? ==>
        r == Error(IllegalArgument(PersonNotFound)) && table == old(table)
      ensures old(FindByDocumentNumber(dto.documentNumber)).Some? ==>
        var gone := old(FindByDocumentNumber(dto.documentNumber)).value.id.value;
        && r == Empty
        && table == old(table).Delete(gone)
        && old(table.docs[gone].documentNumber) == dto.documentNumber
        && table.docs == old(table.docs) - {gone}
    {
      var found := FindByDocumentNumber(dto.documentNumber);
      if found.None? {
        return Error(IllegalArgument(PersonNotFound));
      }
      table := table.Delete(found.value.id.value);
      r := Empty;
    }

    /** `createPersons`: every DTO saved in order, with no document-number
        check; the saved DTOs come back in the same order. */
    method CreatePersons(dtos: seq<PersonDto>) returns (created: seq<PersonDto>)
      requires Valid()
      modifies this
      ensures Valid()
      ensures var res := old(table).SaveAll(ToEntities(dtos), PersonId, WithPersonId);
        table == res.0 && created == ToDtos(res.1)
      ensures |created| == |dtos|
      ensures forall k :: 0 <= k < |dtos| ==>
        && created[k] == dtos[k].(id := created[k].id)
        && created[k].id.Some? && created[k].id.value in table.docs
        && (dtos[k].id.Some? ==> created[k].id == dtos[k].id)
      ensures old(table.docs.Keys) <= table.docs.Keys
      ensures forall id :: id in old(table.docs) && (forall k :: 0 <= k < |created| ==> created[k].id != Some(id)) ==>
        id in table.docs && table.docs[id] == old(table.docs[id])
    {
      IdsAreStamped();
      var ps := ToEntities(dtos);
      var res := table.SaveAll(ps, PersonId, WithPersonId);
      table := res.0;
      created := ToDtos(res.1);
      forall k | 0 <= k < |dtos|
        ensures created[k] == dtos[k].(id := created[k].id)
        ensures created[k].id.Some? && created[k].id.value in table.docs
        ensures dtos[k].id.Some? ==> created[k].id == dtos[k].id
      {
        var saved := res.1[k];
        assert ps[k] == ToEntity(dtos[k]);
        assert saved == ps[k].(id := saved.id);
        assert created[k] == ToDto(saved);
      }
      forall id | id in old(table.docs) && (forall k :: 0 <= k < |created| ==> created[k].id != Some(id))
        ensures id in table.docs && table.docs[id] == old(table.docs[id])
      {
        assert Some(id) !in IdsOf(res.1, PersonId) by {
          forall k | 0 <= k < |res.1| ensures IdsOf(res.1, PersonId)[k] != Some(id) {
            assert created[k] == ToDto(res.1[k]);
          }
        }
      }
    }
  }
}
