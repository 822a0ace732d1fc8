/** LegalRepresentativeServiceImpl: CRUD over the legalRepresentatives
    collection, with the document number as the business key checked on
    create and update. */
module LegalRepresentativeServices {
  import opened Common
  import opened Enums
  import opened Outcomes
  import opened Store
  import opened Documents
  import opened LegalRepresentativeDtos

  const RepresentativeExists := "El representante legal ya existe"
  const RepresentativeMissing := "El representante legal no existe"

  class LegalRepresentativeService {
    /** The collection behind `legalRepresentativeDao`. */
    var table: Table<LegalRepresentative>

    ghost predicate Valid()
      reads this
    {
      table.Valid() && table.Keyed(RepresentativeId)
    }

    constructor ()
      ensures Valid() && table.docs == map[]
    {
      table := EmptyTable();
    }

    /** `findByDocumentNumber`: the first stored representative with that
        document number, as a DTO; empty when there is none. */
    function FindByDocumentNumber(documentNumber: Text): (r: Option<LegalRepresentativeDto>)
      requires Valid()
      reads this
      ensures r.Some? ==>
        && r.value.documentNumber == documentNumber
        && r.value.id.Some? && r.value.id.value in table.docs
        && r.value == ToDto(table.docs[r.value.id.value])
      ensures r.None? <==> forall id :: id in table.docs ==> table.docs[id].documentNumber != documentNumber
    {
      match table.FindFirst(RepresentativeDocumentNumber, documentNumber)
      case None => None
      case Some(e) =>
        assert e.id.Some? && table.docs[e.id.value] == e by {
          var id :| id in table.docs && table.docs[id] == e;
        }
        Some(ToDto(e))
    }

    /** `findAllLegalRepresentatives`: every stored representative, in
        natural order. */
    function FindAllLegalRepresentatives(): (ds: seq<LegalRepresentativeDto>)
      requires Valid()
      reads this
      ensures |ds| == |table.ids|
      ensures forall k :: 0 <= k < |ds| ==> ds[k] == ToDto(table.docs[table.ids[k]]) && ds[k].id == Some(table.ids[k])
    {
      ToDtos(table.FindAll())
    }

    /** `findAllByIdList`: exactly the stored representatives whose id is in
        the list; unknown ids are skipped. */
    function FindAllByIdList(idList: seq<Text>): (ds: seq<LegalRepresentativeDto>)
      requires Valid()
      reads this
      ensures idList == [] ==> ds == []
      ensures forall id :: id in table.docs && Some(id) in idList ==> ToDto(table.docs[id]) in ds
      ensures forall d :: d in ds ==> d.id in idList && d.id.Some? && d.id.value in table.docs && ToDto(table.docs[d.id.value]) == d
    {
      table.FindAllByIdExact(RepresentativeId, idList);
      var es := table.FindAllById(idList);
      assert forall d :: d in ToDtos(es) ==>
          d.id in idList && d.id.Some? && d.id.value in table.docs && ToDto(table.docs[d.id.value]) == d by {
        forall d | d in ToDtos(es)
          ensures d.id in idList && d.id.Some? && d.id.value in table.docs && ToDto(table.docs[d.id.value]) == d
        {
          var k :| 0 <= k < |es| && ToDtos(es)[k] == d;
          assert es[k] in es;
          var id :| id in table.docs && table.docs[id] == es[k];
        }
      }
      assert forall id :: id in table.docs && Some(id) in idList ==> ToDto(table.docs[id]) in ToDtos(es) by {
        forall id | id in table.docs && Some(id) in idList ensures ToDto(table.docs[id]) in ToDtos(es) {
          var k :| 0 <= k < |es| && es[k] == table.docs[id];
          assert ToDtos(es)[k] == ToDto(table.docs[id]);
        }
      }
      ToDtos(es)
    }

    /** `legalRepresentativeDao.save`: the saved document, carrying the id
        it is stored under. */
    method Save(e: LegalRepresentative) returns (saved: LegalRepresentative)
      requires Valid()
      modifies this
      ensures Valid()
      ensures table == old(table).Save(e, RepresentativeId, WithRepresentativeId)
      ensures saved == old(table).Stored(e, RepresentativeId, WithRepresentativeId)
      ensures saved.id.Some? && saved.id.value in table.docs && table.docs[saved.id.value] == saved
      ensures table.docs == old(table.docs)[saved.id.value := saved]
      ensures saved == e.(id := saved.id)
    {
      IdsAreStamped();
      saved := table.Stored(e, RepresentativeId, WithRepresentativeId);
      table := table.Save(e, RepresentativeId, WithRepresentativeId);
    }

    /** `createLegalRepresentative`: refused when the document number is
        already taken; otherwise the DTO is saved and returned with its id. */
    method CreateLegalRepresentative(dto: LegalRepresentativeDto) returns (r: Outcome<LegalRepresentativeDto>)
      requires Valid()
      modifies this
      ensures Valid()
      ensures old(FindByDocumentNumber(dto.documentNumber)).Some? ==>
        r == Error(BankException(RepresentativeExists, E)) && table == old(table)
      ensures old(FindByDocumentNumber(dto.documentNumber)).None? ==>
        && table == old(table).Save(ToEntity(dto), RepresentativeId, WithRepresentativeId)
        && r.Value? && r.value == ToDto(ToEntity(dto)).(id := r.value.id)
        && r.value.id.Some? && r.value.id.value in table.docs
        && table.docs == old(table.docs)[r.value.id.value := ToEntity(r.value)]
        && FindByDocumentNumber(dto.documentNumber) == Some(r.value)
    {
      var existing := FindByDocumentNumber(dto.documentNumber);
      if existing.Some? {
        return Error(BankException(RepresentativeExists, E));
      }
      ghost var before := table;
      var created := CreateNewLegalRepresentative(dto);
      IdsAreStamped();
      SaveThenFindFirst(before, ToEntity(dto), RepresentativeId, WithRepresentativeId, RepresentativeDocumentNumber);
      r := Value(created);
    }

    /** `createNewLegalRepresentative`: save the DTO's entity, no check. */
    method CreateNewLegalRepresentative(dto: LegalRepresentativeDto) returns (created: LegalRepresentativeDto)
      requires Valid()
      modifies this
      ensures Valid()
      ensures table == old(table).Save(ToEntity(dto), RepresentativeId, WithRepresentativeId)
      ensures created == ToDto(old(table).Stored(ToEntity(dto), RepresentativeId, WithRepresentativeId))
      ensures created == ToDto(ToEntity(dto)).(id := created.id)
      ensures created.id.Some? && table.docs[created.id.value] == ToEntity(created)
      ensures table.docs == old(table.docs)[created.id.value := ToEntity(created)]
    {
      var saved := Save(ToEntity(dto));
      created := ToDto(saved);
    }

    /** `updateLegalRepresentative`: refused when no representative has the
        DTO's document number; otherwise the DTO is saved as given, which
        replaces the document with the DTO's id (or inserts one when the id
        is null or unknown). */
    method UpdateLegalRepresentative(dto: LegalRepresentativeDto) returns (r: Outcome<LegalRepresentativeDto>)
      requires Valid()
      modifies this
      ensures Valid()
      ensures old(FindByDocumentNumber(dto.documentNumber)).None? ==>
        r == Error(BankException(RepresentativeMissing, E)) && table == old(table)
      ensures old(FindByDocumentNumber(dto.documentNumber)).Some? ==>
        && table == old(table).Save(ToEntity(dto), RepresentativeId, WithRepresentativeId)
        && r == Value(ToDto(old(table).Stored(ToEntity(dto), RepresentativeId, WithRepresentativeId)))
      ensures r.Value? ==>
        && r.value == ToDto(ToEntity(dto)).(id := r.value.id)
        && r.value.id.Some? && table.docs == old(table.docs)[r.value.id.value := ToEntity(r.value)]
        && (dto.id.Some? ==> r.value.id == dto.id)
    {
      var existing := FindByDocumentNumber(dto.documentNumber);
      if existing.None? {
        return Error(BankException(RepresentativeMissing, E));
      }
      var saved := Save(ToEntity(dto));
      r := Value(ToDto(saved));
    }

    /** `deleteLegalRepresentativeById`: refused when no document has that
        id; otherwise that document, and only it, is removed. */
    method DeleteLegalRepresentativeById(id: Id) returns (r: Outcome<()>)
      requires Valid()
      modifies this
      ensures Valid()
      ensures id !in old(table.docs) ==> r == Error(BankException(RepresentativeMissing, E)) && table == old(table)
      ensures id in old(table.docs) ==> r == Empty && table == old(table).Delete(id)
      ensures table.docs == old(table.docs) - {id}
    {
      var found := table.FindById(id);
      if found.None? {
        return Error(BankException(RepresentativeMissing, E));
      }
      assert found.value.id == Some(id);
      table := table.Delete(found.value.id.value);
      r := Empty;
    }

    /** `createLegalRepresentatives`: every DTO saved in order, with no
        document-number check; the saved DTOs come back in the same order. */
    method CreateLegalRepresentatives(dtos: seq<LegalRepresentativeDto>) returns (created: seq<LegalRepresentativeDto>)
      requires Valid()
      modifies this
      ensures Valid()
      ensures var res := old(table).SaveAll(ToEntities(dtos), RepresentativeId, WithRepresentativeId);
        table == res.0 && created == ToDtos(res.1)
      ensures |created| == |dtos|
      ensures forall k :: 0 <= k < |dtos| ==>
        && created[k] == dtos[k].(id := created[k].id, birthDate := None)
        && created[k].id.Some? && created[k].id.value in table.docs
        && (dtos[k].id.Some? ==> created[k].id == dtos[k].id)
      ensures old(table.docs.Keys) <= table.docs.Keys
      ensures forall id :: id in old(table.docs) && (forall k :: 0 <= k < |created| ==> created[k].id != Some(id)) ==>
        id in table.docs && table.docs[id] == old(table.docs[id])
    {
      IdsAreStamped();
      var es := ToEntities(dtos);
      var res := table.SaveAll(es, RepresentativeId, WithRepresentativeId);
      table := res.0;
      created := ToDtos(res.1);
      forall k | 0 <= k < |dtos|
        ensures created[k] == dtos[k].(id := created[k].id, birthDate := None)
        ensures created[k].id.Some? && created[k].id.value in table.docs
        ensures dtos[k].id.Some? ==> created[k].id == dtos[k].id
      {
        var saved := res.1[k];
        assert es[k] == ToEntity(dtos[k]);
        assert saved == es[k].(id := saved.id);
        assert created[k] == ToDto(saved);
      }
      forall id | id in old(table.docs) && (forall k :: 0 <= k < |created| ==> created[k].id != Some(id))
        ensures id in table.docs && table.docs[id] == old(table.docs[id])
      {
        assert Some(id) !in IdsOf(res.1, RepresentativeId) by {
          forall k | 0 <= k < |res.1| ensures IdsOf(res.1, RepresentativeId)[k] != Some(id) {
            assert created[k] == ToDto(res.1[k]);
          }
        }
      }
    }
  }
}
