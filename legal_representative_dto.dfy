/** LegalRepresentativeDto and its mappers. The DTO has a `birthDate` the
    mappers never copy: toEntity drops it and toDto leaves it null. */
module LegalRepresentativeDtos {
  import opened Common
  import opened Enums
  import opened Documents

  datatype LegalRepresentativeDto = LegalRepresentativeDto(
    id: Text,
    name: Text,
    lastName: Text,
    email: Text,
    address: Text,
    cellphone: Text,
    phone: Text,
    documentType: Option<DocumentType>,
    documentNumber: Text,
    birthDate: Text,
    status: Option<bool>)

  /** `toEntity`. */
  function ToEntity(d: LegalRepresentativeDto): (e: LegalRepresentative)
    ensures e.id == d.id && e.documentNumber == d.documentNumber && e.status == d.status
  {
    LegalRepresentative(d.id, d.name, d.lastName, d.email, d.address, d.cellphone,
                        d.phone, d.documentType, d.documentNumber, d.status)
  }

  /** `toDto`: every entity field survives; birthDate is null. */
  function ToDto(e: LegalRepresentative): (d: LegalRepresentativeDto)
    ensures d.birthDate.None?
    ensures d.id == e.id && d.documentNumber == e.documentNumber && d.status == e.status
    ensures ToEntity(d) == e
  {
    LegalRepresentativeDto(e.id, e.name, e.lastName, e.email, e.address, e.cellphone,
                           e.phone, e.documentType, e.documentNumber, None, e.status)
  }

  /** The DTO comes back with everything but its birthDate. */
  lemma DtoRoundTrip(d: LegalRepresentativeDto)
    ensures ToDto(ToEntity(d)) == d.(birthDate := None)
    ensures d.birthDate.Some? ==> ToDto(ToEntity(d)) != d
  {
  }

  function ToEntities(ds: seq<LegalRepresentativeDto>): (es: seq<LegalRepresentative>)
    ensures |es| == |ds| && forall k :: 0 <= k < |ds| ==> es[k] == ToEntity(ds[k])
  {
    seq(|ds|, k requires 0 <= k < |ds| => ToEntity(ds[k]))
  }

  function ToDtos(es: seq<LegalRepresentative>): (ds: seq<LegalRepresentativeDto>)
    ensures |ds| == |es| && forall k :: 0 <= k < |es| ==> ds[k] == ToDto(es[k])
  {
    seq(|es|, k requires 0 <= k < |es| => ToDto(es[k]))
  }

  /** The ids of a list of DTOs, in order (`map(LegalRepresentativeDto::getId)`). */
  function Ids(ds: seq<LegalRepresentativeDto>): (ids: seq<Text>)
    ensures |ids| == |ds| && forall k :: 0 <= k < |ds| ==> ids[k] == ds[k].id
  {
    seq(|ds|, k requires 0 <= k < |ds| => ds[k].id)
  }
}
