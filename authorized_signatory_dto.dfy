/** AuthorizedSignatoryDto and its mappers: the ten DTO fields are copied both
    ways; the entity's personId is not among them, so toEntity leaves it
    null. */
module AuthorizedSignatoryDtos {
  import opened Common
  import opened Enums
  import opened Documents

  datatype AuthorizedSignatoryDto = AuthorizedSignatoryDto(
    id: Text,
    name: Text,
    lastName: Text,
    email: Text,
    address: Text,
    cellphone: Text,
    phone: Text,
    documentType: Option<DocumentType>,
    documentNumber: Text,
    status: Option<bool>)

  /** `toEntity`. */
  function ToEntity(d: AuthorizedSignatoryDto): (e: AuthorizedSignatory)
    ensures e.id == d.id && e.documentNumber == d.documentNumber && e.status == d.status
    ensures e.personId.None?
  {
    AuthorizedSignatory(d.id, None, d.name, d.lastName, d.email, d.address, d.cellphone,
                        d.phone, d.documentType, d.documentNumber, d.status)
  }

  /** `toDto`: no DTO field is lost on the way back. */
  function ToDto(e: AuthorizedSignatory): (d: AuthorizedSignatoryDto)
    ensures d.id == e.id && d.documentNumber == e.documentNumber && d.status == e.status
    ensures ToEntity(d) == e.(personId := None)
  {
    AuthorizedSignatoryDto(e.id, e.name, e.lastName, e.email, e.address, e.cellphone,
                           e.phone, e.documentType, e.documentNumber, e.status)
  }

  /** All ten fields round-trip. */
  lemma DtoRoundTrip(d: AuthorizedSignatoryDto)
    ensures ToDto(ToEntity(d)) == d
  {
  }

  function ToEntities(ds: seq<AuthorizedSignatoryDto>): (es: seq<AuthorizedSignatory>)
    ensures |es| == |ds| && forall k :: 0 <= k < |ds| ==> es[k] == ToEntity(ds[k])
  {
    seq(|ds|, k requires 0 <= k < |ds| => ToEntity(ds[k]))
  }

  function ToDtos(es: seq<AuthorizedSignatory>): (ds: seq<AuthorizedSignatoryDto>)
    ensures |ds| == |es| && forall k :: 0 <= k < |es| ==> ds[k] == ToDto(es[k])
  {
    seq(|es|, k requires 0 <= k < |es| => ToDto(es[k]))
  }

  /** The ids of a list of DTOs, in order (`map(AuthorizedSignatoryDto::getId)`). */
  function Ids(ds: seq<AuthorizedSignatoryDto>): (ids: seq<Text>)
    ensures |ids| == |ds| && forall k :: 0 <= k < |ds| ==> ids[k] == ds[k].id
  {
    seq(|ds|, k requires 0 <= k < |ds| => ds[k].id)
  }
}
