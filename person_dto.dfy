/** PersonDto and its two mappers: plain field copies, with the DTO field
    `lastname` mapped to the entity field `lastName`. */
module PersonDtos {
  import opened Common
  import opened Enums
  import opened Documents

  datatype PersonDto = PersonDto(
    id: Text,
    tradeName: Text,
    companyName: Text,
    name: Text,
    lastname: Text,
    email: Text,
    address: Text,
    cellphone: Text,
    phone: Text,
    documentType: Option<DocumentType>,
    documentNumber: Text,
    birthDate: Option<Date>)

  /** `toEntity`. */
  function ToEntity(d: PersonDto): (p: Person)
    ensures p.id == d.id && p.documentNumber == d.documentNumber
    ensures p.lastName == d.lastname
  {
    Person(d.id, d.tradeName, d.companyName, d.name, d.lastname, d.email,
           d.address, d.cellphone, d.phone, d.documentType, d.documentNumber, d.birthDate)
  }

  /** `toDto`: no field of the entity is lost. */
  function ToDto(p: Person): (d: PersonDto)
    ensures d.id == p.id && d.documentNumber == p.documentNumber
    ensures d.lastname == p.lastName
    ensures ToEntity(d) == p
  {
    PersonDto(p.id, p.tradeName, p.companyName, p.name, p.lastName, p.email,
              p.address, p.cellphone, p.phone, p.documentType, p.documentNumber, p.birthDate)
  }

  /** No field of the DTO is lost either: all twelve survive. */
  lemma DtoRoundTrip(d: PersonDto)
    ensures ToDto(ToEntity(d)) == d
  {
  }

  function ToEntities(ds: seq<PersonDto>): (ps: seq<Person>)
    ensures |ps| == |ds| && forall k :: 0 <= k < |ds| ==> ps[k] == ToEntity(ds[k])
  {
    seq(|ds|, k requires 0 <= k < |ds| => ToEntity(ds[k]))
  }

  function ToDtos(ps: seq<Person>): (ds: seq<PersonDto>)
    ensures |ds| == |ps| && forall k :: 0 <= k < |ps| ==> ds[k] == ToDto(ps[k])
  {
    seq(|ps|, k requires 0 <= k < |ps| => ToDto(ps[k]))
  }
}
