/** ClientDto and its mappers. toDto copies every scalar field but, through
    an inverted null test, replaces a present id list by an empty one (and
    keeps a null one null); toEntity rebuilds the id lists from the nested
    DTO lists and ignores the DTO's own id lists. `ClientDto.build()` is only
    the receiver of these two calls and is not modelled apart from them. */
module ClientDtos {
  import opened Common
  import opened Enums
  import opened Documents
  import LR = LegalRepresentativeDtos
  import AS = AuthorizedSignatoryDtos

  datatype ClientDto = ClientDto(
    id: Text,
    clientType: Option<ClientType>,
    profileType: Option<ProfileType>,
    name: Text,
    lastName: Text,
    companyName: Text,
    email: Text,
    address: Text,
    cellphone: Text,
    phone: Text,
    documentType: Option<DocumentType>,
    documentNumber: Text,
    birthDate: Option<Date>,
    legalRepresentativeIds: Option<seq<Text>>,
    legalRepresentatives: Option<seq<LR.LegalRepresentativeDto>>,
    authorizedSignatoryIds: Option<seq<Text>>,
    authorizedSignatories: Option<seq<AS.AuthorizedSignatoryDto>>,
    createAt: Option<Date>,
    status: Option<bool>)

  /** The fields a client DTO and a client document share, other than the id
      lists, are equal. */
  predicate SameScalars(d: ClientDto, c: Client) {
    && d.id == c.id
    && d.clientType == c.clientType
    && d.profileType == c.profileType
    && d.name == c.name
    && d.lastName == c.lastName
    && d.companyName == c.companyName
    && d.email == c.email
    && d.address == c.address
    && d.cellphone == c.cellphone
    && d.phone == c.phone
    && d.documentType == c.documentType
    && d.documentNumber == c.documentNumber
    && d.birthDate == c.birthDate
    && d.createAt == c.createAt
    && d.status == c.status
  }

  /** `toDto`: scalars copied; a present id list becomes empty, a null one
      stays null; the nested lists are left null. */
  function ToDto(c: Client): (d: ClientDto)
    ensures SameScalars(d, c)
    ensures d.legalRepresentativeIds == if c.legalRepresentativeIds.Some? then Some([]) else None
    ensures d.authorizedSignatoryIds == if c.authorizedSignatoryIds.Some? then Some([]) else None
    ensures d.legalRepresentatives.None? && d.authorizedSignatories.None?
  {
    ClientDto(
      c.id, c.clientType, c.profileType, c.name, c.lastName, c.companyName, c.email,
      c.address, c.cellphone, c.phone, c.documentType, c.documentNumber, c.birthDate,
      if c.legalRepresentativeIds != None then Some([]) else c.legalRepresentativeIds,
      None,
      if c.authorizedSignatoryIds != None then Some([]) else c.authorizedSignatoryIds,
      None,
      c.createAt, c.status)
  }

  /** The id list toEntity builds from a nested DTO list: the ids in order,
      or an empty list when the nested list is null. */
  function LinkIds<T>(nested: Option<seq<T>>, idOf: T -> Text): (ids: seq<Text>)
    ensures nested.None? ==> ids == []
    ensures nested.Some? ==> |ids| == |nested.value| && forall k :: 0 <= k < |ids| ==> ids[k] == idOf(nested.value[k])
  {
    if nested.Some? then seq(|nested.value|, k requires 0 <= k < |nested.value| => idOf(nested.value[k])) else []
  }

  function RepresentativeDtoId(r: LR.LegalRepresentativeDto): Text { r.id }
  function SignatoryDtoId(s: AS.AuthorizedSignatoryDto): Text { s.id }

  /** `toEntity`: scalars copied; both id lists present, taken from the
      nested lists. */
  function ToEntity(d: ClientDto): (c: Client)
    ensures SameScalars(d, c)
    ensures c.legalRepresentativeIds == Some(LinkIds(d.legalRepresentatives, RepresentativeDtoId))
    ensures c.authorizedSignatoryIds == Some(LinkIds(d.authorizedSignatories, SignatoryDtoId))
  {
    Client(
      d.id, d.clientType, d.profileType, d.name, d.lastName, d.companyName, d.email,
      d.address, d.cellphone, d.phone, d.documentType, d.documentNumber, d.birthDate,
      Some(LinkIds(d.legalRepresentatives, RepresentativeDtoId)),
      Some(LinkIds(d.authorizedSignatories, SignatoryDtoId)),
      d.createAt, d.status)
  }

  /** A document survives toDto then toEntity except for its id lists, which
      come back empty whatever they held. */
  lemma EntityRoundTrip(c: Client)
    ensures ToEntity(ToDto(c)) == c.(legalRepresentativeIds := Some([]), authorizedSignatoryIds := Some([]))
  {
  }

  /** The lossy spot: a document that references any representative or
      signatory loses those references in its DTO. */
  lemma ToDtoDropsReferences(c: Client)
    requires c.legalRepresentativeIds.Some? && c.legalRepresentativeIds.value != []
    ensures ToDto(c).legalRepresentativeIds != c.legalRepresentativeIds
    ensures ToDto(c).legalRepresentativeIds == Some([])
  {
  }

  /** toEntity does not look at the DTO's own id lists. */
  lemma ToEntityIgnoresIdLists(d: ClientDto, legalIds: Option<seq<Text>>, signatoryIds: Option<seq<Text>>)
    ensures ToEntity(d.(legalRepresentativeIds := legalIds, authorizedSignatoryIds := signatoryIds)) == ToEntity(d)
  {
  }
}
