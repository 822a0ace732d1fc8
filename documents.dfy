/** The stored documents of the four collections. Client and Person follow
    their entity classes; the two link records carry the fields their DTO
    mappers read and write (LegalRepresentative.java is not part of this
    model; AuthorizedSignatory.java declares only id, personId and status, and
    its mapper builds the other fields). Each kind comes with the accessors
    the generic store needs: its id, its id replaced, its document number. */
module Documents {
  import opened Common
  import opened Enums
  import opened Store

  datatype Person = Person(
    id: Text,
    tradeName: Text,
    companyName: Text,
    name: Text,
    lastName: Text,
    email: Text,
    address: Text,
    cellphone: Text,
    phone: Text,
    documentType: Option<DocumentType>,
    documentNumber: Text,
    birthDate: Option<Date>)

  datatype LegalRepresentative = LegalRepresentative(
    id: Text,
    name: Text,
    lastName: Text,
    email: Text,
    address: Text,
    cellphone: Text,
    phone: Text,
    documentType: Option<DocumentType>,
    documentNumber: Text,
    status: Option<bool>)

  datatype AuthorizedSignatory = AuthorizedSignatory(
    id: Text,
    personId: Text,
    name: Text,
    lastName: Text,
    email: Text,
    address: Text,
    cellphone: Text,
    phone: Text,
    documentType: Option<DocumentType>,
    documentNumber: Text,
    status: Option<bool>)

  datatype Client = Client(
    id: Text,
    clientType: Option<ClientType>,
    profileType: Option<ProfileType>,
    name: Text,
    lastName: Text,
    companyName: Text,
    email: Text,
    address: Text,
    cellphone: Text,
    phone: Text,
    documentType: Option<DocumentType>,
    documentNumber: Text,
    birthDate: Option<Date>,
    legalRepresentativeIds: Option<seq<Text>>,
    authorizedSignatoryIds: Option<seq<Text>>,
    createAt: Option<Date>,
    status: Option<bool>)

  function PersonId(p: Person): Text { p.id }
  function WithPersonId(p: Person, id: Id): Person { p.(id := Some(id)) }
  function PersonDocumentNumber(p: Person): Text { p.documentNumber }

  function RepresentativeId(r: LegalRepresentative): Text { r.id }
  function WithRepresentativeId(r: LegalRepresentative, id: Id): LegalRepresentative { r.(id := Some(id)) }
  function RepresentativeDocumentNumber(r: LegalRepresentative): Text { r.documentNumber }

  function SignatoryId(s: AuthorizedSignatory): Text { s.id }
  function WithSignatoryId(s: AuthorizedSignatory, id: Id): AuthorizedSignatory { s.(id := Some(id)) }
  function SignatoryDocumentNumber(s: AuthorizedSignatory): Text { s.documentNumber }

  function ClientId(c: Client): Text { c.id }
  function WithClientId(c: Client, id: Id): Client { c.(id := Some(id)) }
  function ClientDocumentNumber(c: Client): Text { c.documentNumber }

  /** Each kind's id setter stores the id its id accessor reads back. */
  lemma IdsAreStamped()
    ensures Stamps(PersonId, WithPersonId)
    ensures Stamps(RepresentativeId, WithRepresentativeId)
    ensures Stamps(SignatoryId, WithSignatoryId)
    ensures Stamps(ClientId, WithClientId)
  {
  }
}
