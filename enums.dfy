/** The four Java enums of the model package (ClientTypeEnum, DocumentTypeEnum,
    ProfileTypeEnum, TypeException): each constant carries a value string,
    `getValue` and `toString` return it, and `fromValue` searches the
    constants in declaration order for an exactly equal value string and
    throws IllegalArgumentException when there is none. */
module Enums {
  import opened Common

  /** Message of the IllegalArgumentException thrown by every `fromValue`. */
  function UnexpectedValue(value: string): string {
    "Unexpected value '" + value + "'"
  }

  /** The for-each search shared by the four `fromValue` methods: the first
      constant of `values` whose value string equals `value`, or the
      exception message when none does. */
  method FromValue<E>(values: seq<E>, valueOf: E -> string, value: string) returns (r: Result<E, string>)
    ensures r.Ok? ==> r.value in values && valueOf(r.value) == value
    ensures r.Ok? ==> exists j :: 0 <= j < |values| && values[j] == r.value && forall k :: 0 <= k < j ==> valueOf(values[k]) != value
    ensures r.Err? <==> forall k :: 0 <= k < |values| ==> valueOf(values[k]) != value
    ensures r.Err? ==> r.error == UnexpectedValue(value)
  {
    for i := 0 to |values|
      invariant forall k :: 0 <= k < i ==> valueOf(values[k]) != value
    {
      if valueOf(values[i]) == value {
        return Ok(values[i]);
      }
    }
    return Err(UnexpectedValue(value));
  }

  // ---------------------------------------------------------------- ClientTypeEnum

  datatype ClientType = PERSONAL | EMPRESARIAL

  /** `ClientTypeEnum.values()`, in declaration order. */
  const ClientTypes: seq<ClientType> := [PERSONAL, EMPRESARIAL]

  /** `getValue`. */
  function ClientTypeValue(c: ClientType): string {
    match c
    case PERSONAL => "PERSONAL"
    case EMPRESARIAL => "EMPRESARIAL"
  }

  /** Reference definition of `fromValue`: exact, case-sensitive match of a
      value string; anything else is rejected with the exception message. */
  function ParseClientType(s: string): (r: Result<ClientType, string>)
    ensures r.Ok? ==> ClientTypeValue(r.value) == s
    ensures r.Err? <==> forall c :: ClientTypeValue(c) != s
    ensures r.Err? ==> r.error == UnexpectedValue(s)
  {
    if s == "PERSONAL" then Ok(PERSONAL)
    else if s == "EMPRESARIAL" then Ok(EMPRESARIAL)
    else Err(UnexpectedValue(s))
  }

  /** `toString`: the value string, which parses back to the constant. */
  function ClientTypeToString(c: ClientType): (s: string)
    ensures s == ClientTypeValue(c)
    ensures ParseClientType(s) == Ok(c)
  {
    ClientTypeValue(c)
  }

  /** `fromValue`: the search loop agrees with the reference definition. */
  method ClientTypeFromValue(s: string) returns (r: Result<ClientType, string>)
    ensures r == ParseClientType(s)
  {
    r := FromValue(ClientTypes, ClientTypeValue, s);
    if r.Err? {
      assert ClientTypeValue(ClientTypes[0]) != s && ClientTypeValue(ClientTypes[1]) != s;
    }
  }

  lemma ClientTypeRoundTrip(c: ClientType)
    ensures ParseClientType(ClientTypeValue(c)) == Ok(c)
  {
  }

  // ---------------------------------------------------------------- DocumentTypeEnum

  datatype DocumentType = DNI | CE | RUC | PASSPORT

  const DocumentTypes: seq<DocumentType> := [DNI, CE, RUC, PASSPORT]

  function DocumentTypeValue(d: DocumentType): string {
    match d
    case DNI => "DNI"
    case CE => "CE"
    case RUC => "RUC"
    case PASSPORT => "PASSPORT"
  }

  function ParseDocumentType(s: string): (r: Result<DocumentType, string>)
    ensures r.Ok? ==> DocumentTypeValue(r.value) == s
    ensures r.Err? <==> forall d :: DocumentTypeValue(d) != s
    ensures r.Err? ==> r.error == UnexpectedValue(s)
  {
    if s == "DNI" then Ok(DNI)
    else if s == "CE" then Ok(CE)
    else if s == "RUC" then Ok(RUC)
    else if s == "PASSPORT" then Ok(PASSPORT)
    else Err(UnexpectedValue(s))
  }

  function DocumentTypeToString(d: DocumentType): (s: string)
    ensures s == DocumentTypeValue(d)
    ensures ParseDocumentType(s) == Ok(d)
  {
    DocumentTypeValue(d)
  }

  method DocumentTypeFromValue(s: string) returns (r: Result<DocumentType, string>)
    ensures r == ParseDocumentType(s)
  {
    r := FromValue(DocumentTypes, DocumentTypeValue, s);
    if r.Err? {
      assert DocumentTypeValue(DocumentTypes[0]) != s && DocumentTypeValue(DocumentTypes[1]) != s && DocumentTypeValue(DocumentTypes[2]) != s && DocumentTypeValue(DocumentTypes[3]) != s;
    }
  }

  /** The four value strings are pairwise distinct, so `getValue` is
      injective and `fromValue` inverts it. */
  lemma DocumentTypeValueInjective(d1: DocumentType, d2: DocumentType)
    ensures DocumentTypeValue(d1) == DocumentTypeValue(d2) ==> d1 == d2
    ensures ParseDocumentType(DocumentTypeValue(d1)) == Ok(d1)
  {
  }

  /** Matching is exact: the lower-case spelling is rejected. */
  lemma DocumentTypeIsCaseSensitive()
    ensures ParseDocumentType("dni") == Err(UnexpectedValue("dni"))
  {
  }

  // ---------------------------------------------------------------- ProfileTypeEnum

  datatype ProfileType = VIP | NORMAL | PYME

  const ProfileTypes: seq<ProfileType> := [VIP, NORMAL, PYME]

  function ProfileTypeValue(p: ProfileType): string {
    match p
    case VIP => "VIP"
    case NORMAL => "NORMAL"
    case PYME => "PYME"
  }

  function ParseProfileType(s: string): (r: Result<ProfileType, string>)
    ensures r.Ok? ==> ProfileTypeValue(r.value) == s
    ensures r.Err? <==> forall p :: ProfileTypeValue(p) != s
    ensures r.Err? ==> r.error == UnexpectedValue(s)
  {
    if s == "VIP" then Ok(VIP)
    else if s == "NORMAL" then Ok(NORMAL)
    else if s == "PYME" then Ok(PYME)
    else Err(UnexpectedValue(s))
  }

  function ProfileTypeToString(p: ProfileType): (s: string)
    ensures s == ProfileTypeValue(p)
    ensures ParseProfileType(s) == Ok(p)
  {
    ProfileTypeValue(p)
  }

  method ProfileTypeFromValue(s: string) returns (r: Result<ProfileType, string>)
    ensures r == ParseProfileType(s)
  {
    r := FromValue(ProfileTypes, ProfileTypeValue, s);
    if r.Err? {
      assert ProfileTypeValue(ProfileTypes[0]) != s && ProfileTypeValue(ProfileTypes[1]) != s && ProfileTypeValue(ProfileTypes[2]) != s;
    }
  }

  lemma ProfileTypeRoundTrip(p: ProfileType)
    ensures ParseProfileType(ProfileTypeValue(p)) == Ok(p)
    ensures ParseProfileType("vip").Err?
  {
  }

  // ---------------------------------------------------------------- TypeException

  /** A: warning ("Advertencia"), E: error ("Error"). */
  datatype TypeException = A | E

  const TypeExceptions: seq<TypeException> := [A, E]

  function TypeExceptionValue(t: TypeException): string {
    match t
    case A => "Advertencia"
    case E => "Error"
  }

  function ParseTypeException(s: string): (r: Result<TypeException, string>)
    ensures r.Ok? ==> TypeExceptionValue(r.value) == s
    ensures r.Err? <==> forall t :: TypeExceptionValue(t) != s
    ensures r.Err? ==> r.error == UnexpectedValue(s)
  {
    if s == "Advertencia" then Ok(A)
    else if s == "Error" then Ok(E)
    else Err(UnexpectedValue(s))
  }

  function TypeExceptionToString(t: TypeException): (s: string)
    ensures s == TypeExceptionValue(t)
    ensures ParseTypeException(s) == Ok(t)
  {
    TypeExceptionValue(t)
  }

  method TypeExceptionFromValue(s: string) returns (r: Result<TypeException, string>)
    ensures r == ParseTypeException(s)
  {
    r := FromValue(TypeExceptions, TypeExceptionValue, s);
    if r.Err? {
      assert TypeExceptionValue(TypeExceptions[0]) != s && TypeExceptionValue(TypeExceptions[1]) != s;
    }
  }

  /** The value strings differ from the constant names: the names themselves
      are rejected, the value strings are accepted. */
  lemma TypeExceptionNamesAreNotValues()
    ensures ParseTypeException("Advertencia") == Ok(A)
    ensures ParseTypeException("Error") == Ok(E)
    ensures ParseTypeException("A").Err? && ParseTypeException("E").Err?
  {
  }
}
