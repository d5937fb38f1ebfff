/** The claim token of a persona and how one is signed.

    A claim token asserts one attribute `{name: value}` about a subject (the persona's
    address) and names its issuer by public key and, optionally, by address. The
    signature and its check are abstracted: a token records whether its signature
    verifies against the issuer key it declares, and the elliptic-curve derivation of a
    public key from a private key is a function every signing operation receives. */
module Claims {

  type Address = string
  type Name = string
  type Value = string
  type PrivateKey = string
  type PublicKey = string

  /** Deterministic derivation of the public key belonging to a private key. */
  type KeyDerivation = PrivateKey -> PublicKey

  /** The registry a persona uses when none is supplied. */
  const DefaultRegistryAddress: Address := "0xa9be82e93628abaac5ab557a9b3b02f711c0151c"

  /** Reserved attribute names: the trust anchors of a persona. */
  const PubSignKey: Name := "pubSignKey"
  const PubEncKey: Name := "pubEncKey"

  datatype Option<+T> = None | Some(value: T)

  datatype Error =
    | InvalidClaim                   // a token's signature does not verify
    | AttributeNotFound(name: Name)  // a reserved attribute has no token
    | NotFound                       // the token to remove is not held
    | RegistryUnavailable            // the registry call failed
    | ProjectionFailed(token: Token) // a held token fails verification while projecting
    | UnboundName(name: string)      // a call to a name that is not in scope

  /** How a call that returns nothing ends: normally, or with an error. */
  datatype Outcome = Pass | Fail(error: Error)

  datatype Result<+T> = Success(value: T) | Failure(error: Error)

  /** A single-attribute object `{name: value}`. */
  datatype Attribute = Attribute(name: Name, value: Value)

  /** A decoded and wrapped claim token. `valid` says whether the signature verifies
      against `issuerKey`, the key the token declares for its own issuer. */
  datatype Token = Token(
    name: Name,
    value: Value,
    issuerKey: PublicKey,
    issuerId: Option<Address>,
    subject: Address,
    valid: bool)

  /** Self-consistency of a token: it was signed by the key it says signed it. */
  predicate IsTokenValid(t: Token) {
    t.valid
  }

  /** Signs `attribute` about `subject` with `privSignKey`. The issuer carries the derived
      public key, and its address only when one is given. */
  function SignAttribute(
    derive: KeyDerivation, subject: Address,
    attribute: Attribute, privSignKey: PrivateKey, issuerId: Option<Address>): (t: Token)
    ensures IsTokenValid(t)
    ensures t.name == attribute.name && t.value == attribute.value
    ensures t.issuerKey == derive(privSignKey)
    ensures t.issuerId == issuerId && t.subject == subject
  {
    Token(attribute.name, attribute.value, derive(privSignKey), issuerId, subject, true)
  }

  /** Signs every attribute of `attributes` independently, keeping their order. */
  function SignAttributes(
    derive: KeyDerivation, subject: Address,
    attributes: seq<Attribute>, privSignKey: PrivateKey, issuerId: Option<Address>): (ts: seq<Token>)
    ensures |ts| == |attributes|
    ensures forall i :: 0 <= i < |ts| ==>
      && IsTokenValid(ts[i])
      && ts[i].name == attributes[i].name && ts[i].value == attributes[i].value
      && ts[i].issuerKey == derive(privSignKey) && ts[i].issuerId == issuerId
      && ts[i].subject == subject
  {
    if attributes == [] then []
    else
      [SignAttribute(derive, subject, attributes[0], privSignKey, issuerId)]
      + SignAttributes(derive, subject, attributes[1..], privSignKey, issuerId)
  }

  /** The names of an object's attributes. */
  function AttributeNames(attributes: seq<Attribute>): set<Name> {
    set a | a in attributes :: a.name
  }

  /** A JavaScript object never holds the same key twice. */
  predicate DistinctNames(attributes: seq<Attribute>) {
    forall i, j :: 0 <= i < j < |attributes| ==> attributes[i].name != attributes[j].name
  }
}
