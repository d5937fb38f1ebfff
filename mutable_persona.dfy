/** The local-first persona of src/mutablePersona.js. It extends the read-write persona
    (held here as `persona`, whose state and queries it inherits) with changes that are
    made in memory only: nothing is saved until the caller writes to the registry. Errors
    that the source throws are returned as `Fail`. */
module LocalFirstPersona {
  import opened Claims
  import opened ClaimStore
  import ReadWritePersona

  class MutablePersona {
    /** The inherited state: address, registry address, key derivation and tokens. */
    const persona: ReadWritePersona.Persona

    constructor (proxyAddress: Address, registryAddress: Option<Address>, derive: KeyDerivation)
      ensures fresh(persona)
      ensures persona.address == proxyAddress && persona.derive == derive
      ensures persona.tokenRecords == []
      ensures persona.registryAddress ==
        if registryAddress.Some? && registryAddress.value != "" then registryAddress.value else DefaultRegistryAddress
    {
      persona := new ReadWritePersona.Persona(proxyAddress, registryAddress, derive);
    }

    /** Throws on an invalid token without change; otherwise appends it. */
    method AddClaim(token: Token) returns (r: Outcome)
      modifies persona
      ensures r == if IsTokenValid(token) then Pass else Fail(InvalidClaim)
      ensures persona.tokenRecords ==
        if IsTokenValid(token) then old(persona.tokenRecords) + [token] else old(persona.tokenRecords)
    {
      if !IsTokenValid(token) {
        return Fail(InvalidClaim);
      }
      persona.tokenRecords := persona.tokenRecords + [token];
      r := Pass;
    }

    /** Adds the tokens one by one, in order, duplicates included. Not atomic: at the
        first invalid token it stops with InvalidClaim and the tokens before it stay. */
    method AddClaims(tokensList: seq<Token>) returns (r: Outcome)
      modifies persona
      ensures var k := FirstInvalid(tokensList);
        && persona.tokenRecords == old(persona.tokenRecords) + tokensList[..k]
        && r == if k < |tokensList| then Fail(InvalidClaim) else Pass
      ensures forall name :: (ClaimsNamed(persona.tokenRecords, name) ==
        ClaimsNamed(old(persona.tokenRecords), name) + ClaimsNamed(tokensList[..FirstInvalid(tokensList)], name))
    {
      var i := 0;
      while i < |tokensList|
        invariant 0 <= i <= |tokensList|
        invariant forall j :: 0 <= j < i ==> IsTokenValid(tokensList[j])
        invariant persona.tokenRecords == old(persona.tokenRecords) + tokensList[..i]
      {
        r := AddClaim(tokensList[i]);
        if r.Fail? {
          AppendMany(old(persona.tokenRecords), tokensList[..i]);
          return;
        }
        assert tokensList[..i + 1] == tokensList[..i] + [tokensList[i]];
        i := i + 1;
      }
      assert tokensList[..i] == tokensList;
      AppendMany(old(persona.tokenRecords), tokensList);
      r := Pass;
    }

    /** Throws NotFound, without change, when the token is not held; otherwise removes
        exactly its first occurrence, keeping the tokens before and after it in order. */
    method RemoveClaim(token: Token) returns (r: Outcome)
      modifies persona
      ensures r == if token in old(persona.tokenRecords) then Pass else Fail(NotFound)
      ensures token !in old(persona.tokenRecords) ==> persona.tokenRecords == old(persona.tokenRecords)
      ensures token in old(persona.tokenRecords) ==>
        var idx := IndexOf(old(persona.tokenRecords), token);
        && persona.tokenRecords == RemoveAt(old(persona.tokenRecords), idx)
        && token !in old(persona.tokenRecords)[..idx]
        && multiset(persona.tokenRecords) == multiset(old(persona.tokenRecords)) - multiset{token}
    {
      var idx := IndexOf(persona.tokenRecords, token);
      if idx == -1 {
        return Fail(NotFound);
      }
      persona.tokenRecords := RemoveAt(persona.tokenRecords, idx);
      r := Pass;
    }

    /** Signs the attribute as this persona and appends it; it is never rejected. */
    method AddAttribute(attribute: Attribute, privSignKey: PrivateKey)
      modifies persona
      ensures persona.tokenRecords == old(persona.tokenRecords)
        + [SignAttribute(persona.derive, persona.address, attribute, privSignKey, Some(persona.address))]
    {
      var token := SignAttribute(persona.derive, persona.address, attribute, privSignKey, Some(persona.address));
      var r := AddClaim(token);
    }

    /** Removes every token about the attribute's name, then adds the new self-signed one:
        exactly one token of that name survives, last, with the new value. */
    method ReplaceAttribute(attribute: Attribute, privSignKey: PrivateKey)
      modifies persona
      ensures persona.tokenRecords == WithoutName(old(persona.tokenRecords), attribute.name)
        + [SignAttribute(persona.derive, persona.address, attribute, privSignKey, Some(persona.address))]
      ensures ClaimsNamed(persona.tokenRecords, attribute.name) == [persona.tokenRecords[|persona.tokenRecords| - 1]]
      ensures persona.tokenRecords[|persona.tokenRecords| - 1].value == attribute.value
      ensures forall name :: name != attribute.name ==>
        ClaimsNamed(persona.tokenRecords, name) == ClaimsNamed(old(persona.tokenRecords), name)
      ensures ProfileOf(persona.tokenRecords) == ProfileOf(old(persona.tokenRecords))[attribute.name := attribute.value]
    {
      var token := SignAttribute(persona.derive, persona.address, attribute, privSignKey, Some(persona.address));
      ReplacedNameClaims(persona.tokenRecords, token);
      ReplacedNameInProfile(persona.tokenRecords, token);
      RemoveAttribute(attribute.name);
      AddAttribute(attribute, privSignKey);
    }

    /** Removes every token about `attributeName`; the others stay in order. */
    method RemoveAttribute(attributeName: Name)
      modifies persona
      ensures persona.tokenRecords == WithoutName(old(persona.tokenRecords), attributeName)
      ensures ClaimsNamed(persona.tokenRecords, attributeName) == []
      ensures forall name :: name != attributeName ==>
        ClaimsNamed(persona.tokenRecords, name) == ClaimsNamed(old(persona.tokenRecords), name)
      ensures ProfileOf(persona.tokenRecords) == ProfileOf(old(persona.tokenRecords)) - {attributeName}
    {
      forall name {
        WithoutNameKeepsOthers(persona.tokenRecords, attributeName, name);
      }
      RemovedNameLeavesProfile(persona.tokenRecords, attributeName);
      persona.tokenRecords := WithoutName(persona.tokenRecords, attributeName);
    }

    /** Replaces the `pubSignKey` attribute by the key derived from `privSignKey`, so the
        persona's public signing key is that key. */
    method SetPublicSigningKey(privSignKey: PrivateKey)
      modifies persona
      ensures persona.tokenRecords == WithoutName(old(persona.tokenRecords), PubSignKey)
        + [SignAttribute(persona.derive, persona.address, Attribute(PubSignKey, persona.derive(privSignKey)),
                         privSignKey, Some(persona.address))]
      ensures |ClaimsNamed(persona.tokenRecords, PubSignKey)| == 1
      ensures persona.GetPublicSigningKey() == Success(persona.derive(privSignKey))
      ensures forall name :: name != PubSignKey ==>
        ClaimsNamed(persona.tokenRecords, name) == ClaimsNamed(old(persona.tokenRecords), name)
    {
      var pub := persona.derive(privSignKey);
      ReplaceAttribute(Attribute(PubSignKey, pub), privSignKey);
    }

    /** Replaces the `pubEncKey` attribute by `pubEncKey`, signed with `privSignKey`. */
    method SetPublicEncryptionKey(pubEncKey: PublicKey, privSignKey: PrivateKey)
      modifies persona
      ensures persona.tokenRecords == WithoutName(old(persona.tokenRecords), PubEncKey)
        + [SignAttribute(persona.derive, persona.address, Attribute(PubEncKey, pubEncKey),
                         privSignKey, Some(persona.address))]
      ensures |ClaimsNamed(persona.tokenRecords, PubEncKey)| == 1
      ensures persona.GetPublicEncryptionKey() == Success(pubEncKey)
      ensures forall name :: name != PubEncKey ==>
        ClaimsNamed(persona.tokenRecords, name) == ClaimsNamed(old(persona.tokenRecords), name)
    {
      ReplaceAttribute(Attribute(PubEncKey, pubEncKey), privSignKey);
    }
  }

  /** A client following test/mutablePersona.js, without the profile's own attributes:
      the signing key is set; a self-signed attribute and a third-party attestation of it
      give two tokens of the name; an invalid token is refused without change; three more
      copies give five; a list with an invalid token in the middle keeps the copy before it
      and fails; a token not held cannot be removed, and once added it can; replacing the
      attribute leaves one token of the name and removing it none. */
  method ClientReplacesAttestations(
    derive: KeyDerivation, address: Address, privSignKey1: PrivateKey, privSignKey2: PrivateKey,
    attribute: Attribute, replacement: Attribute, invalidClaim: Token, validClaim: Token)
    returns (p: MutablePersona)
    requires replacement.name == attribute.name && attribute.name != PubSignKey
    requires !IsTokenValid(invalidClaim)
    requires IsTokenValid(validClaim) && validClaim.name != attribute.name && validClaim.name != PubSignKey
    ensures fresh(p.persona)
    ensures ClaimsNamed(p.persona.tokenRecords, attribute.name) == []
  {
    p := ClientSetsSigningKey(derive, address, privSignKey1);
    ClientAttests(p, privSignKey1, privSignKey2, attribute, invalidClaim, validClaim);
    ClientRemovesClaim(p, validClaim);
    ClientReplacesThenRemoves(p, replacement, privSignKey1);
  }

  /** Behind the `pubSignKey` anchor, a self-signed attribute and a third-party attestation
      give two tokens of the name; an invalid token is refused without change; three more
      copies give five; a list with an invalid token in the middle keeps the copy before it
      and fails. A token of another name is still not held. */
  method ClientAttests(
    p: MutablePersona, privSignKey1: PrivateKey, privSignKey2: PrivateKey,
    attribute: Attribute, invalidClaim: Token, validClaim: Token)
    requires attribute.name != PubSignKey && !IsTokenValid(invalidClaim)
    requires validClaim.name != attribute.name && validClaim.name != PubSignKey
    requires |p.persona.tokenRecords| == 1 && p.persona.tokenRecords[0].name == PubSignKey
    modifies p.persona
    ensures validClaim !in p.persona.tokenRecords
  {
    NoClaimsOfAbsentName(p.persona.tokenRecords, attribute.name);
    var one := p.persona.tokenRecords;
    var claim := ClientSignsAttribute(p, privSignKey1, privSignKey2, attribute);
    var three := p.persona.tokenRecords;
    assert validClaim !in three by {
      assert three == one + three[1..];
      assert one == [one[0]] && validClaim != one[0];
    }
    ClientRejectsInvalidClaim(p, invalidClaim);
    ClientAddsCopies(p, claim);
    assert |ClaimsNamed(p.persona.tokenRecords, attribute.name)| == 5;
    var six := p.persona.tokenRecords;
    assert six == three + [claim, claim, claim];
    ClientRejectsInvalidInList(p, claim, invalidClaim);
    assert p.persona.tokenRecords == six + [claim] && validClaim != claim;
  }

  /** A new persona whose signing key is set holds the one `pubSignKey` token, and reads
      back the key derived from the private key. */
  method ClientSetsSigningKey(derive: KeyDerivation, address: Address, privSignKey: PrivateKey)
    returns (p: MutablePersona)
    ensures fresh(p.persona)
    ensures |p.persona.tokenRecords| == 1 && p.persona.tokenRecords[0].name == PubSignKey
    ensures p.persona.GetPublicSigningKey() == Success(derive(privSignKey))
  {
    p := new MutablePersona(address, None, derive);
    p.SetPublicSigningKey(privSignKey);
    assert WithoutName([], PubSignKey) == [];
  }

  /** A self-signed attribute and a third-party attestation of it give two tokens of a name
      that had none. */
  method ClientSignsAttribute(
    p: MutablePersona, privSignKey1: PrivateKey, privSignKey2: PrivateKey, attribute: Attribute)
    returns (claim: Token)
    requires ClaimsNamed(p.persona.tokenRecords, attribute.name) == []
    modifies p.persona
    ensures IsTokenValid(claim) && claim.name == attribute.name
    ensures |p.persona.tokenRecords| == |old(p.persona.tokenRecords)| + 2
    ensures p.persona.tokenRecords == old(p.persona.tokenRecords) + p.persona.tokenRecords[|old(p.persona.tokenRecords)|..]
    ensures forall t :: t in p.persona.tokenRecords[|old(p.persona.tokenRecords)|..] ==>
      t.name == attribute.name && IsTokenValid(t)
    ensures |ClaimsNamed(p.persona.tokenRecords, attribute.name)| == 2
  {
    var before := p.persona.tokenRecords;
    var own := SignAttribute(p.persona.derive, p.persona.address, attribute, privSignKey1, Some(p.persona.address));
    p.AddAttribute(attribute, privSignKey1);
    AppendOne(before, own);
    assert |ClaimsNamed(p.persona.tokenRecords, attribute.name)| == 1;
    claim := SignAttribute(p.persona.derive, p.persona.address, attribute, privSignKey2, None);
    var r := p.AddClaim(claim);
    assert p.persona.tokenRecords == before + [own] + [claim];
    assert p.persona.tokenRecords[|before|..] == [own, claim];
    AppendOne(before + [own], claim);
  }

  /** An invalid token is refused, and nothing changes. */
  method ClientRejectsInvalidClaim(p: MutablePersona, invalidClaim: Token)
    requires !IsTokenValid(invalidClaim)
    modifies p.persona
    ensures p.persona.tokenRecords == old(p.persona.tokenRecords)
  {
    var r := p.AddClaim(invalidClaim);
    assert r == Fail(InvalidClaim);
  }

  /** Three copies of an attestation are all added, duplicates included. */
  method ClientAddsCopies(p: MutablePersona, claim: Token)
    requires IsTokenValid(claim)
    modifies p.persona
    ensures p.persona.tokenRecords == old(p.persona.tokenRecords) + [claim, claim, claim]
    ensures |ClaimsNamed(p.persona.tokenRecords, claim.name)| == |ClaimsNamed(old(p.persona.tokenRecords), claim.name)| + 3
  {
    var r := p.AddClaims([claim, claim, claim]);
    assert FirstInvalid([claim, claim, claim]) == 3;
    assert [claim, claim, claim][..3] == [claim, claim, claim];
    assert r == Pass;
    assert ClaimsNamed([claim, claim, claim], claim.name) == [claim, claim, claim] by {
      assert [claim, claim, claim][1..] == [claim, claim];
      assert [claim, claim][1..] == [claim];
    }
  }

  /** A list with an invalid token in the middle fails, keeping the token before it. */
  method ClientRejectsInvalidInList(p: MutablePersona, claim: Token, invalidClaim: Token)
    requires IsTokenValid(claim) && !IsTokenValid(invalidClaim)
    modifies p.persona
    ensures p.persona.tokenRecords == old(p.persona.tokenRecords) + [claim]
  {
    var r := p.AddClaims([claim, invalidClaim, claim]);
    assert FirstInvalid([claim, invalidClaim, claim]) == 1;
    assert [claim, invalidClaim, claim][..1] == [claim];
    assert r == Fail(InvalidClaim);
  }

  /** Removing a token that is not held throws NotFound; once added, it can be removed and
      is no longer held, with the tokens as they were. */
  method ClientRemovesClaim(p: MutablePersona, validClaim: Token)
    requires IsTokenValid(validClaim) && validClaim !in p.persona.tokenRecords
    modifies p.persona
    ensures p.persona.tokenRecords == old(p.persona.tokenRecords)
  {
    var before := p.persona.tokenRecords;
    var r := p.RemoveClaim(validClaim);
    assert r == Fail(NotFound);
    r := p.AddClaim(validClaim);
    assert p.persona.tokenRecords == before + [validClaim];
    r := p.RemoveClaim(validClaim);
    assert r == Pass;
    assert IndexOf(before + [validClaim], validClaim) == |before|;
    assert (before + [validClaim])[..|before|] == before;
    assert validClaim !in p.persona.tokenRecords;
  }

  /** Replacing an attribute leaves one token of its name, however many there were; removing
      it then leaves none. */
  method ClientReplacesThenRemoves(p: MutablePersona, replacement: Attribute, privSignKey: PrivateKey)
    modifies p.persona
    ensures ClaimsNamed(p.persona.tokenRecords, replacement.name) == []
  {
    p.ReplaceAttribute(replacement, privSignKey);
    assert |ClaimsNamed(p.persona.tokenRecords, replacement.name)| == 1;
    p.RemoveAttribute(replacement.name);
  }
}
