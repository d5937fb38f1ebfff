/** The earlier revision of the mutable persona, lib/mutablePersona.js. It behaves as the
    local-first persona except in two places: removeClaim reports a missing token as a
    rejected promise rather than by throwing (both are `Fail(NotFound)` here) and, as
    written, truncates the tokens at the one it removes; removeAttribute saves afterwards. */
module StaleMutablePersona {
  import opened Claims
  import opened ClaimStore
  import ReadWritePersona

  class MutablePersona {
    /** The inherited state: address, registry address, key derivation and tokens. */
    const persona: ReadWritePersona.Persona

    constructor (proxyAddress: Address, registryAddress: Option<Address>, derive: KeyDerivation)
      ensures fresh(persona)
      ensures persona.address == proxyAddress && persona.derive == derive
      ensures persona.tokenRecords == []
      ensures persona.registryAddress ==
        if registryAddress.Some? && registryAddress.value != "" then registryAddress.value else DefaultRegistryAddress
    {
      persona := new ReadWritePersona.Persona(proxyAddress, registryAddress, derive);
    }

    /** Throws on an invalid token without change; otherwise appends it. */
    method AddClaim(token: Token) returns (r: Outcome)
      modifies persona
      ensures r == if IsTokenValid(token) then Pass else Fail(InvalidClaim)
      ensures persona.tokenRecords ==
        if IsTokenValid(token) then old(persona.tokenRecords) + [token] else old(persona.tokenRecords)
    {
      if !IsTokenValid(token) {
        return Fail(InvalidClaim);
      }
      persona.tokenRecords := persona.tokenRecords + [token];
      r := Pass;
    }

    /** Adds the tokens in order and stops at the first invalid one, keeping the earlier. */
    method AddClaims(tokensList: seq<Token>) returns (r: Outcome)
      modifies persona
      ensures var k := FirstInvalid(tokensList);
        && persona.tokenRecords == old(persona.tokenRecords) + tokensList[..k]
        && r == if k < |tokensList| then Fail(InvalidClaim) else Pass
    {
      var i := 0;
      while i < |tokensList|
        invariant 0 <= i <= |tokensList|
        invariant forall j :: 0 <= j < i ==> IsTokenValid(tokensList[j])
        invariant persona.tokenRecords == old(persona.tokenRecords) + tokensList[..i]
      {
        r := AddClaim(tokensList[i]);
        if r.Fail? {
          return;
        }
        assert tokensList[..i + 1] == tokensList[..i] + [tokensList[i]];
        i := i + 1;
      }
      assert tokensList[..i] == tokensList;
      r := Pass;
    }

    /** A missing token is rejected without change. A held one is removed by `splice(idx)`
        as written: the tokens are cut at its first occurrence, so it and every token after
        it are gone. */
    method RemoveClaim(token: Token) returns (r: Outcome)
      modifies persona
      ensures r == if token in old(persona.tokenRecords) then Pass else Fail(NotFound)
      ensures token !in old(persona.tokenRecords) ==> persona.tokenRecords == old(persona.tokenRecords)
      ensures token in old(persona.tokenRecords) ==>
        && persona.tokenRecords == SpliceFrom(old(persona.tokenRecords), IndexOf(old(persona.tokenRecords), token))
        && token !in persona.tokenRecords
    {
      var idx := IndexOf(persona.tokenRecords, token);
      if idx == -1 {
        return Fail(NotFound);
      }
      persona.tokenRecords := SpliceFrom(persona.tokenRecords, idx);
      r := Pass;
    }

    /** Signs the attribute with this persona's address as issuer and appends it. */
    method AddAttribute(attribute: Attribute, privSignKey: PrivateKey)
      modifies persona
      ensures persona.tokenRecords == old(persona.tokenRecords)
        + [SignAttribute(persona.derive, persona.address, attribute, privSignKey, Some(persona.address))]
    {
      var token := SignAttribute(persona.derive, persona.address, attribute, privSignKey, Some(persona.address));
      var r := AddClaim(token);
    }

    /** Filters out every token about the attribute's name, then appends the new
        self-signed one, which is then the only token of that name. */
    method ReplaceAttribute(attribute: Attribute, privSignKey: PrivateKey)
      modifies persona
      ensures persona.tokenRecords == WithoutName(old(persona.tokenRecords), attribute.name)
        + [SignAttribute(persona.derive, persona.address, attribute, privSignKey, Some(persona.address))]
      ensures ClaimsNamed(persona.tokenRecords, attribute.name) == [persona.tokenRecords[|persona.tokenRecords| - 1]]
    {
      var token := SignAttribute(persona.derive, persona.address, attribute, privSignKey, Some(persona.address));
      ReplacedNameClaims(persona.tokenRecords, token);
      persona.tokenRecords := WithoutName(persona.tokenRecords, attribute.name);
      AddAttribute(attribute, privSignKey);
    }

    /** Filters out every token about `attributeName`, then saves; the save does not
        change the tokens and its outcome is returned. */
    method RemoveAttribute(attributeName: Name, saved: Outcome) returns (r: Outcome)
      modifies persona
      ensures r == saved
      ensures persona.tokenRecords == WithoutName(old(persona.tokenRecords), attributeName)
      ensures ClaimsNamed(persona.tokenRecords, attributeName) == []
    {
      WithoutNameKeepsOthers(persona.tokenRecords, attributeName, attributeName);
      persona.tokenRecords := WithoutName(persona.tokenRecords, attributeName);
      r := saved;
    }
  }
}
