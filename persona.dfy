/** The read-write persona of lib/persona.js: a persona address, the registry it is kept
    in, and its claim tokens. Every change is made to the local tokens first and then
    written to the registry; the registry call is not modelled, its outcome is a parameter
    (`saved`) that the operation returns without touching the tokens again. */
module ReadWritePersona {
  import opened Claims
  import opened ClaimStore

  /** The records setProfile installs: one self-signed token per attribute of the profile,
      in the profile's key order, then the self-signed `pubSignKey` trust anchor. */
  function ProfileRecords(
    derive: KeyDerivation, address: Address,
    profile: seq<Attribute>, privSignKey: PrivateKey): (recs: seq<Token>)
    ensures |recs| == |profile| + 1
    ensures forall t :: t in recs ==>
      IsTokenValid(t) && t.subject == address && t.issuerId == Some(address) && t.issuerKey == derive(privSignKey)
    ensures forall i :: 0 <= i < |profile| ==> recs[i].name == profile[i].name && recs[i].value == profile[i].value
    ensures recs[|profile|].name == PubSignKey && recs[|profile|].value == derive(privSignKey)
  {
    SignAttributes(derive, address, profile, privSignKey, Some(address))
    + [SignAttribute(derive, address, Attribute(PubSignKey, derive(privSignKey)), privSignKey, Some(address))]
  }

  /** Signing an object's attributes gives, for each of its names, exactly one token. */
  lemma {:induction false} SignedClaimsOfName(
    derive: KeyDerivation, subject: Address,
    attributes: seq<Attribute>, privSignKey: PrivateKey, issuerId: Option<Address>, i: nat)
    requires DistinctNames(attributes) && i < |attributes|
    ensures var ts := SignAttributes(derive, subject, attributes, privSignKey, issuerId);
      ClaimsNamed(ts, attributes[i].name) == [ts[i]]
  {
    var ts := SignAttributes(derive, subject, attributes, privSignKey, issuerId);
    var rest := SignAttributes(derive, subject, attributes[1..], privSignKey, issuerId);
    assert ts == [ts[0]] + rest;
    assert ts[1..] == rest;
    if i == 0 {
      forall t | t in rest ensures t.name != attributes[0].name {
        var j :| 0 <= j < |rest| && rest[j] == t;
        assert attributes[1..][j] == attributes[j + 1];
      }
      NoClaimsOfAbsentName(rest, attributes[0].name);
    } else {
      SignedClaimsOfName(derive, subject, attributes[1..], privSignKey, issuerId, i - 1);
      assert attributes[1..][i - 1] == attributes[i];
    }
  }

  /** After setProfile(P, k): every attribute of P has exactly one token, and the records
      end with the single `pubSignKey` token whose value is the key derived from k. */
  lemma ProfileRecordsOnePerName(
    derive: KeyDerivation, address: Address, profile: seq<Attribute>, privSignKey: PrivateKey)
    requires DistinctNames(profile)
    ensures var recs := ProfileRecords(derive, address, profile, privSignKey);
      && |recs| == |profile| + 1
      && (forall i :: 0 <= i < |profile| && profile[i].name != PubSignKey ==>
            ClaimsNamed(recs, profile[i].name) == [recs[i]] && recs[i].value == profile[i].value)
      && (PubSignKey !in AttributeNames(profile) ==>
            ClaimsNamed(recs, PubSignKey) == [recs[|profile|]])
      && recs[|profile|].name == PubSignKey && recs[|profile|].value == derive(privSignKey)
  {
    var signed := SignAttributes(derive, address, profile, privSignKey, Some(address));
    var anchor := SignAttribute(derive, address, Attribute(PubSignKey, derive(privSignKey)), privSignKey, Some(address));
    AppendOne(signed, anchor);
    forall i | 0 <= i < |profile| && profile[i].name != PubSignKey
      ensures ClaimsNamed(signed + [anchor], profile[i].name) == [signed[i]]
    {
      SignedClaimsOfName(derive, address, profile, privSignKey, Some(address), i);
    }
    if PubSignKey !in AttributeNames(profile) {
      forall t | t in signed ensures t.name != PubSignKey {
        var j :| 0 <= j < |signed| && signed[j] == t;
        assert profile[j] in profile;
      }
      NoClaimsOfAbsentName(signed, PubSignKey);
    }
  }

  /** The round trip of the profile: projecting the records of setProfile(P, k) succeeds;
      without the reserved names it gives back P, and `pubSignKey` is the derived key. */
  lemma SetProfileRoundTrip(
    derive: KeyDerivation, address: Address, profile: seq<Attribute>, privSignKey: PrivateKey)
    requires DistinctNames(profile)
    ensures var recs := ProfileRecords(derive, address, profile, privSignKey);
      && Project(recs) == Success(ProfileOf(recs))
      && (ProfileOf(recs) - {PubSignKey, PubEncKey}).Keys == AttributeNames(profile) - {PubSignKey, PubEncKey}
      && (forall i :: 0 <= i < |profile| && profile[i].name != PubSignKey ==>
            ProfileOf(recs)[profile[i].name] == profile[i].value)
      && ProfileOf(recs)[PubSignKey] == derive(privSignKey)
  {
    var recs := ProfileRecords(derive, address, profile, privSignKey);
    assert FirstInvalid(recs) == |recs|;
    ProfileRecordsNames(derive, address, profile, privSignKey);
    LastTokenWins(map[], recs, |profile|);
    ProfileRecordsValues(derive, address, profile, privSignKey);
  }

  /** Every attribute of the profile other than `pubSignKey` keeps its value in the
      projection of setProfile's records. */
  lemma ProfileRecordsValues(
    derive: KeyDerivation, address: Address, profile: seq<Attribute>, privSignKey: PrivateKey)
    requires DistinctNames(profile)
    ensures var recs := ProfileRecords(derive, address, profile, privSignKey);
      forall i :: 0 <= i < |profile| && profile[i].name != PubSignKey ==>
        ProfileOf(recs)[profile[i].name] == profile[i].value
  {
    var recs := ProfileRecords(derive, address, profile, privSignKey);
    forall i | 0 <= i < |profile| && profile[i].name != PubSignKey
      ensures ProfileOf(recs)[profile[i].name] == profile[i].value
    {
      LastTokenWins(map[], recs, i);
    }
  }

  /** The names setProfile's records carry: the profile's, and `pubSignKey`. */
  lemma ProfileRecordsNames(
    derive: KeyDerivation, address: Address, profile: seq<Attribute>, privSignKey: PrivateKey)
    ensures NamesOf(ProfileRecords(derive, address, profile, privSignKey)) == AttributeNames(profile) + {PubSignKey}
  {
    var recs := ProfileRecords(derive, address, profile, privSignKey);
    forall n | n in AttributeNames(profile) ensures n in NamesOf(recs) {
      var a :| a in profile && a.name == n;
      var j :| 0 <= j < |profile| && profile[j] == a;
      assert recs[j] in recs;
    }
    assert recs[|profile|] in recs;
    forall n | n in NamesOf(recs) ensures n in AttributeNames(profile) + {PubSignKey} {
      var t :| t in recs && t.name == n;
      var j :| 0 <= j < |recs| && recs[j] == t;
      if j < |profile| { assert profile[j] in profile; }
    }
  }

  /** signMultipleAttributes as written: it calls `signAttribute` unqualified, a name that
      is not in scope, so it fails on the first attribute. */
  function SignMultipleAttributesAsWritten(attributes: seq<Attribute>): (r: Result<seq<Token>>)
    ensures r.Success? <==> attributes == []
  {
    if attributes == [] then Success([]) else Failure(UnboundName("signAttribute"))
  }

  /** Any non-empty list shows the defect: as written no token is produced, while signing
      each attribute independently yields one valid token per attribute. */
  lemma SignMultipleAttributesFails(
    derive: KeyDerivation, subject: Address,
    attributes: seq<Attribute>, privSignKey: PrivateKey, issuerId: Option<Address>)
    requires attributes != []
    ensures SignMultipleAttributesAsWritten(attributes).Failure?
    ensures |SignAttributes(derive, subject, attributes, privSignKey, issuerId)| == |attributes| > 0
  {
  }

  class Persona {
    const address: Address
    const registryAddress: Address
    /** The elliptic-curve derivation behind `Persona.privateKeyToPublicKey`. */
    const derive: KeyDerivation
    var tokenRecords: seq<Token>

    /** A new persona holds no tokens; a missing or empty registry address selects the
        default registry. */
    constructor (proxyAddress: Address, registryAddress: Option<Address>, derive: KeyDerivation)
      ensures address == proxyAddress && this.derive == derive
      ensures tokenRecords == []
      ensures registryAddress.Some? && registryAddress.value != "" ==>
        this.registryAddress == registryAddress.value
      ensures registryAddress.None? || registryAddress.value == "" ==>
        this.registryAddress == DefaultRegistryAddress
    {
      address := proxyAddress;
      tokenRecords := [];
      if registryAddress.Some? && registryAddress.value != "" {
        this.registryAddress := registryAddress.value;
      } else {
        this.registryAddress := DefaultRegistryAddress;
      }
      this.derive := derive;
    }

    /** Installs the tokens the registry returned; on a failed fetch nothing changes. */
    method Load(fetched: Result<seq<Token>>) returns (r: Result<seq<Token>>)
      modifies this
      ensures r == fetched
      ensures tokenRecords == if fetched.Success? then fetched.value else old(tokenRecords)
    {
      if fetched.Success? {
        tokenRecords := fetched.value;
      }
      r := fetched;
    }

    /** Discards every prior token and installs the records of the profile. */
    method SetProfile(profile: seq<Attribute>, privSignKey: PrivateKey, saved: Outcome) returns (r: Outcome)
      modifies this
      ensures tokenRecords == ProfileRecords(derive, address, profile, privSignKey)
      ensures forall t :: t in tokenRecords ==> IsTokenValid(t) && t.issuerKey == derive(privSignKey)
      ensures r == saved
    {
      tokenRecords := SignAttributes(derive, address, profile, privSignKey, Some(address));
      var pubSignKey := derive(privSignKey);
      tokenRecords := tokenRecords
        + [SignAttribute(derive, address, Attribute(PubSignKey, pubSignKey), privSignKey, Some(address))];
      r := saved;
    }

    /** Verifies the tokens in order and merges each claim into the profile; the first token
        that fails verification aborts the whole projection. */
    method GetProfile() returns (r: Result<map<Name, Value>>)
      ensures r == Project(tokenRecords)
    {
      var profile: map<Name, Value> := map[];
      var i := 0;
      while i < |tokenRecords|
        invariant 0 <= i <= |tokenRecords|
        invariant forall j :: 0 <= j < i ==> IsTokenValid(tokenRecords[j])
        invariant Fold(profile, tokenRecords[i..]) == ProfileOf(tokenRecords)
      {
        var token := tokenRecords[i];
        if !IsTokenValid(token) {
          return Failure(ProjectionFailed(token));
        }
        assert tokenRecords[i..][1..] == tokenRecords[i + 1..];
        profile := profile[token.name := token.value];
        i := i + 1;
      }
      r := Success(profile);
    }

    /** The value of the first `pubSignKey` token; none is an AttributeNotFound error. */
    function GetPublicSigningKey(): (r: Result<PublicKey>)
      reads this
      ensures r.Failure? <==> forall t :: t in tokenRecords ==> t.name != PubSignKey
      ensures r.Success? ==> exists i :: (0 <= i < |tokenRecords| && tokenRecords[i].name == PubSignKey
        && tokenRecords[i].value == r.value && forall j :: 0 <= j < i ==> tokenRecords[j].name != PubSignKey)
    {
      FirstValue(tokenRecords, PubSignKey)
    }

    /** The value of the first `pubEncKey` token; none is an AttributeNotFound error. */
    function GetPublicEncryptionKey(): (r: Result<PublicKey>)
      reads this
      ensures r.Failure? <==> forall t :: t in tokenRecords ==> t.name != PubEncKey
      ensures r.Success? ==> exists i :: (0 <= i < |tokenRecords| && tokenRecords[i].name == PubEncKey
        && tokenRecords[i].value == r.value && forall j :: 0 <= j < i ==> tokenRecords[j].name != PubEncKey)
    {
      FirstValue(tokenRecords, PubEncKey)
    }

    /** All held tokens, unfiltered and in order. */
    function GetAllClaims(): (r: seq<Token>)
      reads this
      ensures r == tokenRecords
    {
      tokenRecords
    }

    /** The held tokens about `attributeName`, in order; none for an absent name. */
    function GetClaims(attributeName: Name): (r: seq<Token>)
      reads this
      ensures forall t :: t in r <==> t in tokenRecords && t.name == attributeName
      ensures |r| + |WithoutName(tokenRecords, attributeName)| == |tokenRecords|
    {
      FilterPartition(tokenRecords, attributeName);
      ClaimsNamed(tokenRecords, attributeName)
    }

    /** Rejects an invalid token without change; otherwise appends it and then saves. The
        append stays even when the save fails. */
    method AddClaim(token: Token, saved: Outcome) returns (r: Outcome)
      modifies this
      ensures r == if IsTokenValid(token) then saved else Fail(InvalidClaim)
      ensures tokenRecords == if IsTokenValid(token) then old(tokenRecords) + [token] else old(tokenRecords)
      ensures IsTokenValid(token) ==>
        ClaimsNamed(tokenRecords, token.name) == ClaimsNamed(old(tokenRecords), token.name) + [token]
      ensures forall name :: name != token.name ==>
        ClaimsNamed(tokenRecords, name) == ClaimsNamed(old(tokenRecords), name)
      ensures IsTokenValid(token) ==> ProfileOf(tokenRecords) == ProfileOf(old(tokenRecords))[token.name := token.value]
    {
      if !IsTokenValid(token) {
        r := Fail(InvalidClaim);
      } else {
        AppendOne(tokenRecords, token);
        AddedClaimWins(tokenRecords, token);
        tokenRecords := tokenRecords + [token];
        r := saved;
      }
    }

    /** Signs the attribute as this persona and adds it: a self-signed token is never
        rejected, so the only possible failure is the save's. */
    method AddAttribute(attribute: Attribute, privSignKey: PrivateKey, saved: Outcome) returns (r: Outcome)
      modifies this
      ensures r == saved
      ensures tokenRecords == old(tokenRecords)
        + [SignAttribute(derive, address, attribute, privSignKey, Some(address))]
      ensures |ClaimsNamed(tokenRecords, attribute.name)| == |ClaimsNamed(old(tokenRecords), attribute.name)| + 1
      ensures forall name :: name != attribute.name ==>
        ClaimsNamed(tokenRecords, name) == ClaimsNamed(old(tokenRecords), name)
      ensures ProfileOf(tokenRecords) == ProfileOf(old(tokenRecords))[attribute.name := attribute.value]
    {
      var token := SignAttribute(derive, address, attribute, privSignKey, Some(address));
      r := AddClaim(token, saved);
    }

    /** Drops every token about the attribute's name, then adds the new self-signed one:
        exactly one token of that name survives, last; other names keep their tokens. */
    method ReplaceAttribute(attribute: Attribute, privSignKey: PrivateKey, saved: Outcome) returns (r: Outcome)
      modifies this
      ensures r == saved
      ensures tokenRecords == WithoutName(old(tokenRecords), attribute.name)
        + [SignAttribute(derive, address, attribute, privSignKey, Some(address))]
      ensures ClaimsNamed(tokenRecords, attribute.name) == [tokenRecords[|tokenRecords| - 1]]
      ensures tokenRecords[|tokenRecords| - 1].value == attribute.value
      ensures forall name :: name != attribute.name ==>
        ClaimsNamed(tokenRecords, name) == ClaimsNamed(old(tokenRecords), name)
      ensures ProfileOf(tokenRecords) == ProfileOf(old(tokenRecords))[attribute.name := attribute.value]
    {
      var token := SignAttribute(derive, address, attribute, privSignKey, Some(address));
      ReplacedNameClaims(tokenRecords, token);
      ReplacedNameInProfile(tokenRecords, token);
      tokenRecords := WithoutName(tokenRecords, attribute.name);
      r := AddAttribute(attribute, privSignKey, saved);
    }

    /** Drops every token about `attributeName` and saves; the others stay in order. */
    method DeleteAttribute(attributeName: Name, saved: Outcome) returns (r: Outcome)
      modifies this
      ensures r == saved
      ensures tokenRecords == WithoutName(old(tokenRecords), attributeName)
      ensures ClaimsNamed(tokenRecords, attributeName) == []
      ensures forall name :: name != attributeName ==>
        ClaimsNamed(tokenRecords, name) == ClaimsNamed(old(tokenRecords), name)
      ensures ProfileOf(tokenRecords) == ProfileOf(old(tokenRecords)) - {attributeName}
    {
      forall name {
        WithoutNameKeepsOthers(tokenRecords, attributeName, name);
      }
      RemovedNameLeavesProfile(tokenRecords, attributeName);
      tokenRecords := WithoutName(tokenRecords, attributeName);
      r := saved;
    }
  }
}
