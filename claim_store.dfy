/** The ordered collection of claim tokens a persona holds (`tokenRecords`), as values:
    filtering by attribute name, the profile projection, and locating and removing one
    token. The persona classes keep a `seq<Token>` field and reassign it with these. */
module ClaimStore {
  import opened Claims

  /** The tokens whose claim is about `name`, in their original order (getClaims). */
  function ClaimsNamed(ts: seq<Token>, name: Name): (r: seq<Token>)
    ensures |r| <= |ts|
    ensures forall t :: t in r <==> t in ts && t.name == name
  {
    if ts == [] then []
    else (if ts[0].name == name then [ts[0]] else []) + ClaimsNamed(ts[1..], name)
  }

  /** The tokens whose claim is about any other name, in their original order. */
  function WithoutName(ts: seq<Token>, name: Name): (r: seq<Token>)
    ensures |r| <= |ts|
    ensures forall t :: t in r <==> t in ts && t.name != name
  {
    if ts == [] then []
    else (if ts[0].name != name then [ts[0]] else []) + WithoutName(ts[1..], name)
  }

  /** The set of attribute names the tokens carry. */
  function NamesOf(ts: seq<Token>): set<Name> {
    set t | t in ts :: t.name
  }

  /** A name no token carries has no claims. */
  lemma {:induction false} NoClaimsOfAbsentName(ts: seq<Token>, name: Name)
    requires forall t :: t in ts ==> t.name != name
    ensures ClaimsNamed(ts, name) == []
  {
    if ts != [] {
      assert ts[0] in ts;
      NoClaimsOfAbsentName(ts[1..], name);
    }
  }

  /** Filtering distributes over concatenation: it keeps the order of what it keeps. */
  lemma {:induction false} ClaimsNamedConcat(a: seq<Token>, b: seq<Token>, name: Name)
    ensures ClaimsNamed(a + b, name) == ClaimsNamed(a, name) + ClaimsNamed(b, name)
  {
    if a != [] {
      assert (a + b)[1..] == a[1..] + b;
      ClaimsNamedConcat(a[1..], b, name);
    } else {
      assert a + b == b;
    }
  }

  lemma {:induction false} WithoutNameConcat(a: seq<Token>, b: seq<Token>, name: Name)
    ensures WithoutName(a + b, name) == WithoutName(a, name) + WithoutName(b, name)
  {
    if a != [] {
      assert (a + b)[1..] == a[1..] + b;
      WithoutNameConcat(a[1..], b, name);
    } else {
      assert a + b == b;
    }
  }

  /** Appending one token adds it after the claims of its own name and leaves every other
      name's claims as they were. */
  lemma AppendOne(ts: seq<Token>, t: Token)
    ensures ClaimsNamed(ts + [t], t.name) == ClaimsNamed(ts, t.name) + [t]
    ensures forall name :: name != t.name ==> ClaimsNamed(ts + [t], name) == ClaimsNamed(ts, name)
  {
    forall name
      ensures ClaimsNamed(ts + [t], name) == ClaimsNamed(ts, name) + (if t.name == name then [t] else [])
    {
      ClaimsNamedConcat(ts, [t], name);
      assert ClaimsNamed([t], name) == if t.name == name then [t] else [];
    }
  }

  /** Appending a sequence adds, for every name, that sequence's claims of the name. */
  lemma AppendMany(ts: seq<Token>, us: seq<Token>)
    ensures forall name :: ClaimsNamed(ts + us, name) == ClaimsNamed(ts, name) + ClaimsNamed(us, name)
  {
    forall name {
      ClaimsNamedConcat(ts, us, name);
    }
  }

  /** Removing a name leaves no claim of it, and the claims of every other name exactly
      as they were, in order. */
  lemma {:induction false} WithoutNameKeepsOthers(ts: seq<Token>, name: Name, other: Name)
    ensures ClaimsNamed(WithoutName(ts, name), name) == []
    ensures other != name ==> ClaimsNamed(WithoutName(ts, name), other) == ClaimsNamed(ts, other)
  {
    if ts != [] {
      WithoutNameKeepsOthers(ts[1..], name, other);
      var head := if ts[0].name != name then [ts[0]] else [];
      ClaimsNamedConcat(head, WithoutName(ts[1..], name), name);
      ClaimsNamedConcat(head, WithoutName(ts[1..], name), other);
    }
  }

  /** Filtering by a name and by its complement splits the tokens. */
  lemma {:induction false} FilterPartition(ts: seq<Token>, name: Name)
    ensures |ClaimsNamed(ts, name)| + |WithoutName(ts, name)| == |ts|
    ensures multiset(ClaimsNamed(ts, name)) + multiset(WithoutName(ts, name)) == multiset(ts)
  {
    if ts != [] {
      FilterPartition(ts[1..], name);
      assert ts == [ts[0]] + ts[1..];
    }
  }

  /** Removing a name that no token carries changes nothing, and removing it twice is the
      same as removing it once. */
  lemma {:induction false} WithoutNameAbsent(ts: seq<Token>, name: Name)
    requires ClaimsNamed(ts, name) == []
    ensures WithoutName(ts, name) == ts
  {
    if ts != [] {
      assert ts[0] in ts;
      assert ClaimsNamed(ts, name) == ClaimsNamed(ts[1..], name);
      WithoutNameAbsent(ts[1..], name);
      assert ts == [ts[0]] + ts[1..];
    }
  }

  lemma WithoutNameIdempotent(ts: seq<Token>, name: Name)
    ensures WithoutName(WithoutName(ts, name), name) == WithoutName(ts, name)
  {
    WithoutNameKeepsOthers(ts, name, name);
    WithoutNameAbsent(WithoutName(ts, name), name);
  }

  /** The first claim of a name is the earliest token in the sequence that carries it. */
  lemma {:induction false} FirstClaimIsEarliest(ts: seq<Token>, name: Name)
    requires ClaimsNamed(ts, name) != []
    ensures exists i :: (0 <= i < |ts| && ts[i] == ClaimsNamed(ts, name)[0]
      && ts[i].name == name && forall j :: 0 <= j < i ==> ts[j].name != name)
  {
    if ts[0].name != name {
      FirstClaimIsEarliest(ts[1..], name);
      var i :| 0 <= i < |ts[1..]| && ts[1..][i] == ClaimsNamed(ts[1..], name)[0]
        && ts[1..][i].name == name && forall j :: 0 <= j < i ==> ts[1..][j].name != name;
      assert ts[i + 1] == ClaimsNamed(ts, name)[0];
      forall j | 0 <= j < i + 1 ensures ts[j].name != name {
        if j > 0 { assert ts[j] == ts[1..][j - 1]; }
      }
    }
  }

  /** The value of the first token named `name`, as getClaims(name)[0] reads it; an
      absent name is an AttributeNotFound error. */
  function FirstValue(ts: seq<Token>, name: Name): (r: Result<Value>)
    ensures r.Failure? <==> forall t :: t in ts ==> t.name != name
    ensures r.Failure? ==> r.error == AttributeNotFound(name)
    ensures r.Success? ==> exists i :: (0 <= i < |ts| && ts[i].name == name
      && ts[i].value == r.value && forall j :: 0 <= j < i ==> ts[j].name != name)
  {
    var claims := ClaimsNamed(ts, name);
    if claims == [] then Failure(AttributeNotFound(name))
    else
      FirstClaimIsEarliest(ts, name);
      Success(claims[0].value)
  }

  // ---------------------------------------------------------------------------------
  // The profile view

  /** Folds tokens left to right into `profile`: each token's claim is merged in, so a
      later token overwrites an earlier one of the same name. */
  function Fold(profile: map<Name, Value>, ts: seq<Token>): (r: map<Name, Value>)
    ensures r.Keys == profile.Keys + NamesOf(ts)
    decreases ts
  {
    if ts == [] then profile
    else
      assert NamesOf(ts) == {ts[0].name} + NamesOf(ts[1..]) by {
        assert forall t :: t in ts <==> t == ts[0] || t in ts[1..];
      }
      Fold(profile[ts[0].name := ts[0].value], ts[1..])
  }

  /** The flat profile of a sequence of tokens, without verification. */
  function ProfileOf(ts: seq<Token>): map<Name, Value> {
    Fold(map[], ts)
  }

  /** Folding tokens none of which carries `name` leaves that entry as it was. */
  lemma {:induction false} FoldKeepsUntouched(profile: map<Name, Value>, ts: seq<Token>, name: Name)
    requires name in profile
    requires forall t :: t in ts ==> t.name != name
    ensures Fold(profile, ts)[name] == profile[name]
    decreases ts
  {
    if ts != [] {
      assert ts[0] in ts;
      FoldKeepsUntouched(profile[ts[0].name := ts[0].value], ts[1..], name);
    }
  }

  /** Later tokens win: the profile holds, for each name, the value of the last token
      that carries it. */
  lemma {:induction false} LastTokenWins(profile: map<Name, Value>, ts: seq<Token>, i: nat)
    requires i < |ts|
    requires forall j :: i < j < |ts| ==> ts[j].name != ts[i].name
    ensures Fold(profile, ts)[ts[i].name] == ts[i].value
    decreases ts
  {
    var next := profile[ts[0].name := ts[0].value];
    if i == 0 {
      TailAvoidsName(ts, ts[0].name);
      FoldKeepsUntouched(next, ts[1..], ts[0].name);
    } else {
      LastTokenWins(next, ts[1..], i - 1);
    }
  }

  /** The tokens after the first avoid a name when every later position does. */
  lemma TailAvoidsName(ts: seq<Token>, name: Name)
    requires ts != []
    requires forall j :: 0 < j < |ts| ==> ts[j].name != name
    ensures forall t :: t in ts[1..] ==> t.name != name
  {
  }

  /** The profile entry of a name is the value of its last claim; a name with no claim
      keeps the entry it had before the fold. */
  lemma {:induction false} FoldIsLastClaim(profile: map<Name, Value>, ts: seq<Token>, name: Name)
    ensures ClaimsNamed(ts, name) != [] ==>
      var claims := ClaimsNamed(ts, name);
      name in Fold(profile, ts) && Fold(profile, ts)[name] == claims[|claims| - 1].value
    ensures ClaimsNamed(ts, name) == [] ==>
      (name in Fold(profile, ts) <==> name in profile)
      && (name in profile ==> Fold(profile, ts)[name] == profile[name])
    decreases ts
  {
    if ts != [] {
      var next := profile[ts[0].name := ts[0].value];
      FoldIsLastClaim(next, ts[1..], name);
      assert ts[0] in ts;
    }
  }

  /** The profile depends on the tokens only through each name's claims: two sequences
      with the same claims of a name agree on that name's profile entry. */
  lemma ProfileDeterminedByClaims(ts: seq<Token>, us: seq<Token>, name: Name)
    requires ClaimsNamed(ts, name) == ClaimsNamed(us, name)
    ensures name in ProfileOf(ts) <==> name in ProfileOf(us)
    ensures name in ProfileOf(ts) ==> ProfileOf(ts)[name] == ProfileOf(us)[name]
  {
    FoldIsLastClaim(map[], ts, name);
    FoldIsLastClaim(map[], us, name);
  }

  /** Adding a token sets its name's profile entry to its value (later tokens win). */
  lemma AddedClaimWins(ts: seq<Token>, t: Token)
    ensures ProfileOf(ts + [t]) == ProfileOf(ts)[t.name := t.value]
  {
    var after, before := ProfileOf(ts + [t]), ProfileOf(ts)[t.name := t.value];
    forall name
      ensures name in after <==> name in before
      ensures name in after ==> after[name] == before[name]
    {
      if name == t.name {
        AppendOne(ts, t);
        FoldIsLastClaim(map[], ts + [t], name);
      } else {
        AppendOne(ts, t);
        ProfileDeterminedByClaims(ts + [t], ts, name);
      }
    }
  }

  /** Removing a name removes exactly that entry from the profile. */
  lemma RemovedNameLeavesProfile(ts: seq<Token>, name: Name)
    ensures ProfileOf(WithoutName(ts, name)) == ProfileOf(ts) - {name}
  {
    var after, before := ProfileOf(WithoutName(ts, name)), ProfileOf(ts) - {name};
    forall other
      ensures other in after <==> other in before
      ensures other in after ==> after[other] == before[other]
    {
      WithoutNameKeepsOthers(ts, name, other);
      if other == name {
        FoldIsLastClaim(map[], WithoutName(ts, name), name);
      } else {
        ProfileDeterminedByClaims(WithoutName(ts, name), ts, other);
      }
    }
  }

  /** Replacing a name by one token leaves that token as the name's only claim and every
      other name's claims as they were. */
  lemma ReplacedNameClaims(ts: seq<Token>, t: Token)
    ensures ClaimsNamed(WithoutName(ts, t.name) + [t], t.name) == [t]
    ensures forall name :: name != t.name ==>
      ClaimsNamed(WithoutName(ts, t.name) + [t], name) == ClaimsNamed(ts, name)
  {
    AppendOne(WithoutName(ts, t.name), t);
    forall name {
      WithoutNameKeepsOthers(ts, t.name, name);
    }
  }

  /** Replacing a name by one token sets that name's profile entry and nothing else. */
  lemma ReplacedNameInProfile(ts: seq<Token>, t: Token)
    ensures ProfileOf(WithoutName(ts, t.name) + [t]) == ProfileOf(ts)[t.name := t.value]
  {
    RemovedNameLeavesProfile(ts, t.name);
    AddedClaimWins(WithoutName(ts, t.name), t);
    var p := ProfileOf(ts);
    assert (p - {t.name})[t.name := t.value] == p[t.name := t.value];
  }

  /** Projection: fails, naming the first token that does not verify, or is the profile. */
  function Project(ts: seq<Token>): (r: Result<map<Name, Value>>)
    ensures r.Success? <==> forall t :: t in ts ==> IsTokenValid(t)
    ensures r.Failure? ==> r.error.ProjectionFailed? && r.error.token in ts && !IsTokenValid(r.error.token)
    ensures r.Success? ==> r.value == ProfileOf(ts) && r.value.Keys == NamesOf(ts)
    ensures r.Failure? ==> r.error == ProjectionFailed(ts[FirstInvalid(ts)])
  {
    var k := FirstInvalid(ts);
    if k < |ts| then Failure(ProjectionFailed(ts[k])) else Success(ProfileOf(ts))
  }

  /** The position of the first token that does not verify, or the length when all do. */
  function FirstInvalid(ts: seq<Token>): (k: nat)
    ensures k <= |ts|
    ensures forall i :: 0 <= i < k ==> IsTokenValid(ts[i])
    ensures k < |ts| ==> !IsTokenValid(ts[k])
  {
    if ts == [] || !IsTokenValid(ts[0]) then 0 else 1 + FirstInvalid(ts[1..])
  }

  // ---------------------------------------------------------------------------------
  // Locating and removing one token

  /** Array indexOf: the first position of `t`, or -1 when it is not held. */
  function IndexOf(ts: seq<Token>, t: Token): (idx: int)
    ensures -1 <= idx < |ts|
    ensures idx == -1 <==> t !in ts
    ensures idx != -1 ==> ts[idx] == t && t !in ts[..idx]
  {
    if ts == [] then -1
    else if ts[0] == t then 0
    else
      var rest := IndexOf(ts[1..], t);
      assert ts == [ts[0]] + ts[1..];
      if rest == -1 then -1
      else
        assert ts[..rest + 1] == [ts[0]] + ts[1..][..rest];
        rest + 1
  }

  /** `splice(idx)` with no count: truncates the array at `idx`. */
  function SpliceFrom(ts: seq<Token>, idx: nat): (r: seq<Token>)
    requires idx < |ts|
    ensures |r| == idx && r <= ts
  {
    ts[..idx]
  }

  /** Removes exactly the token at `idx`, keeping everything before and after it in order. */
  function RemoveAt(ts: seq<Token>, idx: nat): (r: seq<Token>)
    requires idx < |ts|
    ensures |r| == |ts| - 1
    ensures r[..idx] == ts[..idx] && r[idx..] == ts[idx + 1..]
    ensures multiset(r) == multiset(ts) - multiset{ts[idx]}
  {
    assert ts == ts[..idx] + [ts[idx]] + ts[idx + 1..];
    ts[..idx] + ts[idx + 1..]
  }

  /** Truncating at the found token loses every token held after it: with `b` behind `a`,
      removing `a` by `splice(idx)` removes `b` too, while RemoveAt keeps it. */
  lemma SpliceDropsFollowingClaims(a: Token, b: Token)
    requires a != b
    ensures IndexOf([a, b], a) == 0
    ensures SpliceFrom([a, b], 0) == [] && b !in SpliceFrom([a, b], 0)
    ensures RemoveAt([a, b], 0) == [b]
  {
  }

  /** For every input: a token held only after the first occurrence of the one removed by
      `splice(idx)` is no longer held, while RemoveAt keeps it. */
  lemma SpliceLosesLaterTokens(ts: seq<Token>, t: Token, u: Token)
    requires t in ts
    requires u in ts[IndexOf(ts, t) + 1..] && u !in ts[..IndexOf(ts, t)]
    ensures u !in SpliceFrom(ts, IndexOf(ts, t))
    ensures u in RemoveAt(ts, IndexOf(ts, t))
  {
  }
}
