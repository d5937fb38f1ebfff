# uport-persona: the claim collection of a persona, in Dafny

A persona is an identity anchored to an address. It holds an ordered sequence of signed
claim tokens (`tokenRecords`), each asserting one attribute `{name: value}` about the
persona and naming its issuer by public key and, for self-signed claims, by address. This
project models how that sequence is built and changed: appending a token after checking its
signature, filtering by attribute name, removing all tokens of a name, replacing a name by
one new self-signed token, removing one token, rebuilding everything from a profile with a
trailing `pubSignKey` trust anchor, and folding the tokens into a flat profile in which a
later token overwrites an earlier one.

Modules:

- `Claims` (claims.dfy): the token datatype, errors, the default registry address, the
  reserved names `pubSignKey`/`pubEncKey`, and signing (`signAttribute`).
- `ClaimStore` (claim_store.dfy): the pure operations over a `seq<Token>` that the classes
  reassign their field with (`getClaims`' filter and its complement, `indexOf`, `splice`,
  the profile fold), and the lemmas about them.
- `ReadWritePersona` (persona.dfy): class `Persona` of lib/persona.js. Every change is made
  locally, then the registry is written; the write's outcome is the parameter `saved`, which
  the operation returns without touching the tokens again.
- `LocalFirstPersona` (mutable_persona.dfy): class `MutablePersona` of src/mutablePersona.js,
  which changes the tokens in memory only. It holds the base class's state and queries as
  `persona` (composition in place of `extends`). `ClientReplacesAttestations` is a scenario
  modelled on test/mutablePersona.js, built from seven helper methods that each cover one or
  two steps of that test. It leaves out the test's profile attributes, and checks the token
  counts the test expects.
- `StaleMutablePersona` (stale_mutable_persona.dfy): the older class in
  lib/mutablePersona.js.

Signature verification is the token's `valid` field (`isTokenValid`). The public-key
derivation (`privateKeyToPublicKey`) is a function value `derive` that each persona is
constructed with; nothing depends on more than its being a function. A thrown error or a
rejected promise is a `Fail`/`Failure` value.

`removeClaim` in src/mutablePersona.js calls `splice(idx)` without a count, which cuts off
every token after the one removed. The local-first class removes exactly one token. The stale
class keeps the truncation as written. See "## Findings".

## Model

| member | source | states |
|---|---|---|
| `Claims.IsTokenValid` | lib/persona.js:144-152 | a token is accepted exactly when its signature verifies against the issuer key the token itself declares; the `valid` field stands for that check |
| `Claims.SignAttribute` | lib/persona.js:125-138 | the token is valid, carries the attribute, the key derived from the signing key as issuer key, the issuer address exactly when one is given, and the persona as subject |
| `Claims.SignAttributes` | lib/persona.js:48-53 | one valid token per attribute, in the attributes' order, each with that attribute's name and value and the same issuer |
| `ClaimStore.ClaimsNamed` | lib/persona.js:10 | the filtered tokens are exactly the held tokens whose claim has the given name |
| `ClaimStore.WithoutName` | lib/persona.js:12 | the kept tokens are exactly the held tokens whose claim has another name |
| `ClaimStore.NoClaimsOfAbsentName` | lib/persona.js:92-94 | a name no token carries has no claims (getClaims of an absent name is empty) |
| `ClaimStore.ClaimsNamedConcat` | lib/persona.js:92-94 | filtering distributes over concatenation, so it keeps the original order |
| `ClaimStore.WithoutNameConcat` | lib/persona.js:121 | removing a name distributes over concatenation, so the kept tokens stay in order |
| `ClaimStore.AppendOne` | lib/persona.js:101 | pushing a token appends it to its own name's claims and leaves every other name's claims unchanged |
| `ClaimStore.AppendMany` | src/mutablePersona.js:57-61 | appending a list adds, for every name, exactly the list's claims of that name after the old ones |
| `ClaimStore.WithoutNameKeepsOthers` | lib/persona.js:120-122 | after removing a name, no claim of it is left and every other name's claims are unchanged, in order |
| `ClaimStore.FilterPartition` | lib/persona.js:10-12 | the tokens matching a name and those not matching it together account for every token |
| `ClaimStore.WithoutNameAbsent` | lib/persona.js:120-122 | removing a name that no token carries changes nothing |
| `ClaimStore.WithoutNameIdempotent` | lib/persona.js:120-122 | removing a name twice is the same as removing it once |
| `ClaimStore.FirstClaimIsEarliest` | lib/persona.js:81 | the first claim of a name is the earliest held token with that name |
| `ClaimStore.FirstValue` | lib/persona.js:80-86 | fails with AttributeNotFound exactly when no token has the name; otherwise gives the value of the earliest token with it |
| `ClaimStore.Fold` | lib/persona.js:63-77 | the folded profile's names are the starting names plus every token's name |
| `ClaimStore.FoldKeepsUntouched` | lib/persona.js:74 | folding tokens of other names leaves a profile entry as it was |
| `ClaimStore.LastTokenWins` | lib/persona.js:65-76 | a token with no later token of the same name decides that name's profile value |
| `ClaimStore.FoldIsLastClaim` | lib/persona.js:65-76 | a name's profile entry is the value of its last claim, and a name without claims keeps its entry |
| `ClaimStore.ProfileDeterminedByClaims` | lib/persona.js:65-76 | two token sequences with the same claims of a name agree on that name's profile entry |
| `ClaimStore.AddedClaimWins` | lib/persona.js:96-107 | appending a token sets its name's profile entry to its value and changes nothing else |
| `ClaimStore.RemovedNameLeavesProfile` | lib/persona.js:120-122 | removing a name removes exactly that entry from the profile |
| `ClaimStore.ReplacedNameClaims` | lib/persona.js:114-118 | after removing a name and appending one token of it, that token is the name's only claim and every other name keeps its claims |
| `ClaimStore.ReplacedNameInProfile` | lib/persona.js:114-118 | replacing a name by one token sets that entry to the token's value and changes nothing else |
| `ClaimStore.Project` | lib/persona.js:60-78 | the projection succeeds exactly when every token verifies, and then it is the left fold of the tokens, whose names are the tokens' names; otherwise it fails naming the first token that does not verify |
| `ClaimStore.FirstInvalid` | src/mutablePersona.js:57-61 | every token before the position verifies, and the token at it, if any, does not |
| `ClaimStore.IndexOf` | src/mutablePersona.js:71 | -1 exactly when the token is not held; otherwise a position holding it with no earlier occurrence |
| `ClaimStore.SpliceFrom` | src/mutablePersona.js:75 | what `splice(idx)` leaves: a prefix of the tokens, exactly `idx` long, so nothing from the position on survives |
| `ClaimStore.RemoveAt` | src/mutablePersona.js:70-76 | one token fewer: the tokens before and after the position keep their order, and exactly one copy of the removed token is gone |
| `ClaimStore.SpliceDropsFollowingClaims` | src/mutablePersona.js:75 | with two tokens, removing the first by `splice(idx)` also loses the second, which removing one keeps |
| `ClaimStore.SpliceLosesLaterTokens` | src/mutablePersona.js:70-76 | for every token sequence: a token held only after the first occurrence of the removed one is no longer held after `splice(idx)`, while removing exactly one token keeps it |
| `ReadWritePersona.ProfileRecords` | lib/persona.js:47-57 | setProfile's records: one more than the profile's attributes, all verifying, about the persona, self-signed with its address and the derived key; the i-th carries the i-th attribute and the last is `pubSignKey` with the derived key |
| `ReadWritePersona.SignedClaimsOfName` | lib/persona.js:48-53 | signing an object's attributes gives exactly one token for each of its names |
| `ReadWritePersona.ProfileRecordsOnePerName` | lib/persona.js:47-57 | setProfile installs one token per profile name, then the one `pubSignKey` token holding the derived public key |
| `ReadWritePersona.SetProfileRoundTrip` | lib/persona.js:47-78 | projecting setProfile's records succeeds; without the reserved names it gives back the profile's names and values; `pubSignKey` is the derived key |
| `ReadWritePersona.ProfileRecordsNames` | lib/persona.js:47-57 | the names setProfile's records carry are the profile's names and `pubSignKey` |
| `ReadWritePersona.ProfileRecordsValues` | lib/persona.js:47-78 | every profile attribute other than `pubSignKey` keeps its value in the projection of setProfile's records |
| `ReadWritePersona.SignMultipleAttributesAsWritten` | lib/persona.js:140-142 | as written, it yields tokens only for an empty list |
| `ReadWritePersona.SignMultipleAttributesFails` | lib/persona.js:141 | for any non-empty list the written code fails, while signing each attribute gives one token per attribute |
| `ReadWritePersona.Persona.constructor` | lib/persona.js:15-23 | a new persona has no tokens; a missing or empty registry address selects the default one, any other is kept |
| `ReadWritePersona.Persona.Load` | lib/persona.js:38-45 | a successful fetch replaces the tokens by the fetched ones; a failed one leaves them unchanged and is passed on |
| `ReadWritePersona.Persona.SetProfile` | lib/persona.js:47-58 | all prior tokens are discarded for setProfile's records, which all verify and carry the derived key; the save outcome is returned |
| `ReadWritePersona.Persona.GetProfile` | lib/persona.js:60-78 | the loop over the tokens returns the projection: the left fold, or a failure at the first token that does not verify |
| `ReadWritePersona.Persona.GetPublicSigningKey` | lib/persona.js:80-82 | fails exactly when no `pubSignKey` token is held; otherwise the value of the earliest one |
| `ReadWritePersona.Persona.GetPublicEncryptionKey` | lib/persona.js:84-86 | fails exactly when no `pubEncKey` token is held; otherwise the value of the earliest one |
| `ReadWritePersona.Persona.GetAllClaims` | lib/persona.js:88-90 | all held tokens, unfiltered |
| `ReadWritePersona.Persona.GetClaims` | lib/persona.js:92-94 | exactly the held tokens of the name; with the other names' tokens they account for all tokens |
| `ReadWritePersona.Persona.AddClaim` | lib/persona.js:96-107 | an invalid token is rejected with no change; a valid one is appended and kept whatever the save's outcome; its name gains exactly it, other names are unchanged, its value wins in the profile |
| `ReadWritePersona.Persona.AddAttribute` | lib/persona.js:109-112 | appends one self-signed token, never rejected; its name gains one claim and its value in the profile |
| `ReadWritePersona.Persona.ReplaceAttribute` | lib/persona.js:114-118 | exactly one token of the name survives, the new one, last, with the new value; other names' tokens are unchanged in order; the profile changes only at that name |
| `ReadWritePersona.Persona.DeleteAttribute` | lib/persona.js:120-123 | the tokens become the old ones without the name: none of it is left, other names are unchanged, and the profile loses exactly that entry |
| `LocalFirstPersona.MutablePersona.constructor` | src/mutablePersona.js:6-20 | a new mutable persona wraps a fresh persona with no tokens; its registry address is the one given, or the default registry when none or an empty one is given |
| `LocalFirstPersona.MutablePersona.AddClaim` | src/mutablePersona.js:43-48 | an invalid token fails with InvalidClaim and no change; a valid one is appended and nothing is saved |
| `LocalFirstPersona.MutablePersona.AddClaims` | src/mutablePersona.js:57-61 | the tokens up to the first invalid one are appended in order, duplicates included; an invalid token fails the call but the earlier appends stay |
| `LocalFirstPersona.MutablePersona.RemoveClaim` | src/mutablePersona.js:70-76 | a token not held fails with NotFound and no change; otherwise exactly its first occurrence is removed and the rest keep their order |
| `LocalFirstPersona.MutablePersona.AddAttribute` | src/mutablePersona.js:86-89 | appends one token signed by the persona with its own address as issuer |
| `LocalFirstPersona.MutablePersona.ReplaceAttribute` | src/mutablePersona.js:99-103 | exactly one token of the name survives, last, with the new value; other names unchanged; the profile changes only at that name |
| `LocalFirstPersona.MutablePersona.RemoveAttribute` | src/mutablePersona.js:112-114 | no token of the name is left, all others stay in order, and the profile loses that entry |
| `LocalFirstPersona.MutablePersona.SetPublicSigningKey` | src/mutablePersona.js:116-119 | the old `pubSignKey` tokens are dropped and one new token is appended last: `pubSignKey` holding the derived key, self-signed with that key and the persona's address; it is the only one of its name, the key read back is the derived key, and other names are unchanged |
| `LocalFirstPersona.MutablePersona.SetPublicEncryptionKey` | src/mutablePersona.js:121-123 | the old `pubEncKey` tokens are dropped and one new token is appended last: `pubEncKey` holding the given key, self-signed with the signing key and the persona's address; it is the only one of its name, the key read back is the given key, and other names are unchanged |
| `LocalFirstPersona.ClientReplacesAttestations` | test/mutablePersona.js:11-124 | the whole scenario, step by step as below, ends with a fresh persona holding no token of the attribute's name |
| `LocalFirstPersona.ClientSetsSigningKey` | test/mutablePersona.js:11-26 | a new persona whose signing key is set holds one `pubSignKey` token and reads back the derived key |
| `LocalFirstPersona.ClientSignsAttribute` | test/mutablePersona.js:28-54 | a self-signed attribute and a third-party attestation of it give two valid tokens of a name that had none |
| `LocalFirstPersona.ClientRejectsInvalidClaim` | test/mutablePersona.js:56-60 | an invalid token is refused and the tokens are unchanged |
| `LocalFirstPersona.ClientAddsCopies` | test/mutablePersona.js:62-74 | three copies of an attestation are all appended, so the name gains three tokens |
| `LocalFirstPersona.ClientRejectsInvalidInList` | test/mutablePersona.js:76-81 | a list with an invalid token in the middle fails after appending the token before it |
| `LocalFirstPersona.ClientAttests` | test/mutablePersona.js:28-81 | after the steps from adding the attribute to the invalid list, a token of another name is still not held |
| `LocalFirstPersona.ClientRemovesClaim` | test/mutablePersona.js:83-94 | removing a token not held fails with NotFound; once added it is removed again and the tokens are as before |
| `LocalFirstPersona.ClientReplacesThenRemoves` | test/mutablePersona.js:96-124 | replacing an attribute and then removing it leaves no token of its name |
| `StaleMutablePersona.MutablePersona.constructor` | lib/mutablePersona.js:11-23 | a new mutable persona wraps a fresh persona with no tokens; its registry address is the one given, or the default registry when none or an empty one is given |
| `StaleMutablePersona.MutablePersona.AddClaim` | lib/mutablePersona.js:46-51 | an invalid token fails with no change; a valid one is appended |
| `StaleMutablePersona.MutablePersona.AddClaims` | lib/mutablePersona.js:60-64 | the tokens up to the first invalid one are appended in order; an invalid one fails the call after them |
| `StaleMutablePersona.MutablePersona.RemoveClaim` | lib/mutablePersona.js:73-79 | a token not held is rejected with NotFound and no change; otherwise the tokens are cut at its first occurrence, so it is no longer held |
| `StaleMutablePersona.MutablePersona.AddAttribute` | lib/mutablePersona.js:89-92 | appends one token whose issuer address is the persona's own |
| `StaleMutablePersona.MutablePersona.ReplaceAttribute` | lib/mutablePersona.js:102-106 | the name's tokens are filtered out and one new self-signed token is appended, the only one of that name |
| `StaleMutablePersona.MutablePersona.RemoveAttribute` | lib/mutablePersona.js:115-118 | no token of the name is left, the others stay in order, and the save outcome is returned |

## Left out

- Registry transport (`setProviders`, `loadAttributes`, `saveAttributes`, `writeToRegistry`): network I/O. A save is the parameter `saved`, and a load the fetched `Result`.
- Promise plumbing and asynchronous sequencing: each operation is one sequential method.
- Cryptography (`verifyTokenRecord`, `signToken`, `wrapToken`, the `ECPair`/`bigi` key derivation): a token's `valid` field stands for verification, and the derivation is the function `derive`.
- The token envelope: the raw signed token, the signature and `subject.publicKey`, a fixed placeholder string, are not represented.
- Object identity: `indexOf` compares with `===`, which is object identity. The model compares token values, so two distinct but equal-looking token objects are one token here.
- Aliasing: `getAllClaims` returns the persona's own array, which a caller could change. The model returns a value.
- Attribute objects with several keys: the source names a token by its claim's first key. An attribute here has exactly one name.
- Key order of a profile object: a profile is a sequence of attributes with distinct names, taken in the order given. JavaScript's rule that integer-like keys come first is not modelled.
- Error messages: only the kind of error is kept. The profile projection's error names the first token that fails.
- getPublicSigningKey/getPublicEncryptionKey: with no matching token the source crashes on `undefined`. The model returns AttributeNotFound.
- ReadWritePersona.Persona.GetClaims: its contract states membership and size. The order of the result is stated separately by ClaimStore.ClaimsNamedConcat.
- The read-write `addClaim` keeps the appended token when the save fails. This is modelled as written, not rolled back.
- lib/mutablePersona.js cannot load as written: `module.exports = MutablePersona` (line 121) names a class that is declared as `MuteablePersona`. Two other references fail only when they are reached: `notMatchesAttributeName` (lines 104 and 116) is not in scope, and `this.uportRegistry` (line 36) does not exist. The model uses the filter those calls evidently mean.
- src/mutablePersona.js imports src/persona.js, which is not part of this model. Its base class is taken to be lib/persona.js, and `Persona.notMatchesAttributeName(name)` is taken as the same filter. The constructor also forwards `ipfs` and `web3Provider` to that base constructor; those two are not modelled, and the registry address follows the base rule of lib/persona.js:18-22, as the constructor's own documentation promises.
- `getProfile` checks `decodedToken !== null`. The model assumes that a verification which does not throw returns a decoded token, so that check is not modelled; blockstack-profiles is not part of this model.
- example.js: network I/O only.

## Findings

| source | as written | input that shows it | evidently intended | confidence | as-written member | corrected member |
|---|---|---|---|---|---|---|
| src/mutablePersona.js:75 | `splice(idx)` has no delete count, so it removes the token and every token after it (ClaimStore.SpliceFrom; the same line is lib/mutablePersona.js:78) | tokens `[a, b]`, then `removeClaim(a)` leaves `[]` | remove exactly the one token found, leaving `[b]` | high; not executed | `ClaimStore.SpliceDropsFollowingClaims` | `ClaimStore.RemoveAt` |
| lib/persona.js:141 | `signMultipleAttributes` calls `signAttribute` unqualified, and no such name is in module scope, so any non-empty list raises a ReferenceError | `signMultipleAttributes([{name: "x"}], key)` | sign each attribute with `this.signAttribute` | high; not executed | `ReadWritePersona.SignMultipleAttributesFails` | `Claims.SignAttributes` |
