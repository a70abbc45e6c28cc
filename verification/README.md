# Nix store path naming, modelled in Dafny

This project models the path-naming core of the Nix store in
`src/libstore/store-api.cc`. That core turns a type, a hash and a name into a
content address below the store root (`nixStore`). It also builds per-user
state paths below the state root (`nixStoreState`) and repository paths below
the state-repository root (`nixStoreStateRepos`). It decides whether a string
lies under one of these roots, and it validates names.

The model works on strings (`seq<char>`):

- One Dafny `char` stands for one byte of a C++ `std::string`. Read that way,
  the character `InvalidCharacter` reports and the order `StringOrder`
  defines are those of the code.

- The three roots form a `Roots` record passed to every operation.
- The hashing and encoding primitives (`hashString`, `printHash`,
  `printHash32`, `compressHash`) are arrow-typed fields of a `Primitives`
  record. Any functions of those types may be supplied, so they stay
  uninterpreted.
- Every exception becomes a `Fail` value of a `Result`. The error carries the
  offending value, except `MissingSubfolder`, whose cause is the empty
  subfolder itself.

One assumption about the primitives is stated explicitly as
`SlashFreeEncoding`: the base-32 rendering never contains `/`. Lemmas that say
a built path is top-level under its root require it, and require the root to
start with `/` (`ValidRoot`).

Files:

- `base.dfy` (`StoreBase`): paths, hashes, roots, primitives, errors, the
  encoded digest.
- `names.dfy` (`StoreNames`): `checkStoreName`.
- `classifier.dfy` (`PathClassifier`): `isInStore`, `isInStateStore`,
  `isStorePath`, `isStatePath`, `assertStorePath`, `assertStatePath`,
  `toStorePath`.
- `string_order.dfy` (`StringOrder`): the iteration order of a `PathSet`.
- `addresses.dfy` (`Addresses`): `makeStorePath`, `makeFixedOutputPath`,
  `computeStorePathForPath`, `computeStorePathForText`.
- `state_paths.dfy` (`StatePaths`): `makeStatePath`, `checkStatePath`.
- `repo_paths.dfy` (`RepoPaths`): `calculateStateReposPath`,
  `getStateReposPath`, `getStateReposRootPath`.

On these points the code does something easy to misread; the model follows it:

- The repository subfolder is never passed to `checkStoreName`. Any non-empty
  subfolder is accepted, including ones containing `/`.
- The descriptor of `makeStorePath` has the literal field `sha256`, whatever
  algorithm the hash used.
- The state descriptor has no type field.
- The repository-root descriptor embeds the state root, not the
  state-repository root.
- References are folded into a text object's type in the sorted iteration
  order of the `std::set`.
- `assertStorePath` and `assertStatePath` pass the path to their messages,
  although TODO comments at `store-api.cc:46` and `store-api.cc:52` say the
  printed path comes out empty. The model's error carries the path.

## Model

| member | source | states |
|---|---|---|
| StoreBase.EncodedDigest | src/libstore/store-api.cc:95-97 | the name part of an address has no `/` whenever the primitives keep that assumption |
| StoreBase.IdentifierTail | src/libstore/store-api.cc:102-104 | the `-stateIdentifier` tail is empty exactly for an empty identifier, and is otherwise a dash followed by the identifier |
| StoreNames.FirstInvalidFrom | src/libstore/store-api.cc:75-83 | the scan returns the first position outside the name alphabet, and returns none exactly when every character is in the alphabet |
| StoreNames.CheckStoreName | src/libstore/store-api.cc:68-84 | succeeds exactly on names without a leading `.` whose characters are all in `[A-Za-z0-9]` or `+-._?=` (the empty name is accepted); a leading dot fails with the name; otherwise the failure names the first bad character and the whole name |
| StoreNames.ValidNameHasNoSeparators | src/libstore/store-api.cc:70-79 | an accepted name contains neither `/` nor `:` |
| StoreNames.DotNamesRejected | src/libstore/store-api.cc:71-74 | every name starting with `.`, such as `.` and `..`, is rejected by the leading-dot rule |
| StoreNames.FirstBadCharacterReported | src/libstore/store-api.cc:75-83 | a valid prefix followed by a bad character fails at exactly that character, whatever follows |
| StoreNames.AlphabetAccepted | src/libstore/store-api.cc:70-79 | `foo+bar_1.2?3=4` is accepted |
| PathClassifier.IsInStore | src/libstore/store-api.cc:15-21 | the path is absolute, starts with the store root, has `/` right after it, and has at least one more character |
| PathClassifier.IsInStateStore | src/libstore/store-api.cc:23-29 | the same test against the state root |
| PathClassifier.IsStorePath | src/libstore/store-api.cc:31-35 | in the store, with no `/` from the character after the root's separator onwards |
| PathClassifier.IsStatePath | src/libstore/store-api.cc:37-41 | in the state store, with no `/` from the character after the root's separator onwards |
| PathClassifier.Find | src/libstore/store-api.cc:34 | `find` returns the first occurrence at or after the start position, or none exactly when there is none |
| PathClassifier.Below | src/libstore/store-api.cc:15-21 | a path in a root is that root, a separator and a non-empty rest |
| PathClassifier.JoinIsInRoot | src/libstore/store-api.cc:15-41 | root + `/` + any non-empty rest is in the root, and is top-level exactly when the rest has no `/` |
| PathClassifier.IsInRootIff | src/libstore/store-api.cc:15-29 | membership holds exactly when the path starts with root + `/` and has at least one more character |
| PathClassifier.TopLevelIsInRoot | src/libstore/store-api.cc:31-41 | a store path is in the store and a state path is in the state store |
| PathClassifier.AssertStorePath | src/libstore/store-api.cc:43-47 | succeeds exactly on store paths and otherwise fails naming the path |
| PathClassifier.AssertStatePath | src/libstore/store-api.cc:49-53 | succeeds exactly on state paths and otherwise fails naming the path |
| PathClassifier.TopLevelPrefix | src/libstore/store-api.cc:60-64 | the truncation is a prefix of the path with no `/` from the character following the root's separator on, and ends where the path ends or just before a `/` |
| PathClassifier.TopLevelPrefixIsTopLevel | src/libstore/store-api.cc:60-64 | when the first segment is non-empty, the truncation is a top-level path of the root |
| PathClassifier.TopLevelPrefixOfNested | src/libstore/store-api.cc:60-64 | root/name/anything truncates to root/name when name has no `/` |
| PathClassifier.ToStorePath | src/libstore/store-api.cc:56-65 | fails, naming the path, exactly when the path is not in the store; returns a store path unchanged; otherwise cuts the path at the first `/` at or after the character following the root's separator, or returns it whole when there is none |
| PathClassifier.ToStorePathIdempotent | src/libstore/store-api.cc:56-65 | for a path whose first segment is non-empty, the result is a store path and truncating it again changes nothing |
| PathClassifier.ToStorePathDropsTrailingSlash | src/libstore/store-api.cc:56-65 | root/x/ becomes root/x |
| PathClassifier.ToStorePathEmptySegment | src/libstore/store-api.cc:56-65 | root//x truncates to root/, which is not a store path and which the truncation itself rejects |
| PathClassifier.ToStorePathStrict | src/libstore/store-api.cc:56-65 | the corrected truncation fails exactly outside the store or on an empty first segment, and every result is a store path that is a prefix of the input |
| PathClassifier.ToStorePathStrictIdempotent | src/libstore/store-api.cc:56-65 | the corrected truncation is idempotent |
| StringOrder.SortedByElements | src/libstore/store-api.cc:223-226 | a set of paths has exactly one strictly ascending enumeration, so the iteration order is a function of the set |
| Addresses.MakeStorePath | src/libstore/store-api.cc:87-98 | fails exactly when the suffix is invalid, with the validator's error; otherwise gives root/digest-suffix, where the digest is taken of `type:sha256:printHash(hash):root:suffix` |
| Addresses.MakeStorePathIsStorePath | src/libstore/store-api.cc:87-98 | every built address is a store path, and truncating it to its store path changes nothing |
| Addresses.SameStorePathSameDigest | src/libstore/store-api.cc:95-97 | two equal addresses with the same suffix have equal encoded digests |
| Addresses.MakeFixedOutputPath | src/libstore/store-api.cc:182-191 | fails exactly on an invalid name; otherwise gives an `output:out` address built from the SHA-256 hash of the fixed-output descriptor |
| Addresses.FixedOutputModesDiffer | src/libstore/store-api.cc:186-189 | the recursive descriptor is `fixed:out:r:algo:hash:` and the flat one is `fixed:out:algo:hash:`, so they are never equal |
| Addresses.ComputeStorePathForPath | src/libstore/store-api.cc:194-212 | fails exactly on an invalid base name; always returns the SHA-256 source hash; uses the fixed-output address when fixed, otherwise a `source` address |
| Addresses.ColonListAppend | src/libstore/store-api.cc:223-226 | appending one reference appends `:` and that reference |
| Addresses.ComputeStorePathForText | src/libstore/store-api.cc:215-229 | the loop folds `:` and each reference, in iteration order, into the type `text`, then builds the address from the text's SHA-256 hash; it fails exactly on an invalid suffix |
| Addresses.ColonListInjective | src/libstore/store-api.cc:219-226 | for references without `:`, the folded string determines the references |
| Addresses.TextTypeIffSameReferences | src/libstore/store-api.cc:215-229 | for references without `:`, two text types are equal exactly when the reference sets are equal; the empty set gives `text` |
| Addresses.TextPathsOnlyCollide | src/libstore/store-api.cc:215-229 | texts whose reference sets differ have different descriptors, so they share an address only if their encoded digests collide |
| StatePaths.MakeStatePath | src/libstore/store-api.cc:100-118 | checks the suffix and then the identifier, failing with the validator's error; otherwise gives stateRoot/digest-suffix, plus -identifier when the identifier is non-empty |
| StatePaths.MakeStatePathIsStatePath | src/libstore/store-api.cc:100-118 | every built state path is a top-level path of the state store |
| StatePaths.SameStatePathSameDigest | src/libstore/store-api.cc:115-117 | two equal state paths with the same suffix and identifier have equal encoded digests |
| StatePaths.UserNameIsBound | src/libstore/store-api.cc:106-110 | different calling users give different descriptors, so equal state paths for them mean a collision of the encoded digests |
| StatePaths.CheckStatePathAsWritten | src/libstore/store-api.cc:120-134 | fails only when the recalculation fails; otherwise succeeds, carrying whether the declared and recalculated paths differ |
| StatePaths.SpoofPassesAsWritten | src/libstore/store-api.cc:132-133 | a declared state path that differs from the recalculated one still passes the check as written |
| StatePaths.CheckStatePath | src/libstore/store-api.cc:120-134 | the corrected check succeeds exactly when the declared path equals the recalculated one, and on a mismatch fails naming both paths |
| StatePaths.CheckStatePathAcceptsOnlyRecalculated | src/libstore/store-api.cc:120-134 | the corrected check accepts a derivation exactly when its declared path is the one makeStatePath gives |
| RepoPaths.CalculateStateReposPath | src/libstore/store-api.cc:136-164 | an empty subfolder fails first; then the suffix and the identifier are checked; the root path is reposRoot/digest-suffix[-identifier], and the full path is the root path, `/`, the subfolder digest, `-` and the subfolder |
| RepoPaths.GetStateReposPath | src/libstore/store-api.cc:166-172 | succeeds under the same conditions and fails with the same missing-subfolder or name-check error; the result is the root path getStateReposRootPath returns, `/`, and the subfolder's digest name ending in `-` + subfolder |
| RepoPaths.GetStateReposRootPath | src/libstore/store-api.cc:174-180 | succeeds exactly when the suffix and the identifier are valid, and never fails for a missing subfolder |
| RepoPaths.RootPathIndependentOfSubfolder | src/libstore/store-api.cc:136-164 | any two non-empty subfolders succeed or fail together and give the same root path |
| RepoPaths.RootPathAgrees | src/libstore/store-api.cc:174-180 | getStateReposRootPath equals the root path of every call made with a non-empty subfolder, and fails with the same error as that call |
| RepoPaths.SubfolderDescriptorsDiffer | src/libstore/store-api.cc:145-146 | distinct subfolders hash distinct descriptors |
| RepoPaths.RootPathIsTopLevel | src/libstore/store-api.cc:158-160 | with valid names, the root path is a top-level path of the state-repository root |
| RepoPaths.FullPathTruncatesToRootPath | src/libstore/store-api.cc:158-162 | the full path lies inside the state-repository root and truncates back to the root path |

## Left out

- Derivations without a `state` output or a `name` environment variable: the check at `store-api.cc:122-126` looks both up without testing for them, so `HasStateOutput` is a precondition of `RecalculatedStatePath`, `CheckStatePathAsWritten` and `CheckStatePath`.
- `openStore` and the global `store` handle: they look up the environment and construct a backend object.
- `StoreAPI::hasSubstitutes`: it is a virtual call into a backend that is not part of this model.
- Hashing and encoding internals (SHA-256, `compressHash`, the base-32 alphabet of `printHash32`, `printHash`): these external primitives are uninterpreted. The only assumption about them is that the base-32 output has no `/`.
- `getCallingUserName`: the calling user name is a parameter of `MakeStatePath`, and through it of the state-path check.
- `printMsg` logging and the text of error messages: failures are `Error` values that carry the offending value (none for `MissingSubfolder`).
- Addresses.ComputeStorePathForPath: `hashPath`, `hashFile`, `parseHashType` and `baseNameOf` read files or are outside this model. The two hashes and the base name are parameters. An unsupported hash algorithm is therefore not modelled.
- StatePaths.UserNameIsBound: proves that the descriptors differ and that equal paths need a collision of the encoded digests. It does not prove the paths differ, because the hash is uninterpreted.
- Addresses.TextPathsOnlyCollide: same limit as above, for text objects with different reference sets.
- RepoPaths.SubfolderDescriptorsDiffer: proves only that the descriptors differ, for the same reason.
- Addresses.FixedOutputModesDiffer: proves only that the recursive and flat descriptors differ. It does not prove the two paths differ, because the hash is uninterpreted.
- Addresses.TextTypeIffSameReferences: requires references without `:`. With colons the type is ambiguous: `{"a:b"}` and `{"a", "b"}` both give `text:a:b`.
- PathClassifier.ToStorePathIdempotent: requires a non-empty first segment, because the code as written is not idempotent without it (see Findings).
- StringOrder: compares characters by code point. With one `char` per byte, as stated above, this is the unsigned-byte order of `std::string`. Multi-byte characters as single code points are not modelled.

## Findings

| source | as written | input that shows it | evidently intended | confidence | as-written member | corrected member |
|---|---|---|---|---|---|---|
| src/libstore/store-api.cc:56-65 | truncates at the first `/` at or after the position just past the root's separator, even when the segment there is empty | root + `//x` gives root + `/`. That result is not a store path, and toStorePath rejects it | reject a path whose first segment is empty, so that every result is a store path and truncation is idempotent | medium, not executed | PathClassifier.ToStorePathEmptySegment | PathClassifier.ToStorePathStrict |
| src/libstore/store-api.cc:132-133 | on a mismatch the `Error` is constructed but not thrown, so the check has no effect | a derivation whose declared state path differs from the recalculated one passes | throw the error, failing the operation that trusts the declared path | medium (it may have been meant as logging only), not executed | StatePaths.SpoofPassesAsWritten | StatePaths.CheckStatePath |
