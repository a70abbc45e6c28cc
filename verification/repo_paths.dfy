/** Repository paths nested under a state path: a root for the state path
    under the state-repository root, and one directory per named subfolder
    below it. */
module RepoPaths {
  import opened StoreBase
  import opened StoreNames
  import opened PathClassifier

  /** Both results of calculateStateReposPath. */
  datatype ReposPaths = ReposPaths(rootPath: Path, fullPath: Path)

  /** The repository seed: the hash of the state path itself. */
  function StatePathHash(prims: Primitives, statePath: Path): Hash {
    prims.hashString(SHA256, statePath)
  }

  /** The descriptor naming a subfolder directory. */
  function SubfolderDescriptor(prims: Primitives, pathType: string, statePath: Path, subfolder: string): string {
    pathType + ":sha256:" + prims.printHash(StatePathHash(prims, statePath)) + ":" + subfolder
  }

  /** The descriptor naming the repository root. It embeds the state-store
      root, not the state-repository root, and no subfolder. */
  function ReposRootDescriptor(roots: Roots, prims: Primitives, pathType: string, statePath: Path,
                               suffix: string, stateIdentifier: string): string {
    pathType + ":sha256:" + prims.printHash(StatePathHash(prims, statePath)) + ":"
      + roots.state + ":" + suffix + ":" + stateIdentifier
  }

  /** The last component of a repository root path. */
  function ReposRootName(roots: Roots, prims: Primitives, pathType: string, statePath: Path,
                         suffix: string, stateIdentifier: string): string {
    EncodedDigest(prims, ReposRootDescriptor(roots, prims, pathType, statePath, suffix, stateIdentifier))
      + "-" + suffix + IdentifierTail(stateIdentifier)
  }

  /** The directory name of a subfolder below the repository root path. */
  function SubfolderName(prims: Primitives, pathType: string, statePath: Path, subfolder: string): string {
    EncodedDigest(prims, SubfolderDescriptor(prims, pathType, statePath, subfolder)) + "-" + subfolder
  }

  /** calculateStateReposPath: an empty subfolder fails before any name is
      checked; then the suffix and the state identifier are checked (the
      subfolder itself never is). The full path is the root path, a
      separator, the subfolder's encoded digest, a dash and the subfolder. */
  function CalculateStateReposPath(roots: Roots, prims: Primitives, pathType: string, statePath: Path,
                                   subfolder: string, suffix: string, stateIdentifier: string): (r: Result<ReposPaths>)
    ensures subfolder == "" ==> r == Fail(MissingSubfolder)
    ensures r.Ok? <==> subfolder != "" && ValidStoreName(suffix) && ValidStoreName(stateIdentifier)
    ensures subfolder != "" && !ValidStoreName(suffix) ==> r.Fail? && r.error == CheckStoreName(suffix).error
    ensures subfolder != "" && ValidStoreName(suffix) && !ValidStoreName(stateIdentifier) ==>
              r.Fail? && r.error == CheckStoreName(stateIdentifier).error
    ensures r.Ok? ==>
              r.value.rootPath == roots.stateRepos + "/" + ReposRootName(roots, prims, pathType, statePath, suffix, stateIdentifier)
    ensures r.Ok? ==>
              r.value.fullPath == r.value.rootPath + "/" + SubfolderName(prims, pathType, statePath, subfolder)
  {
    if subfolder == "" then Fail(MissingSubfolder)
    else
      var subfolder2 := SubfolderName(prims, pathType, statePath, subfolder);
      var _ :- CheckStoreName(suffix);
      var _ :- CheckStoreName(stateIdentifier);
      var rootPath := roots.stateRepos + "/" + ReposRootName(roots, prims, pathType, statePath, suffix, stateIdentifier);
      Ok(ReposPaths(rootPath, rootPath + "/" + subfolder2))
  }

  /** getStateReposPath: the full path only. */
  function GetStateReposPath(roots: Roots, prims: Primitives, pathType: string, statePath: Path,
                             subfolder: string, suffix: string, stateIdentifier: string): (r: Result<Path>)
    ensures r.Ok? <==> subfolder != "" && ValidStoreName(suffix) && ValidStoreName(stateIdentifier)
    ensures subfolder == "" ==> r == Fail(MissingSubfolder)
    ensures subfolder != "" && !ValidStoreName(suffix) ==> r.Fail? && r.error == CheckStoreName(suffix).error
    ensures subfolder != "" && ValidStoreName(suffix) && !ValidStoreName(stateIdentifier) ==>
              r.Fail? && r.error == CheckStoreName(stateIdentifier).error
    ensures r.Ok? ==> |r.value| > |subfolder| && r.value[|r.value| - |subfolder| - 1..] == "-" + subfolder
    ensures r.Ok? ==>
              && GetStateReposRootPath(roots, prims, pathType, statePath, suffix, stateIdentifier).Ok?
              && r.value == GetStateReposRootPath(roots, prims, pathType, statePath, suffix, stateIdentifier).value
                            + "/" + SubfolderName(prims, pathType, statePath, subfolder)
  {
    var paths :- CalculateStateReposPath(roots, prims, pathType, statePath, subfolder, suffix, stateIdentifier);
    RootPathAgrees(roots, prims, pathType, statePath, subfolder, suffix, stateIdentifier);
    Ok(paths.fullPath)
  }

  /** getStateReposRootPath: the root path, reached through "/" as the
      subfolder, so it never fails for a missing subfolder. */
  function GetStateReposRootPath(roots: Roots, prims: Primitives, pathType: string, statePath: Path,
                                 suffix: string, stateIdentifier: string): (r: Result<Path>)
    ensures r.Ok? <==> ValidStoreName(suffix) && ValidStoreName(stateIdentifier)
    ensures r.Fail? ==> r.error != MissingSubfolder
  {
    var paths :- CalculateStateReposPath(roots, prims, pathType, statePath, "/", suffix, stateIdentifier);
    Ok(paths.rootPath)
  }

  /** The root path does not depend on the subfolder: any two non-empty
      subfolders succeed or fail together, and agree on the root path. */
  lemma RootPathIndependentOfSubfolder(roots: Roots, prims: Primitives, pathType: string, statePath: Path,
                                       subfolder1: string, subfolder2: string, suffix: string, stateIdentifier: string)
    requires subfolder1 != "" && subfolder2 != ""
    ensures var r1 := CalculateStateReposPath(roots, prims, pathType, statePath, subfolder1, suffix, stateIdentifier);
            var r2 := CalculateStateReposPath(roots, prims, pathType, statePath, subfolder2, suffix, stateIdentifier);
            (r1.Ok? <==> r2.Ok?) && (r1.Fail? ==> r1 == r2) && (r1.Ok? ==> r1.value.rootPath == r2.value.rootPath)
  {
  }

  /** getStateReposRootPath agrees with the root path of every call made with
      a non-empty subfolder, and fails with the same error when that call
      fails. */
  lemma RootPathAgrees(roots: Roots, prims: Primitives, pathType: string, statePath: Path,
                       subfolder: string, suffix: string, stateIdentifier: string)
    requires subfolder != ""
    ensures var r := CalculateStateReposPath(roots, prims, pathType, statePath, subfolder, suffix, stateIdentifier);
            (r.Ok? ==> GetStateReposRootPath(roots, prims, pathType, statePath, suffix, stateIdentifier) == Ok(r.value.rootPath))
            && (r.Fail? ==> GetStateReposRootPath(roots, prims, pathType, statePath, suffix, stateIdentifier) == Fail(r.error))
  {
    RootPathIndependentOfSubfolder(roots, prims, pathType, statePath, subfolder, "/", suffix, stateIdentifier);
  }

  /** Distinct subfolders of one state path hash distinct descriptors. */
  lemma SubfolderDescriptorsDiffer(prims: Primitives, pathType: string, statePath: Path,
                                   subfolder1: string, subfolder2: string)
    requires subfolder1 != subfolder2
    ensures SubfolderDescriptor(prims, pathType, statePath, subfolder1)
         != SubfolderDescriptor(prims, pathType, statePath, subfolder2)
  {
    var head := pathType + ":sha256:" + prims.printHash(StatePathHash(prims, statePath)) + ":";
    assert SubfolderDescriptor(prims, pathType, statePath, subfolder1) == head + subfolder1;
    assert SubfolderDescriptor(prims, pathType, statePath, subfolder2) == head + subfolder2;
    if head + subfolder1 == head + subfolder2 {
      CancelAround(head, subfolder1, subfolder2, "");
    }
  }

  /** With valid names, the root path's last component has no separator. */
  lemma ReposRootNameSlashFree(roots: Roots, prims: Primitives, pathType: string, statePath: Path,
                               suffix: string, stateIdentifier: string)
    requires SlashFreeEncoding(prims) && ValidStoreName(suffix) && ValidStoreName(stateIdentifier)
    ensures |ReposRootName(roots, prims, pathType, statePath, suffix, stateIdentifier)| >= 1
    ensures '/' !in ReposRootName(roots, prims, pathType, statePath, suffix, stateIdentifier)
  {
    ValidNameHasNoSeparators(suffix);
    ValidNameHasNoSeparators(stateIdentifier);
    assert IdentifierTail(stateIdentifier) == "" || IdentifierTail(stateIdentifier) == "-" + stateIdentifier;
  }

  /** The root path is a top-level path of the state-repository root. */
  lemma RootPathIsTopLevel(roots: Roots, prims: Primitives, pathType: string, statePath: Path,
                           subfolder: string, suffix: string, stateIdentifier: string)
    requires ValidRoot(roots.stateRepos) && SlashFreeEncoding(prims)
    requires CalculateStateReposPath(roots, prims, pathType, statePath, subfolder, suffix, stateIdentifier).Ok?
    ensures IsTopLevelUnder(roots.stateRepos,
              CalculateStateReposPath(roots, prims, pathType, statePath, subfolder, suffix, stateIdentifier).value.rootPath)
  {
    ReposRootNameSlashFree(roots, prims, pathType, statePath, suffix, stateIdentifier);
    JoinIsInRoot(roots.stateRepos, ReposRootName(roots, prims, pathType, statePath, suffix, stateIdentifier));
  }

  /** The full path lies inside the root path: truncating it to its top-level
      component gives back the root path. */
  lemma FullPathTruncatesToRootPath(roots: Roots, prims: Primitives, pathType: string, statePath: Path,
                                    subfolder: string, suffix: string, stateIdentifier: string)
    requires ValidRoot(roots.stateRepos) && SlashFreeEncoding(prims)
    requires CalculateStateReposPath(roots, prims, pathType, statePath, subfolder, suffix, stateIdentifier).Ok?
    ensures var p := CalculateStateReposPath(roots, prims, pathType, statePath, subfolder, suffix, stateIdentifier).value;
            IsInRoot(roots.stateRepos, p.fullPath) && TopLevelPrefix(roots.stateRepos, p.fullPath) == p.rootPath
  {
    ReposRootNameSlashFree(roots, prims, pathType, statePath, suffix, stateIdentifier);
    TopLevelPrefixOfNested(roots.stateRepos, ReposRootName(roots, prims, pathType, statePath, suffix, stateIdentifier),
                           SubfolderName(prims, pathType, statePath, subfolder));
  }
}
