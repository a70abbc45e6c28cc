/** Path classification: whether a string lies under a configured root, whether
    it names exactly one top-level object there, and cutting a path inside an
    object back to the object's top-level path. */
module PathClassifier {
  import opened StoreBase

  /** The first occurrence of `c` at or after `from` (std::string::find). */
  function Find(p: string, c: char, from: nat): (r: Option<nat>)
    decreases |p| - from
    ensures r.Some? ==> from <= r.value < |p| && p[r.value] == c
    ensures r.Some? ==> forall i :: from <= i < r.value ==> p[i] != c
    ensures r.None? <==> forall i :: from <= i < |p| ==> p[i] != c
  {
    if from >= |p| then None
    else if p[from] == c then Some(from)
    else Find(p, c, from + 1)
  }

  /** `path` is absolute, starts with `root`, has a separator right after it,
      and at least one more character after that separator. */
  predicate IsInRoot(root: Path, path: Path) {
    && |path| > 0 && path[0] == '/'
    && |path| >= |root| + 2
    && path[..|root|] == root
    && path[|root|] == '/'
  }

  /** `path` is in the root and has no further separator below it. */
  predicate IsTopLevelUnder(root: Path, path: Path) {
    IsInRoot(root, path) && Find(path, '/', |root| + 1).None?
  }

  predicate IsInStore(roots: Roots, path: Path) {
    IsInRoot(roots.store, path)
  }

  predicate IsInStateStore(roots: Roots, path: Path) {
    IsInRoot(roots.state, path)
  }

  predicate IsStorePath(roots: Roots, path: Path) {
    IsTopLevelUnder(roots.store, path)
  }

  predicate IsStatePath(roots: Roots, path: Path) {
    IsTopLevelUnder(roots.state, path)
  }

  /** The path below `root` (without the separator that follows the root). */
  function Below(root: Path, path: Path): (rest: string)
    requires IsInRoot(root, path)
    ensures |rest| >= 1 && path == root + "/" + rest
  {
    path[|root| + 1..]
  }

  /** Membership, constructive direction: the root, a separator and any
      non-empty rest form a path in the root, a top-level one exactly when the
      rest has no separator. */
  lemma JoinIsInRoot(root: Path, rest: string)
    requires ValidRoot(root) && |rest| >= 1
    ensures IsInRoot(root, root + "/" + rest)
    ensures IsTopLevelUnder(root, root + "/" + rest) <==> '/' !in rest
  {
    var p := root + "/" + rest;
    assert p[..|root|] == root;
    assert forall i :: |root| + 1 <= i < |p| ==> p[i] == rest[i - |root| - 1];
    if '/' in rest {
      var j :| 0 <= j < |rest| && rest[j] == '/';
      assert p[|root| + 1 + j] == '/';
    }
  }

  /** Membership, both directions: a path is in the root exactly when it is the
      root, a separator and a non-empty rest. */
  lemma IsInRootIff(root: Path, path: Path)
    requires ValidRoot(root)
    ensures IsInRoot(root, path) <==>
      (|path| >= |root| + 2 && path[..|root| + 1] == root + "/")
  {
    if |path| >= |root| + 2 && path[..|root| + 1] == root + "/" {
      assert path[..|root|] == path[..|root| + 1][..|root|];
      assert path[0] == path[..|root| + 1][0];
    }
    if IsInRoot(root, path) {
      assert path[..|root| + 1] == path[..|root|] + [path[|root|]];
    }
  }

  /** A top-level path is in its root. */
  lemma TopLevelIsInRoot(roots: Roots, path: Path)
    ensures IsStorePath(roots, path) ==> IsInStore(roots, path)
    ensures IsStatePath(roots, path) ==> IsInStateStore(roots, path)
  {
  }

  /** assertStorePath: fails, naming the path, unless it is a store path. */
  function AssertStorePath(roots: Roots, path: Path): (r: Result<()>)
    ensures r.Ok? <==> IsStorePath(roots, path)
    ensures r.Fail? ==> r.error == NotInStore(path)
  {
    if !IsStorePath(roots, path) then Fail(NotInStore(path)) else Ok(())
  }

  /** assertStatePath: fails, naming the path, unless it is a state path. */
  function AssertStatePath(roots: Roots, path: Path): (r: Result<()>)
    ensures r.Ok? <==> IsStatePath(roots, path)
    ensures r.Fail? ==> r.error == NotInStateStore(path)
  {
    if !IsStatePath(roots, path) then Fail(NotInStateStore(path)) else Ok(())
  }

  /** The path cut at the first separator at or after the first character
      below the root: the longest prefix with no separator from that character
      on, ending where the path ends or just before a separator. */
  function TopLevelPrefix(root: Path, path: Path): (t: Path)
    requires IsInRoot(root, path)
    ensures |root| + 1 <= |t| <= |path| && t == path[..|t|]
    ensures forall i :: |root| + 1 <= i < |t| ==> t[i] != '/'
    ensures t == path || path[|t|] == '/'
  {
    match Find(path, '/', |root| + 1)
    case None => path
    case Some(slash) => path[..slash]
  }

  /** A path one level below a top-level path truncates back to it. */
  lemma TopLevelPrefixOfNested(root: Path, name: string, sub: string)
    requires ValidRoot(root) && |name| >= 1 && '/' !in name
    ensures IsInRoot(root, root + "/" + name + "/" + sub)
    ensures TopLevelPrefix(root, root + "/" + name + "/" + sub) == root + "/" + name
  {
    var p := root + "/" + name + "/" + sub;
    var q := root + "/" + name;
    assert p == root + "/" + (name + "/" + sub);
    JoinIsInRoot(root, name + "/" + sub);
    var k := |q|;
    assert p[k] == '/';
    assert forall i :: |root| + 1 <= i < k ==> p[i] == name[i - |root| - 1];
    assert p[..k] == q;
  }

  /** toStorePath as written: fails exactly outside the store, returns a store
      path unchanged, and otherwise truncates. */
  function ToStorePath(roots: Roots, path: Path): (r: Result<Path>)
    ensures r.Fail? <==> !IsInStore(roots, path)
    ensures r.Fail? ==> r.error == NotInStore(path)
    ensures r.Ok? ==> |roots.store| + 1 <= |r.value| <= |path| && r.value == path[..|r.value|]
    ensures r.Ok? ==> r.value == path || path[|r.value|] == '/'
    ensures r.Ok? ==> forall i :: |roots.store| + 1 <= i < |r.value| ==> r.value[i] != '/'
    ensures IsStorePath(roots, path) ==> r == Ok(path)
  {
    if !IsInStore(roots, path) then Fail(NotInStore(path))
    else Ok(TopLevelPrefix(roots.store, path))
  }

  /** The first segment below the root is non-empty: the character after the
      root's separator is not another separator. */
  predicate FirstSegmentNonEmpty(root: Path, path: Path)
    requires IsInRoot(root, path)
  {
    path[|root| + 1] != '/'
  }

  /** When the first segment is non-empty, the truncation is a top-level path
      of the same root. */
  lemma TopLevelPrefixIsTopLevel(root: Path, path: Path)
    requires IsInRoot(root, path) && FirstSegmentNonEmpty(root, path)
    ensures IsTopLevelUnder(root, TopLevelPrefix(root, path))
  {
    var t := TopLevelPrefix(root, path);
    assert |t| >= |root| + 2;
    assert t[..|root|] == path[..|root|];
  }

  /** toStorePath as written is a top-level store path and idempotent, on every
      path whose first segment is non-empty. */
  lemma ToStorePathIdempotent(roots: Roots, path: Path)
    requires IsInStore(roots, path) && FirstSegmentNonEmpty(roots.store, path)
    ensures ToStorePath(roots, path).Ok?
    ensures IsStorePath(roots, ToStorePath(roots, path).value)
    ensures ToStorePath(roots, ToStorePath(roots, path).value) == ToStorePath(roots, path)
  {
    TopLevelPrefixIsTopLevel(roots.store, path);
  }

  /** A trailing separator is dropped: root/x/ becomes root/x. */
  lemma ToStorePathDropsTrailingSlash(roots: Roots, name: string)
    requires ValidRoot(roots.store) && |name| >= 1 && '/' !in name
    ensures ToStorePath(roots, roots.store + "/" + name + "/") == Ok(roots.store + "/" + name)
  {
    var p := roots.store + "/" + name + "/";
    var q := roots.store + "/" + name;
    assert p == q + "/";
    JoinIsInRoot(roots.store, name + "/");
    assert IsInStore(roots, p);
    assert p[..|q|] == q;
    assert forall i :: |roots.store| + 1 <= i < |q| ==> q[i] == name[i - |roots.store| - 1];
  }

  /** The two properties above fail without their condition: when the
      segment below the root is empty (root//x), toStorePath as written
      returns root/, which is not a store path and which toStorePath itself
      rejects, so the result is neither top-level nor idempotent. */
  lemma ToStorePathEmptySegment(roots: Roots, rest: string)
    requires ValidRoot(roots.store)
    ensures ToStorePath(roots, roots.store + "//" + rest) == Ok(roots.store + "/")
    ensures !IsStorePath(roots, roots.store + "/")
    ensures ToStorePath(roots, roots.store + "/").Fail?
  {
    var p := roots.store + "//" + rest;
    JoinIsInRoot(roots.store, "/" + rest);
    assert p == roots.store + "/" + ("/" + rest);
    assert p[|roots.store| + 1] == '/';
    assert p[..|roots.store| + 1] == roots.store + "/";
  }

  /** toStorePath as evidently intended: a path whose first segment is empty
      is rejected too, so every result is a top-level store path. */
  function ToStorePathStrict(roots: Roots, path: Path): (r: Result<Path>)
    ensures r.Fail? <==> !IsInStore(roots, path) || !FirstSegmentNonEmpty(roots.store, path)
    ensures r.Fail? ==> r.error == NotInStore(path)
    ensures r.Ok? ==> IsStorePath(roots, r.value)
    ensures r.Ok? ==> |r.value| <= |path| && r.value == path[..|r.value|]
    ensures r.Ok? ==> r.value == path || path[|r.value|] == '/'
    ensures IsStorePath(roots, path) ==> r == Ok(path)
  {
    if !IsInStore(roots, path) || !FirstSegmentNonEmpty(roots.store, path) then
      Fail(NotInStore(path))
    else
      TopLevelPrefixIsTopLevel(roots.store, path);
      Ok(TopLevelPrefix(roots.store, path))
  }

  /** The corrected truncation is idempotent on every input it accepts. */
  lemma ToStorePathStrictIdempotent(roots: Roots, path: Path)
    requires ToStorePathStrict(roots, path).Ok?
    ensures ToStorePathStrict(roots, ToStorePathStrict(roots, path).value) == ToStorePathStrict(roots, path)
  {
  }
}
