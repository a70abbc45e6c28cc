/** Content addresses of immutable store objects: the generic builder, its
    fixed-output and text specialisations, and the choice made when adding a
    path from outside the store. */
module Addresses {
  import opened StoreBase
  import opened StoreNames
  import opened PathClassifier
  import opened StringOrder

  /** The descriptor hashed into a store path: the type, the literal field
      "sha256" (whatever the hash's own algorithm), the printed hash, the
      store root and the suffix, joined by colons. */
  function StoreDescriptor(roots: Roots, prims: Primitives, pathType: string, hash: Hash, suffix: string): string {
    pathType + ":sha256:" + prims.printHash(hash) + ":" + roots.store + ":" + suffix
  }

  /** makeStorePath: rejects an invalid suffix, otherwise the store root, a
      separator, the encoded digest of the descriptor, a dash and the suffix. */
  function MakeStorePath(roots: Roots, prims: Primitives, pathType: string, hash: Hash, suffix: string): (r: Result<Path>)
    ensures r.Ok? <==> ValidStoreName(suffix)
    ensures r.Fail? ==> r.error == CheckStoreName(suffix).error
    ensures r.Ok? ==>
              r.value == roots.store + "/" + EncodedDigest(prims, StoreDescriptor(roots, prims, pathType, hash, suffix)) + "-" + suffix
  {
    var _ :- CheckStoreName(suffix);
    Ok(roots.store + "/" + EncodedDigest(prims, StoreDescriptor(roots, prims, pathType, hash, suffix)) + "-" + suffix)
  }

  /** Membership round trip: every address the builder produces is a store
      path, and toStorePath leaves it unchanged. */
  lemma MakeStorePathIsStorePath(roots: Roots, prims: Primitives, pathType: string, hash: Hash, suffix: string)
    requires ValidRoot(roots.store) && SlashFreeEncoding(prims)
    requires MakeStorePath(roots, prims, pathType, hash, suffix).Ok?
    ensures IsStorePath(roots, MakeStorePath(roots, prims, pathType, hash, suffix).value)
    ensures ToStorePath(roots, MakeStorePath(roots, prims, pathType, hash, suffix).value)
         == MakeStorePath(roots, prims, pathType, hash, suffix)
  {
    var e := EncodedDigest(prims, StoreDescriptor(roots, prims, pathType, hash, suffix));
    ValidNameHasNoSeparators(suffix);
    assert '/' !in e + "-" + suffix;
    JoinIsInRoot(roots.store, e + "-" + suffix);
    assert roots.store + "/" + (e + "-" + suffix) == roots.store + "/" + e + "-" + suffix;
  }

  /** Two equal addresses for the same suffix mean equal encoded digests of
      their descriptors: distinct descriptors can share an address only
      through a collision of the hashing pipeline. */
  lemma SameStorePathSameDigest(roots: Roots, prims: Primitives,
                                type1: string, hash1: Hash, type2: string, hash2: Hash, suffix: string)
    requires MakeStorePath(roots, prims, type1, hash1, suffix).Ok?
    requires MakeStorePath(roots, prims, type1, hash1, suffix) == MakeStorePath(roots, prims, type2, hash2, suffix)
    ensures EncodedDigest(prims, StoreDescriptor(roots, prims, type1, hash1, suffix))
         == EncodedDigest(prims, StoreDescriptor(roots, prims, type2, hash2, suffix))
  {
    var e1 := EncodedDigest(prims, StoreDescriptor(roots, prims, type1, hash1, suffix));
    var e2 := EncodedDigest(prims, StoreDescriptor(roots, prims, type2, hash2, suffix));
    assert roots.store + "/" + e1 + "-" + suffix == (roots.store + "/") + e1 + ("-" + suffix);
    assert roots.store + "/" + e2 + "-" + suffix == (roots.store + "/") + e2 + ("-" + suffix);
    CancelAround(roots.store + "/", e1, e2, "-" + suffix);
  }

  /** The inner descriptor of a fixed-output object; the "r:" marker is present
      exactly for recursive (directory) serialisation. */
  function FixedOutputDescriptor(prims: Primitives, recursive: bool, hashAlgo: string, hash: Hash): string {
    "fixed:out:" + (if recursive then "r:" else "") + hashAlgo + ":" + prims.printHash(hash) + ":"
  }

  /** The hash a fixed-output object's address is built from. */
  function FixedOutputHash(prims: Primitives, recursive: bool, hashAlgo: string, hash: Hash): Hash {
    prims.hashString(SHA256, FixedOutputDescriptor(prims, recursive, hashAlgo, hash))
  }

  /** makeFixedOutputPath: an address of type "output:out" built from the
      hash of the fixed-output descriptor. */
  function MakeFixedOutputPath(roots: Roots, prims: Primitives, recursive: bool, hashAlgo: string, hash: Hash, name: string): (r: Result<Path>)
    ensures r.Ok? <==> ValidStoreName(name)
    ensures r.Fail? ==> r.error == CheckStoreName(name).error
    ensures r.Ok? ==>
              r.value == roots.store + "/" + EncodedDigest(prims,
                StoreDescriptor(roots, prims, "output:out", FixedOutputHash(prims, recursive, hashAlgo, hash), name)) + "-" + name
  {
    MakeStorePath(roots, prims, "output:out", FixedOutputHash(prims, recursive, hashAlgo, hash), name)
  }

  /** Recursive and flat fixed-output descriptors differ exactly in the "r:"
      marker, so they are never equal. */
  lemma FixedOutputModesDiffer(prims: Primitives, hashAlgo: string, hash: Hash)
    ensures FixedOutputDescriptor(prims, true, hashAlgo, hash)
         == "fixed:out:r:" + hashAlgo + ":" + prims.printHash(hash) + ":"
    ensures FixedOutputDescriptor(prims, false, hashAlgo, hash)
         == "fixed:out:" + hashAlgo + ":" + prims.printHash(hash) + ":"
    ensures FixedOutputDescriptor(prims, true, hashAlgo, hash) != FixedOutputDescriptor(prims, false, hashAlgo, hash)
  {
    var t := hashAlgo + ":" + prims.printHash(hash) + ":";
    assert FixedOutputDescriptor(prims, true, hashAlgo, hash) == "fixed:out:r:" + t;
    assert FixedOutputDescriptor(prims, false, hashAlgo, hash) == "fixed:out:" + t;
  }

  /** computeStorePathForPath with the file hashing left outside: the
      fixed-output builder when `fixed` holds, else a "source" address; the
      SHA-256 hash of the contents is returned either way. `sourceHash` is the
      SHA-256 hash of the path's contents, `fixedHash` its hash under the
      requested algorithm, `baseName` its last component. */
  function ComputeStorePathForPath(roots: Roots, prims: Primitives, baseName: string,
                                   fixed: bool, recursive: bool, hashAlgo: string,
                                   sourceHash: Hash, fixedHash: Hash): (r: Result<(Path, Hash)>)
    ensures r.Ok? <==> ValidStoreName(baseName)
    ensures r.Fail? ==> r.error == CheckStoreName(baseName).error
    ensures r.Ok? ==> r.value.1 == sourceHash
    ensures r.Ok? && fixed ==> Ok(r.value.0) == MakeFixedOutputPath(roots, prims, recursive, hashAlgo, fixedHash, baseName)
    ensures r.Ok? && !fixed ==> Ok(r.value.0) == MakeStorePath(roots, prims, "source", sourceHash, baseName)
  {
    var dstPath :-
      if fixed then MakeFixedOutputPath(roots, prims, recursive, hashAlgo, fixedHash, baseName)
      else MakeStorePath(roots, prims, "source", sourceHash, baseName);
    Ok((dstPath, sourceHash))
  }

  /** The iteration sequence of a set of paths: strictly ascending. */
  type PathSet = refs: seq<Path> | StrictlySorted(refs)

  /** Each reference in turn, preceded by a colon. */
  function ColonList(refs: seq<Path>): string {
    if |refs| == 0 then "" else ":" + refs[0] + ColonList(refs[1..])
  }

  /** The type of a text object: "text" and then ":" and each reference. */
  function TextType(references: PathSet): string {
    "text" + ColonList(references)
  }

  predicate ColonFree(refs: seq<Path>) {
    forall i :: 0 <= i < |refs| ==> ':' !in refs[i]
  }

  lemma {:induction false} ColonListAppend(refs: seq<Path>, r: Path)
    ensures ColonList(refs + [r]) == ColonList(refs) + ":" + r
    decreases |refs|
  {
    if |refs| > 0 {
      assert (refs + [r])[1..] == refs[1..] + [r];
      ColonListAppend(refs[1..], r);
    }
  }

  /** computeStorePathForText: the references are folded into the type in
      iteration order, and the text's own SHA-256 hash is the object hash. */
  method ComputeStorePathForText(roots: Roots, prims: Primitives, suffix: string, s: string, references: PathSet)
    returns (r: Result<Path>)
    ensures r.Ok? <==> ValidStoreName(suffix)
    ensures r == MakeStorePath(roots, prims, TextType(references), prims.hashString(SHA256, s), suffix)
  {
    var hash := prims.hashString(SHA256, s);
    var pathType := "text";
    var i := 0;
    while i < |references|
      invariant 0 <= i <= |references|
      invariant pathType == "text" + ColonList(references[..i])
    {
      ColonListAppend(references[..i], references[i]);
      assert references[..i + 1] == references[..i] + [references[i]];
      pathType := pathType + ":" + references[i];
      i := i + 1;
    }
    assert references[..i] == references;
    r := MakeStorePath(roots, prims, pathType, hash, suffix);
  }

  /** In a colon-free name followed by nothing or by a colon-led tail, the
      first colon is where the tail starts. */
  lemma FirstColonIsTail(x: string, a: string)
    requires ':' !in x && (a == "" || a[0] == ':')
    ensures a == "" ==> Find(x + a, ':', 0) == None
    ensures a != "" ==> Find(x + a, ':', 0) == Some(|x|)
  {
    assert forall i :: 0 <= i < |x| ==> (x + a)[i] == x[i];
    if a != "" {
      assert (x + a)[|x|] == ':';
    }
  }

  /** Such a name and tail split in only one way. */
  lemma SplitAtColon(x: string, a: string, y: string, b: string)
    requires ':' !in x && ':' !in y
    requires (a == "" || a[0] == ':') && (b == "" || b[0] == ':')
    requires x + a == y + b
    ensures x == y && a == b
  {
    FirstColonIsTail(x, a);
    FirstColonIsTail(y, b);
    assert |x| == |y|;
    assert x == (x + a)[..|x|] && y == (y + b)[..|y|];
    assert a == (x + a)[|x|..] && b == (y + b)[|y|..];
  }

  /** With colon-free references the folded list determines the references. */
  lemma {:induction false} ColonListInjective(xs: seq<Path>, ys: seq<Path>)
    requires ColonFree(xs) && ColonFree(ys)
    requires ColonList(xs) == ColonList(ys)
    ensures xs == ys
    decreases |xs|
  {
    if |xs| > 0 && |ys| > 0 {
      var a := ColonList(xs[1..]);
      var b := ColonList(ys[1..]);
      if |xs| > 1 {
        assert a[0] == ':';
      }
      if |ys| > 1 {
        assert b[0] == ':';
      }
      assert ":" + xs[0] + a == ":" + ys[0] + b;
      assert xs[0] + a == (":" + xs[0] + a)[1..];
      assert ys[0] + b == (":" + ys[0] + b)[1..];
      SplitAtColon(xs[0], a, ys[0], b);
      assert ColonFree(xs[1..]) && ColonFree(ys[1..]);
      ColonListInjective(xs[1..], ys[1..]);
      assert xs == [xs[0]] + xs[1..] && ys == [ys[0]] + ys[1..];
    }
  }

  /** Reference sensitivity: for colon-free references the text type is equal
      exactly when the reference sets are equal, whatever order they were
      inserted in. The empty set gives "text". */
  lemma TextTypeIffSameReferences(xs: PathSet, ys: PathSet)
    requires ColonFree(xs) && ColonFree(ys)
    ensures TextType(xs) == TextType(ys) <==> Elements(xs) == Elements(ys)
    ensures |xs| == 0 ==> TextType(xs) == "text"
  {
    if Elements(xs) == Elements(ys) {
      SortedByElements(xs, ys);
    }
    if TextType(xs) == TextType(ys) {
      CancelAround("text", ColonList(xs), ColonList(ys), "");
      ColonListInjective(xs, ys);
    }
  }

  /** Text objects with different colon-free reference sets share an address
      only through a collision: their descriptors differ while their encoded
      digests agree. */
  lemma TextPathsOnlyCollide(roots: Roots, prims: Primitives, suffix: string, s: string, xs: PathSet, ys: PathSet)
    requires ColonFree(xs) && ColonFree(ys) && Elements(xs) != Elements(ys)
    requires MakeStorePath(roots, prims, TextType(xs), prims.hashString(SHA256, s), suffix).Ok?
    requires MakeStorePath(roots, prims, TextType(xs), prims.hashString(SHA256, s), suffix)
          == MakeStorePath(roots, prims, TextType(ys), prims.hashString(SHA256, s), suffix)
    ensures StoreDescriptor(roots, prims, TextType(xs), prims.hashString(SHA256, s), suffix)
         != StoreDescriptor(roots, prims, TextType(ys), prims.hashString(SHA256, s), suffix)
    ensures EncodedDigest(prims, StoreDescriptor(roots, prims, TextType(xs), prims.hashString(SHA256, s), suffix))
         == EncodedDigest(prims, StoreDescriptor(roots, prims, TextType(ys), prims.hashString(SHA256, s), suffix))
  {
    var h := prims.hashString(SHA256, s);
    TextTypeIffSameReferences(xs, ys);
    SameStorePathSameDigest(roots, prims, TextType(xs), h, TextType(ys), h, suffix);
    var tail := ":sha256:" + prims.printHash(h) + ":" + roots.store + ":" + suffix;
    assert StoreDescriptor(roots, prims, TextType(xs), h, suffix) == "text" + ColonList(xs) + tail;
    assert StoreDescriptor(roots, prims, TextType(ys), h, suffix) == "text" + ColonList(ys) + tail;
    if "text" + ColonList(xs) + tail == "text" + ColonList(ys) + tail {
      CancelAround("text", ColonList(xs), ColonList(ys), tail);
    }
  }
}
