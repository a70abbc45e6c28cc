/** Mutable per-user state paths: the builder that binds the calling user into
    the address, and the check of a derivation's declared state path. */
module StatePaths {
  import opened StoreBase
  import opened StoreNames
  import opened PathClassifier

  /** The descriptor of a state path. Unlike a store descriptor it has no type
      field, and it ends with the state identifier and the calling user. */
  function StateDescriptor(roots: Roots, componentHash: string, suffix: string,
                           stateIdentifier: string, username: string): string {
    ":sha256:" + componentHash + ":" + roots.state + ":" + suffix + ":" + stateIdentifier + ":" + username
  }

  /** makeStatePath: the suffix is checked first, then the state identifier;
      the result is the state root, a separator, the encoded digest, a dash,
      the suffix and, for a non-empty identifier, a dash and the identifier.
      `username` is what the operating system reports as the calling user. */
  function MakeStatePath(roots: Roots, prims: Primitives, componentHash: string, suffix: string,
                         stateIdentifier: string, username: string): (r: Result<Path>)
    ensures r.Ok? <==> ValidStoreName(suffix) && ValidStoreName(stateIdentifier)
    ensures !ValidStoreName(suffix) ==> r.Fail? && r.error == CheckStoreName(suffix).error
    ensures ValidStoreName(suffix) && !ValidStoreName(stateIdentifier) ==>
              r.Fail? && r.error == CheckStoreName(stateIdentifier).error
    ensures r.Ok? ==>
              r.value == roots.state + "/"
                         + EncodedDigest(prims, StateDescriptor(roots, componentHash, suffix, stateIdentifier, username))
                         + "-" + suffix + IdentifierTail(stateIdentifier)
  {
    var _ :- CheckStoreName(suffix);
    var _ :- CheckStoreName(stateIdentifier);
    Ok(roots.state + "/"
       + EncodedDigest(prims, StateDescriptor(roots, componentHash, suffix, stateIdentifier, username))
       + "-" + suffix + IdentifierTail(stateIdentifier))
  }

  /** Membership round trip: every state path the builder produces is a
      top-level path of the state store. */
  lemma MakeStatePathIsStatePath(roots: Roots, prims: Primitives, componentHash: string, suffix: string,
                                 stateIdentifier: string, username: string)
    requires ValidRoot(roots.state) && SlashFreeEncoding(prims)
    requires MakeStatePath(roots, prims, componentHash, suffix, stateIdentifier, username).Ok?
    ensures IsStatePath(roots, MakeStatePath(roots, prims, componentHash, suffix, stateIdentifier, username).value)
  {
    var e := EncodedDigest(prims, StateDescriptor(roots, componentHash, suffix, stateIdentifier, username));
    var tail := IdentifierTail(stateIdentifier);
    ValidNameHasNoSeparators(suffix);
    ValidNameHasNoSeparators(stateIdentifier);
    assert tail == "" || tail == "-" + stateIdentifier;
    assert '/' !in e + "-" + suffix + tail;
    JoinIsInRoot(roots.state, e + "-" + suffix + tail);
    assert roots.state + "/" + (e + "-" + suffix + tail) == roots.state + "/" + e + "-" + suffix + tail;
  }

  /** A built state path as root-and-separator, digest, and tail. */
  lemma StatePathParts(roots: Roots, prims: Primitives, componentHash: string, suffix: string,
                       stateIdentifier: string, username: string)
    requires MakeStatePath(roots, prims, componentHash, suffix, stateIdentifier, username).Ok?
    ensures MakeStatePath(roots, prims, componentHash, suffix, stateIdentifier, username).value
         == (roots.state + "/")
            + EncodedDigest(prims, StateDescriptor(roots, componentHash, suffix, stateIdentifier, username))
            + ("-" + suffix + IdentifierTail(stateIdentifier))
  {
    var e := EncodedDigest(prims, StateDescriptor(roots, componentHash, suffix, stateIdentifier, username));
    var t := IdentifierTail(stateIdentifier);
    assert roots.state + "/" + e + "-" + suffix + t == (roots.state + "/") + e + ("-" + suffix + t);
  }

  /** Two equal state paths for the same suffix and identifier mean equal
      encoded digests of their descriptors. */
  lemma SameStatePathSameDigest(roots: Roots, prims: Primitives, suffix: string, stateIdentifier: string,
                                hash1: string, user1: string, hash2: string, user2: string)
    requires MakeStatePath(roots, prims, hash1, suffix, stateIdentifier, user1).Ok?
    requires MakeStatePath(roots, prims, hash1, suffix, stateIdentifier, user1)
          == MakeStatePath(roots, prims, hash2, suffix, stateIdentifier, user2)
    ensures EncodedDigest(prims, StateDescriptor(roots, hash1, suffix, stateIdentifier, user1))
         == EncodedDigest(prims, StateDescriptor(roots, hash2, suffix, stateIdentifier, user2))
  {
    StatePathParts(roots, prims, hash1, suffix, stateIdentifier, user1);
    StatePathParts(roots, prims, hash2, suffix, stateIdentifier, user2);
    CancelAround(roots.state + "/",
                 EncodedDigest(prims, StateDescriptor(roots, hash1, suffix, stateIdentifier, user1)),
                 EncodedDigest(prims, StateDescriptor(roots, hash2, suffix, stateIdentifier, user2)),
                 "-" + suffix + IdentifierTail(stateIdentifier));
  }

  /** Identity binding: the same request under two different user names hashes
      two different descriptors, so if their state paths coincide, the
      hashing pipeline maps two different descriptors to one digest. */
  lemma UserNameIsBound(roots: Roots, prims: Primitives, componentHash: string, suffix: string,
                        stateIdentifier: string, user1: string, user2: string)
    requires user1 != user2
    ensures StateDescriptor(roots, componentHash, suffix, stateIdentifier, user1)
         != StateDescriptor(roots, componentHash, suffix, stateIdentifier, user2)
    ensures MakeStatePath(roots, prims, componentHash, suffix, stateIdentifier, user1).Ok? &&
            MakeStatePath(roots, prims, componentHash, suffix, stateIdentifier, user1)
              == MakeStatePath(roots, prims, componentHash, suffix, stateIdentifier, user2) ==>
              EncodedDigest(prims, StateDescriptor(roots, componentHash, suffix, stateIdentifier, user1))
              == EncodedDigest(prims, StateDescriptor(roots, componentHash, suffix, stateIdentifier, user2))
  {
    var head := ":sha256:" + componentHash + ":" + roots.state + ":" + suffix + ":" + stateIdentifier + ":";
    assert StateDescriptor(roots, componentHash, suffix, stateIdentifier, user1) == head + user1;
    assert StateDescriptor(roots, componentHash, suffix, stateIdentifier, user2) == head + user2;
    if head + user1 == head + user2 {
      CancelAround(head, user1, user2, "");
    }
    if MakeStatePath(roots, prims, componentHash, suffix, stateIdentifier, user1).Ok? &&
       MakeStatePath(roots, prims, componentHash, suffix, stateIdentifier, user1)
         == MakeStatePath(roots, prims, componentHash, suffix, stateIdentifier, user2) {
      SameStatePathSameDigest(roots, prims, suffix, stateIdentifier, componentHash, user1, componentHash, user2);
    }
  }

  /** The part of a derivation's state output the check reads. */
  datatype StateOutput = StateOutput(statePath: Path, componentHash: string, stateIdentifier: string)

  /** The parts of a derivation the check reads: its state outputs and its
      environment. */
  datatype Derivation = Derivation(stateOutputs: map<string, StateOutput>, env: map<string, string>)

  /** The check looks up the "state" output and the "name" variable without
      testing for them, so its callers must supply both. */
  predicate HasStateOutput(drv: Derivation) {
    "state" in drv.stateOutputs && "name" in drv.env
  }

  /** The state path the naming scheme gives the derivation. */
  function RecalculatedStatePath(roots: Roots, prims: Primitives, drv: Derivation, username: string): Result<Path>
    requires HasStateOutput(drv)
  {
    var out := drv.stateOutputs["state"];
    MakeStatePath(roots, prims, out.componentHash, drv.env["name"], out.stateIdentifier, username)
  }

  /** checkStatePath as written: the recalculation can fail on an invalid
      name, but a mismatch only builds an error value that is never thrown.
      The result carries whether the declared and recalculated paths differ. */
  function CheckStatePathAsWritten(roots: Roots, prims: Primitives, drv: Derivation, username: string): (r: Result<bool>)
    requires HasStateOutput(drv)
    ensures r.Fail? <==> RecalculatedStatePath(roots, prims, drv, username).Fail?
    ensures r.Fail? ==> r.error == RecalculatedStatePath(roots, prims, drv, username).error
    ensures r.Ok? ==>
              (r.value <==> drv.stateOutputs["state"].statePath != RecalculatedStatePath(roots, prims, drv, username).value)
  {
    var calculated :- RecalculatedStatePath(roots, prims, drv, username);
    var mismatch := drv.stateOutputs["state"].statePath != calculated;
    Ok(mismatch)
  }

  /** A spoofed declaration passes the as-written check: whenever the
      recalculation succeeds, the check succeeds, even though the declared
      path differs. */
  lemma SpoofPassesAsWritten(roots: Roots, prims: Primitives, drv: Derivation, username: string)
    requires HasStateOutput(drv)
    requires RecalculatedStatePath(roots, prims, drv, username).Ok?
    requires drv.stateOutputs["state"].statePath != RecalculatedStatePath(roots, prims, drv, username).value
    ensures CheckStatePathAsWritten(roots, prims, drv, username) == Ok(true)
  {
  }

  /** checkStatePath as evidently intended: a mismatch fails with both paths. */
  function CheckStatePath(roots: Roots, prims: Primitives, drv: Derivation, username: string): (r: Result<()>)
    requires HasStateOutput(drv)
    ensures r.Ok? <==> RecalculatedStatePath(roots, prims, drv, username) == Ok(drv.stateOutputs["state"].statePath)
    ensures RecalculatedStatePath(roots, prims, drv, username).Fail? ==>
              r == Fail(RecalculatedStatePath(roots, prims, drv, username).error)
    ensures RecalculatedStatePath(roots, prims, drv, username).Ok? &&
            RecalculatedStatePath(roots, prims, drv, username).value != drv.stateOutputs["state"].statePath ==>
              r == Fail(SpoofedStatePath(drv.stateOutputs["state"].statePath,
                                         RecalculatedStatePath(roots, prims, drv, username).value))
  {
    var calculated :- RecalculatedStatePath(roots, prims, drv, username);
    var declared := drv.stateOutputs["state"].statePath;
    if declared != calculated then Fail(SpoofedStatePath(declared, calculated)) else Ok(())
  }

  /** The corrected check accepts exactly the derivations whose declared state
      path is the one recalculated for the calling user. */
  lemma CheckStatePathAcceptsOnlyRecalculated(roots: Roots, prims: Primitives, componentHash: string,
                                              name: string, stateIdentifier: string,
                                              declared: Path, username: string)
    requires MakeStatePath(roots, prims, componentHash, name, stateIdentifier, username).Ok?
    ensures var drv := Derivation(map["state" := StateOutput(declared, componentHash, stateIdentifier)],
                                  map["name" := name]);
            (CheckStatePath(roots, prims, drv, username).Ok? <==>
             declared == MakeStatePath(roots, prims, componentHash, name, stateIdentifier, username).value)
  {
  }
}
