/** Shared vocabulary of the store path-naming core: paths, hashes, the three
    configured roots, the opaque hashing and encoding primitives, and the
    failure kinds every operation reports instead of throwing. */
module StoreBase {

  /** A path is a plain string; nothing about it is assumed until classified. */
  type Path = string

  newtype Byte = x: int | 0 <= x < 256

  datatype HashType = MD5 | SHA1 | SHA256

  /** A digest together with the algorithm that produced it. */
  datatype Hash = Hash(kind: HashType, digest: seq<Byte>)

  datatype Option<+T> = None | Some(value: T)

  /** The failures the core can report; each carries the offending value,
      except MissingSubfolder, whose cause is the empty subfolder itself. */
  datatype Error =
    | IllegalName(name: string)                  // a name that starts with '.'
    | InvalidCharacter(c: char, name: string)    // first character outside the name alphabet
    | NotInStore(path: Path)
    | NotInStateStore(path: Path)
    | MissingSubfolder
    | SpoofedStatePath(declared: Path, calculated: Path)

  /** Exceptions thrown by the C++ code become explicit failure values. */
  datatype Result<+T> = Ok(value: T) | Fail(error: Error) {
    predicate IsFailure() {
      Fail?
    }

    function PropagateFailure<U>(): Result<U>
      requires Fail?
    {
      Fail(error)
    }

    function Extract(): T
      requires Ok?
    {
      value
    }
  }

  /** The read-only configuration: the immutable store root, the state
      store root and the state-repository root. */
  datatype Roots = Roots(store: Path, state: Path, stateRepos: Path)

  /** A configured root is absolute. */
  predicate ValidRoot(root: Path) {
    |root| > 0 && root[0] == '/'
  }

  /** The hashing and textual-encoding primitives the core builds on. They
      are external to the core and left uninterpreted: any functions of
      these signatures may be supplied. */
  datatype Primitives = Primitives(
    hashString: (HashType, string) -> Hash,
    printHash: Hash -> string,
    printHash32: Hash -> string,
    compressHash: (Hash, nat) -> Hash)

  /** The one assumption made about the primitives: the base-32 rendering
      of a hash never contains a path separator. */
  ghost predicate SlashFreeEncoding(prims: Primitives) {
    forall h :: '/' !in prims.printHash32(h)
  }

  /** The name-part of every content address: the SHA-256 hash of a
      descriptor, compressed to 20 bytes and printed in base 32. */
  function EncodedDigest(prims: Primitives, descriptor: string): (e: string)
    ensures SlashFreeEncoding(prims) ==> '/' !in e
  {
    prims.printHash32(prims.compressHash(prims.hashString(SHA256, descriptor), 20))
  }

  /** The `-stateIdentifier` tail of state and repository paths: present only
      for a non-empty identifier. */
  function IdentifierTail(stateIdentifier: string): (t: string)
    ensures t == "" <==> stateIdentifier == ""
    ensures t != "" ==> t[0] == '-' && t[1..] == stateIdentifier
  {
    if stateIdentifier == "" then "" else "-" + stateIdentifier
  }

  /** Two strings that agree around a middle part agree on the middle part. */
  lemma CancelAround<T>(a: seq<T>, x: seq<T>, y: seq<T>, b: seq<T>)
    requires a + x + b == a + y + b
    ensures x == y
  {
    assert |x| == |y|;
    assert x == (a + x + b)[|a|..|a| + |x|];
    assert y == (a + y + b)[|a|..|a| + |y|];
  }
}
