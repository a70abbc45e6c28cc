/** The name validator: which strings may serve as the suffix of a store
    path, a state identifier, or the name of a derivation output. */
module StoreNames {
  import opened StoreBase

  /** The punctuation allowed in names besides letters and digits. */
  const ValidSpecials: string := "+-._?="

  predicate IsNameChar(c: char) {
    ('A' <= c <= 'Z') || ('a' <= c <= 'z') || ('0' <= c <= '9') || c in ValidSpecials
  }

  predicate StartsWithDot(name: string) {
    |name| > 0 && name[0] == '.'
  }

  /** The accept set: no leading dot, and every character from the alphabet.
      The empty name is accepted. */
  predicate ValidStoreName(name: string) {
    !StartsWithDot(name) && forall i :: 0 <= i < |name| ==> IsNameChar(name[i])
  }

  /** `k` is the position of the first character outside the alphabet. */
  predicate IsFirstInvalid(name: string, k: int) {
    0 <= k < |name| && !IsNameChar(name[k]) && forall j :: 0 <= j < k ==> IsNameChar(name[j])
  }

  /** The scan from `from` onwards for a character outside the alphabet. */
  function FirstInvalidFrom(name: string, from: nat): (r: Option<nat>)
    requires forall j :: 0 <= j < from && j < |name| ==> IsNameChar(name[j])
    decreases |name| - from
    ensures r.Some? ==> IsFirstInvalid(name, r.value)
    ensures r.None? <==> forall j :: 0 <= j < |name| ==> IsNameChar(name[j])
  {
    if from >= |name| then None
    else if !IsNameChar(name[from]) then Some(from)
    else FirstInvalidFrom(name, from + 1)
  }

  /** checkStoreName: the leading-dot rule first, then the first character
      outside the alphabet, reported together with the whole name. */
  function CheckStoreName(name: string): (r: Result<()>)
    ensures r.Ok? <==> ValidStoreName(name)
    ensures StartsWithDot(name) ==> r == Fail(IllegalName(name))
    ensures r.Fail? && !StartsWithDot(name) ==>
      exists k :: IsFirstInvalid(name, k) && r.error == InvalidCharacter(name[k], name)
  {
    if StartsWithDot(name) then Fail(IllegalName(name))
    else match FirstInvalidFrom(name, 0)
      case None => Ok(())
      case Some(k) => Fail(InvalidCharacter(name[k], name))
  }

  /** A valid name contains neither a path separator nor a colon, so it can
      neither reach below a root nor blur the fields of a descriptor. */
  lemma ValidNameHasNoSeparators(name: string)
    requires ValidStoreName(name)
    ensures '/' !in name && ':' !in name
  {
  }

  /** "." and ".." are rejected by the leading-dot rule, whatever follows. */
  lemma DotNamesRejected(rest: string)
    ensures CheckStoreName("." + rest) == Fail(IllegalName("." + rest))
  {
    assert StartsWithDot("." + rest);
  }

  /** There is at most one first invalid position. */
  lemma FirstInvalidUnique(name: string, k1: int, k2: int)
    requires IsFirstInvalid(name, k1) && IsFirstInvalid(name, k2)
    ensures k1 == k2
  {
  }

  /** A name is reported at its first bad character, e.g. the space in "foo bar". */
  lemma FirstBadCharacterReported(prefix: string, c: char, rest: string)
    requires ValidStoreName(prefix) && !IsNameChar(c)
    ensures CheckStoreName(prefix + [c] + rest) == Fail(InvalidCharacter(c, prefix + [c] + rest))
  {
    var name := prefix + [c] + rest;
    assert name[|prefix|] == c;
    assert forall j :: 0 <= j < |prefix| ==> name[j] == prefix[j];
    assert !StartsWithDot(name);
    assert IsFirstInvalid(name, |prefix|);
    var r := FirstInvalidFrom(name, 0);
    assert r.Some?;
    FirstInvalidUnique(name, r.value, |prefix|);
  }

  /** Every character of the alphabet may appear, e.g. "foo+bar_1.2?3=4". */
  lemma AlphabetAccepted()
    ensures CheckStoreName("foo+bar_1.2?3=4") == Ok(())
  {
  }
}
