/** Key prefixes as key ranges. */
module Prefix {
  import opened Base

  /** Byte strings in the order the database compares them. */
  predicate Less(a: Bytes, b: Bytes) {
    b != [] && (a == [] || a[0] < b[0] || (a[0] == b[0] && Less(a[1..], b[1..])))
  }

  lemma {:induction false} LessIsTotal(a: Bytes, b: Bytes)
    ensures Less(a, b) || a == b || Less(b, a)
    ensures !(Less(a, b) && Less(b, a)) && !Less(a, a)
    decreases |a|
  {
    if a != [] {
      LessIsTotal(a[1..], a[1..]);
      if b != [] {
        LessIsTotal(a[1..], b[1..]);
        if a[0] == b[0] && a[1..] == b[1..] { assert a == [a[0]] + a[1..] && b == [b[0]] + b[1..]; }
      }
    }
  }

  predicate HasPrefix(key: Bytes, prefix: Bytes) {
    |prefix| <= |key| && key[..|prefix|] == prefix
  }

  /** The least byte string above everything with the prefix, if there is one. */
  function Successor(prefix: Bytes): Option<Bytes> {
    if prefix == [] then None
    else
      match Successor(prefix[1..])
      case Some(rest) => Some([prefix[0]] + rest)
      case None => if prefix[0] < 255 then Some([prefix[0] + 1]) else None
  }

  lemma HeadOfPrefix(key: Bytes, prefix: Bytes)
    requires prefix != []
    ensures HasPrefix(key, prefix) <==> key != [] && key[0] == prefix[0] && HasPrefix(key[1..], prefix[1..])
  {
    if |prefix| <= |key| {
      assert key[..|prefix|] == [key[0]] + key[1..][..|prefix| - 1];
      assert prefix == [prefix[0]] + prefix[1..];
      if HasPrefix(key, prefix) {
        assert key[..|prefix|][0] == prefix[0];
        assert key[1..][..|prefix| - 1] == prefix[1..];
      }
    }
  }

  predicate InRange(key: Bytes, lower: Bytes, upper: Option<Bytes>) {
    !Less(key, lower) && (upper.None? || Less(key, upper.value))
  }

  /** A key has the prefix exactly when it lies between the prefix and its successor, for all
      byte strings, the empty prefix and prefixes of 0xFF bytes included. */
  lemma {:induction false} PrefixIsRange(key: Bytes, prefix: Bytes)
    ensures HasPrefix(key, prefix) <==> InRange(key, prefix, Successor(prefix))
    decreases |prefix|
  {
    if prefix != [] {
      HeadOfPrefix(key, prefix);
      if key != [] {
        PrefixIsRange(key[1..], prefix[1..]);
        match Successor(prefix[1..])
        case Some(rest) => assert ([prefix[0]] + rest)[1..] == rest;
        case None =>
          if prefix[0] < 255 {
            var above: Bytes := [prefix[0] + 1];
            assert above[1..] == [] && !Less(key[1..], []);
          }
      }
    }
  }

  /** Only the last byte below 0xFF and what is before it matter. */
  lemma {:induction false} SuccessorOfSplit(front: Bytes, b: Byte, tail: Bytes)
    requires b < 255 && forall i :: 0 <= i < |tail| ==> tail[i] == 255
    ensures Successor(front + [b] + tail) == Some(front + [b + 1])
    decreases |front|
  {
    if front == [] {
      AllMaxHasNone(tail);
      assert (front + [b] + tail)[1..] == tail && front + [b + 1] == [b + 1];
    } else {
      SuccessorOfSplit(front[1..], b, tail);
      assert (front + [b] + tail)[1..] == front[1..] + [b] + tail;
      assert [front[0]] + (front[1..] + [b + 1]) == front + [b + 1];
    }
  }

  lemma {:induction false} AllMaxHasNone(tail: Bytes)
    requires forall i :: 0 <= i < |tail| ==> tail[i] == 255
    ensures Successor(tail) == None
  {
    if tail != [] { AllMaxHasNone(tail[1..]); }
  }

  /** `PrefixSuccessor`: increments the last byte of a copy that is not 0xFF. */
  method PrefixSuccessor(prefix: Bytes) returns (r: Option<Bytes>)
    ensures r == Successor(prefix)
  {
    var result := new Byte[|prefix|](i requires 0 <= i < |prefix| => prefix[i]);
    var i := |prefix| - 1;
    while i >= 0
      invariant -1 <= i < |prefix| && result[..] == prefix
      invariant forall k :: i < k < |prefix| ==> prefix[k] == 255
    {
      if result[i] != 255 {
        SuccessorOfSplit(prefix[..i], prefix[i], prefix[i + 1..]);
        assert prefix == prefix[..i] + [prefix[i]] + prefix[i + 1..];
        result[i] := result[i] + 1;
        assert result[..i + 1] == prefix[..i] + [prefix[i] + 1];
        return Some(result[..i + 1]);
      }
      i := i - 1;
    }
    AllMaxHasNone(prefix);
    return None;
  }

  // ---- The bounds of a filtered read ----------------------------------------

  /** The three alternatives of the filtered read, as its WHERE clauses have them. A
      comparison with no bound is not true. */
  predicate Unbounded(lower: Option<Bytes>) {
    lower.None?
  }

  predicate FromOn(lower: Option<Bytes>, upper: Option<Bytes>, key: Bytes) {
    lower.Some? && upper.None? && !Less(key, lower.value)
  }

  predicate Between(lower: Option<Bytes>, upper: Option<Bytes>, key: Bytes) {
    lower.Some? && upper.Some? && !Less(key, lower.value) && Less(key, upper.value)
  }

  /** The bounds a cursor passes for its prefix: none at all for the empty prefix. */
  function LowerBound(prefix: Bytes): Option<Bytes> {
    if prefix == [] then None else Some(prefix)
  }

  /** Exactly one alternative applies to a key with the prefix, and none to any other key. */
  lemma BranchesCoverPrefix(prefix: Bytes, key: Bytes)
    ensures var lower, upper := LowerBound(prefix), Successor(prefix);
            && (HasPrefix(key, prefix) <==> Unbounded(lower) || FromOn(lower, upper, key) || Between(lower, upper, key))
            && !(Unbounded(lower) && FromOn(lower, upper, key))
            && !(Unbounded(lower) && Between(lower, upper, key))
            && !(FromOn(lower, upper, key) && Between(lower, upper, key))
  {
    PrefixIsRange(key, prefix);
  }
}
