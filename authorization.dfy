/**
 * The `PublicKeyHandler` callback installed on the server (main.go lines
 * 190-197): a presented key is accepted when it is `ssh.KeysEqual` to one of
 * the allowed keys fetched at start-up.
 *
 * Keys are an abstract type `K` and `ssh.KeysEqual` an abstract relation
 * `keysEqual`. An allowed entry is `None` where the key listing held a line
 * that did not parse (Go keeps a nil key there); `KeysEqual` answers false
 * when either key is nil, so such an entry never matches.
 */
module Authorization {
  import opened Wrappers

  /** `ssh.KeysEqual(key, allowed)` with a possibly-nil allowed key. */
  predicate Matches<K>(keysEqual: (K, K) -> bool, key: K, allowed: Option<K>)
  {
    allowed.Some? && keysEqual(key, allowed.value)
  }

  /** Some allowed entry matches the presented key. */
  predicate Accepts<K>(keysEqual: (K, K) -> bool, key: K, allowed: seq<Option<K>>)
  {
    exists i :: 0 <= i < |allowed| && Matches(keysEqual, key, allowed[i])
  }

  /**
   * The callback itself: scan the allowed keys in order and answer true at the
   * first match, false when the list is exhausted. The connection's context
   * (and so the claimed user name) is not consulted.
   */
  method PublicKeyHandler<K>(allowedPublicKeys: seq<Option<K>>, key: K, keysEqual: (K, K) -> bool)
    returns (accepted: bool)
    ensures accepted <==> Accepts(keysEqual, key, allowedPublicKeys)
  {
    for i := 0 to |allowedPublicKeys|
      invariant forall j :: 0 <= j < i ==> !Matches(keysEqual, key, allowedPublicKeys[j])
    {
      if Matches(keysEqual, key, allowedPublicKeys[i]) {
        return true;
      }
    }
    return false;
  }

  /** An empty allowed list rejects every key. */
  lemma EmptyRejects<K>(keysEqual: (K, K) -> bool, key: K)
    ensures !Accepts(keysEqual, key, [])
  {
  }

  /** Accepting against a concatenation is accepting against either part. */
  lemma AcceptsAppend<K>(keysEqual: (K, K) -> bool, key: K, a: seq<Option<K>>, b: seq<Option<K>>)
    ensures Accepts(keysEqual, key, a + b) <==> Accepts(keysEqual, key, a) || Accepts(keysEqual, key, b)
  {
    if Accepts(keysEqual, key, a + b) {
      var i :| 0 <= i < |a + b| && Matches(keysEqual, key, (a + b)[i]);
      if i >= |a| {
        assert Matches(keysEqual, key, b[i - |a|]);
      }
    }
    if Accepts(keysEqual, key, a) {
      var i :| 0 <= i < |a| && Matches(keysEqual, key, a[i]);
      assert (a + b)[i] == a[i];
    }
    if Accepts(keysEqual, key, b) {
      var i :| 0 <= i < |b| && Matches(keysEqual, key, b[i]);
      assert (a + b)[|a| + i] == b[i];
    }
  }

  /** The order (and multiplicity) of the allowed keys does not change the answer. */
  lemma AcceptsPermutation<K>(keysEqual: (K, K) -> bool, key: K, a: seq<Option<K>>, b: seq<Option<K>>)
    requires multiset(a) == multiset(b)
    ensures Accepts(keysEqual, key, a) <==> Accepts(keysEqual, key, b)
  {
    if Accepts(keysEqual, key, a) {
      var i :| 0 <= i < |a| && Matches(keysEqual, key, a[i]);
      assert a[i] in multiset(b);
      var j :| 0 <= j < |b| && b[j] == a[i];
    }
    if Accepts(keysEqual, key, b) {
      var j :| 0 <= j < |b| && Matches(keysEqual, key, b[j]);
      assert b[j] in multiset(a);
      var i :| 0 <= i < |a| && a[i] == b[j];
    }
  }

  /** The allowed list with the unparsable (nil) entries removed, order kept. */
  function Parsed<K>(allowed: seq<Option<K>>): (keys: seq<K>)
    ensures |keys| <= |allowed|
  {
    if allowed == [] then []
    else (if allowed[0].Some? then [allowed[0].value] else []) + Parsed(allowed[1..])
  }

  /** Lift parsed keys back into entries. */
  function AsEntries<K>(keys: seq<K>): (entries: seq<Option<K>>)
    ensures |entries| == |keys|
    ensures forall i :: 0 <= i < |keys| ==> entries[i] == Some(keys[i])
  {
    seq(|keys|, i requires 0 <= i < |keys| => Some(keys[i]))
  }

  /**
   * Unparsable entries are inert: matching against the full list is the same
   * as matching against the well-formed keys alone.
   */
  lemma {:induction false} UnparsableEntriesInert<K>(keysEqual: (K, K) -> bool, key: K, allowed: seq<Option<K>>)
    ensures Accepts(keysEqual, key, allowed) <==> Accepts(keysEqual, key, AsEntries(Parsed(allowed)))
  {
    if allowed != [] {
      var head := if allowed[0].Some? then [allowed[0].value] else [];
      UnparsableEntriesInert(keysEqual, key, allowed[1..]);
      assert allowed == [allowed[0]] + allowed[1..];
      AcceptsAppend(keysEqual, key, [allowed[0]], allowed[1..]);
      assert AsEntries(head + Parsed(allowed[1..])) == AsEntries(head) + AsEntries(Parsed(allowed[1..]));
      AcceptsAppend(keysEqual, key, AsEntries(head), AsEntries(Parsed(allowed[1..])));
      assert Accepts(keysEqual, key, [allowed[0]]) <==> Matches(keysEqual, key, allowed[0]);
      if allowed[0].Some? {
        assert AsEntries(head)[0] == allowed[0];
      }
    }
  }
}
