/** The 13-byte flow keys of the sketch, copied with strncpy and compared with strncmp. */
module Keys {
  import opened Words

  const KEY_LENGTH: nat := 13

  type Key = k: seq<uint8> | |k| == KEY_LENGTH witness [0, 0, 0, 0, 0, 0, 0, 0, 0, 0, 0, 0, 0]

  const ZERO_KEY: Key := [0, 0, 0, 0, 0, 0, 0, 0, 0, 0, 0, 0, 0]

  /** strncmp(a, b, |a|) == 0: equal up to the first zero byte, or throughout. */
  predicate SameString(a: seq<uint8>, b: seq<uint8>)
    requires |a| == |b|
  {
    a == [] || (a[0] == b[0] && (a[0] == 0 || SameString(a[1..], b[1..])))
  }

  /** strncpy: copies up to the first zero byte and pads with zeros. */
  function CopyString(a: seq<uint8>): (r: seq<uint8>)
    ensures |r| == |a|
  {
    if a == [] then [] else if a[0] == 0 then seq(|a|, _ => 0) else [a[0]] + CopyString(a[1..])
  }

  /** The key is not the empty string, by which an empty slot is recognised. */
  predicate Nonempty(k: Key) {
    k[0] != 0
  }

  /** A key the string functions treat faithfully: it survives a copy and is not empty. */
  predicate Proper(k: Key) {
    CopyString(k) == k && Nonempty(k)
  }

  /** Two buffers compare equal exactly when their copies are the same bytes. */
  lemma {:induction false} SameStringIsSameCopy(a: seq<uint8>, b: seq<uint8>)
    requires |a| == |b|
    ensures SameString(a, b) <==> CopyString(a) == CopyString(b)
  {
    if a != [] {
      SameStringIsSameCopy(a[1..], b[1..]);
      if CopyString(a) == CopyString(b) {
        assert CopyString(a)[0] == a[0] && CopyString(b)[0] == b[0];
        if a[0] != 0 { assert CopyString(a)[1..] == CopyString(a[1..]) && CopyString(b)[1..] == CopyString(b[1..]); }
      }
    }
  }

  lemma CopyZeros(n: nat)
    ensures CopyString(seq(n, _ => 0)) == seq(n, _ => 0)
  {
  }

  lemma {:induction false} CopyTwice(a: seq<uint8>)
    ensures CopyString(CopyString(a)) == CopyString(a)
  {
    if a != [] {
      if a[0] == 0 {
        CopyZeros(|a|);
      } else {
        CopyTwice(a[1..]);
        assert CopyString(a)[1..] == CopyString(a[1..]);
      }
    }
  }

  /** What is stored for a key that is not empty is proper. */
  lemma CopyIsProper(k: Key)
    requires Nonempty(k)
    ensures Proper(CopyString(k))
  {
    CopyTwice(k);
  }

  /** A stored key compares equal to a key exactly when it is the copy of that key. */
  lemma StoredKeys(stored: Key, key: Key)
    requires Nonempty(key) && (Proper(stored) || stored == ZERO_KEY)
    ensures SameString(stored, key) <==> stored == CopyString(key)
    ensures CopyString(key) != ZERO_KEY
  {
    CopyZeros(13);
    CopyIsProper(key);
    SameStringIsSameCopy(stored, key);
  }

  /** On proper keys the string comparison is equality, and none of them is the empty key. */
  lemma ProperKeys(a: Key, b: Key)
    requires Proper(a) && (Proper(b) || b == ZERO_KEY)
    ensures SameString(a, b) <==> a == b
    ensures SameString(b, a) <==> a == b
    ensures b == ZERO_KEY ==> a != b
  {
    CopyZeros(13);
    SameStringIsSameCopy(a, b);
    SameStringIsSameCopy(b, a);
  }
}
