/**
 * Small shared vocabulary: the optional value that stands for a C pointer
 * that may be NULL, and the unsigned 32-bit integer of the wire protocols.
 */
module Common {

  /** A value that may be absent (a NULL pointer in the C code). */
  datatype Option<T> = None | Some(value: T) {
    function GetOr(default: T): T {
      match this
      case Some(v) => v
      case None => default
    }
  }

  const U32_LIMIT: int := 0x1_0000_0000

  /** `uint32_t`: window ids, the D-Bus `u` type. */
  type u32 = x: int | 0 <= x < U32_LIMIT

  /** `s` with every `-` deleted and the other characters kept in order. */
  function RemoveHyphens(s: string): (r: string)
    ensures |r| <= |s|
  {
    if s == [] then []
    else (if s[0] == '-' then [] else [s[0]]) + RemoveHyphens(s[1..])
  }

  /** No hyphen is left, and a string without hyphens is returned as it is. */
  lemma {:induction false} RemoveHyphensClean(s: string)
    ensures '-' !in RemoveHyphens(s)
    ensures '-' !in s ==> RemoveHyphens(s) == s
  {
    if s != [] {
      RemoveHyphensClean(s[1..]);
      assert '-' !in s ==> s[0] != '-' && '-' !in s[1..] && s == [s[0]] + s[1..];
    }
  }

  /** Deleting hyphens distributes over concatenation. */
  lemma {:induction false} RemoveHyphensAppend(a: string, b: string)
    ensures RemoveHyphens(a + b) == RemoveHyphens(a) + RemoveHyphens(b)
  {
    if a == [] {
      assert a + b == b;
    } else {
      assert (a + b)[0] == a[0] && (a + b)[1..] == a[1..] + b;
      RemoveHyphensAppend(a[1..], b);
    }
  }

  /** Strictly increasing, hence also free of duplicates. */
  predicate Ascending(s: seq<int>) {
    forall i, j :: 0 <= i < j < |s| ==> s[i] < s[j]
  }
}
