/** Values shared by the other modules: optional results, lexicographic order and subsequences. */
module Prelude {

  datatype Option<+T> = None | Some(value: T)

  datatype Result<+T> = Ok(value: T) | Err(message: string)

  /** Lexicographic comparison of two sequences under a comparison of their elements. */
  predicate LexLess<T(==)>(less: (T, T) -> bool, a: seq<T>, b: seq<T>) {
    if b == [] then false
    else if a == [] then true
    else if a[0] == b[0] then LexLess(less, a[1..], b[1..])
    else less(a[0], b[0])
  }

  ghost predicate StrictTotal<T(!new)>(less: (T, T) -> bool) {
    && (forall x :: !less(x, x))
    && (forall x, y :: less(x, y) ==> !less(y, x))
    && (forall x, y, z :: less(x, y) && less(y, z) ==> less(x, z))
    && (forall x, y :: less(x, y) || x == y || less(y, x))
  }

  lemma {:induction false} LexIrreflexive<T(!new)>(less: (T, T) -> bool, a: seq<T>)
    ensures !LexLess(less, a, a)
  {
    if a != [] {
      LexIrreflexive(less, a[1..]);
    }
  }

  lemma {:induction false} LexTransitive<T(!new)>(less: (T, T) -> bool, a: seq<T>, b: seq<T>, c: seq<T>)
    requires StrictTotal(less)
    requires LexLess(less, a, b) && LexLess(less, b, c)
    ensures LexLess(less, a, c)
  {
    if a != [] && a[0] == b[0] && b[0] == c[0] {
      LexTransitive(less, a[1..], b[1..], c[1..]);
    }
  }

  lemma {:induction false} LexTrichotomy<T(!new)>(less: (T, T) -> bool, a: seq<T>, b: seq<T>)
    requires StrictTotal(less)
    ensures LexLess(less, a, b) || a == b || LexLess(less, b, a)
  {
    if a != [] && b != [] && a[0] == b[0] {
      LexTrichotomy(less, a[1..], b[1..]);
      if a[1..] == b[1..] {
        assert a == [a[0]] + a[1..] == b;
      }
    }
  }

  /** A common prefix does not affect the comparison. */
  lemma {:induction false} LexCommonPrefix<T(!new)>(less: (T, T) -> bool, p: seq<T>, a: seq<T>, b: seq<T>)
    ensures LexLess(less, p + a, p + b) == LexLess(less, a, b)
  {
    if p == [] {
      assert p + a == a && p + b == b;
    } else {
      assert (p + a)[1..] == p[1..] + a && (p + b)[1..] == p[1..] + b;
      LexCommonPrefix(less, p[1..], a, b);
    }
  }
}

/** Order-preserving selection: `a` can be read off `b` by skipping elements. */
module Subsequences {

  ghost predicate Subseq<T>(a: seq<T>, b: seq<T>) {
    || a == []
    || (b != [] && a[|a| - 1] == b[|b| - 1] && Subseq(a[..|a| - 1], b[..|b| - 1]))
    || (b != [] && Subseq(a, b[..|b| - 1]))
  }

  lemma NothingSkipped<T>()
    ensures Subseq<T>([], [])
  {
  }

  lemma {:induction false} SubseqSkip<T>(a: seq<T>, b: seq<T>, c: seq<T>)
    requires Subseq(a, b)
    ensures Subseq(a, b + c)
  {
    if c == [] {
      assert b + c == b;
    } else {
      SubseqSkip(a, b, c[..|c| - 1]);
      assert (b + c)[..|b + c| - 1] == b + c[..|c| - 1];
    }
  }

  lemma {:induction false} SubseqTake<T>(a: seq<T>, b: seq<T>, c: seq<T>)
    requires Subseq(a, b)
    ensures Subseq(a + c, b + c)
  {
    if c == [] {
      assert a + c == a && b + c == b;
    } else {
      SubseqTake(a, b, c[..|c| - 1]);
      assert (a + c)[..|a + c| - 1] == a + c[..|c| - 1];
      assert (b + c)[..|b + c| - 1] == b + c[..|c| - 1];
    }
  }

  lemma {:induction false} SubseqMember<T>(a: seq<T>, b: seq<T>, x: T)
    requires Subseq(a, b) && x in a
    ensures x in b
  {
    var front := b[..|b| - 1];
    if Subseq(a, front) {
      SubseqMember(a, front, x);
    } else if x in a[..|a| - 1] {
      SubseqMember(a[..|a| - 1], front, x);
    }
  }
}

/** Bytes and numbers written most significant byte first. */
module Octets {
  type Byte = n: nat | n < 0x100

  /** The last `width` bytes of a number. */
  function BigEndian(n: nat, width: nat): (r: seq<Byte>)
    ensures |r| == width
  {
    if width == 0 then [] else BigEndian(n / 0x100, width - 1) + [n % 0x100]
  }

  function Number(bytes: seq<Byte>): nat {
    if bytes == [] then 0 else Number(bytes[..|bytes| - 1]) * 0x100 + bytes[|bytes| - 1]
  }

  function Power256(width: nat): nat {
    if width == 0 then 1 else 0x100 * Power256(width - 1)
  }

  lemma {:induction false} NumberOfBigEndian(n: nat, width: nat)
    requires n < Power256(width)
    ensures Number(BigEndian(n, width)) == n
  {
    if width > 0 {
      NumberOfBigEndian(n / 0x100, width - 1);
      assert BigEndian(n, width)[..width - 1] == BigEndian(n / 0x100, width - 1);
    }
  }
}
