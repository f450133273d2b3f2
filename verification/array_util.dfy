/** `com.itextpdf.io.util.ArrayUtil`: static helpers over Java arrays. A Java
    array reference is an `Option<seq<_>>` (`None` is `null`); an exception a
    method throws is a `Failure`. */
module ArrayUtil {
  import opened Wrappers
  import opened JavaLang

  function Min(a: int, b: int): int { if a <= b then a else b }

  /** `shortenArray(src, length)`: the first `length` bytes of `src` when
      `length` is shorter than `src`, otherwise `src` itself. */
  function ShortenArray(src: Option<seq<Byte>>, length: Int): (r: Result<seq<Byte>, JavaException>)
    ensures r.Failure? <==> src.None? || length < 0
    ensures src.None? ==> r == Failure(NullPointerException)
    ensures src.Some? && length < 0 ==> r == Failure(NegativeArraySizeException)
    // the result is always a prefix of `src`, as long as `length` allows
    ensures r.Success? ==> |r.value| == Min(length as int, |src.value|)
    ensures r.Success? ==> r.value == src.value[..|r.value|]
    // a length that does not shorten returns `src` with its contents unchanged
    ensures r.Success? && |src.value| <= length as int ==> r.value == src.value
  {
    if src.None? then Failure(NullPointerException)
    else if (length as int) < |src.value| then
      if length < 0 then Failure(NegativeArraySizeException)
      else Success(src.value[..length])
    else Success(src.value)
  }

  /** Shortening twice is shortening once to the smaller length. */
  lemma ShortenArrayTwice(src: seq<Byte>, n: Int, m: Int)
    requires 0 <= m <= n
    ensures ShortenArray(Some(src), n).Success?
    ensures ShortenArray(Some(ShortenArray(Some(src), n).value), m) == ShortenArray(Some(src), m)
  {
    var once := ShortenArray(Some(src), n).value;
    assert once == src[..Min(n as int, |src|)];
    if (m as int) < |once| {
      assert once[..m] == src[..m];
    }
  }

  /** The loop of `toArray`: the elements, in iteration order, unboxed one by
      one. Unboxing a `null` element throws. */
  function Unbox(elements: seq<Option<Int>>): (r: Result<seq<Int>, JavaException>)
    ensures r.Failure? <==> None in elements
    ensures r.Failure? ==> r.error == NullPointerException
    ensures r.Success? ==> |r.value| == |elements|
    ensures r.Success? ==> forall k :: 0 <= k < |elements| ==> elements[k] == Some(r.value[k])
  {
    if |elements| == 0 then Success([])
    else match elements[0]
      case None => Failure(NullPointerException)
      case Some(key) =>
        match Unbox(elements[1..])
        case Failure(e) => Failure(e)
        case Success(rest) => Success([key] + rest)
  }

  /** `toArray(collection)`: the collection's elements, in iteration order,
      unboxed into an `int[]`. A `null` collection throws at `size()`; a
      `null` element throws when it is unboxed. */
  function ToArray(collection: Option<seq<Option<Int>>>): (r: Result<seq<Int>, JavaException>)
    ensures r.Failure? <==> collection.None? || None in collection.value
    ensures r.Failure? ==> r.error == NullPointerException
    ensures r.Success? ==> |r.value| == |collection.value|
    ensures r.Success? ==> forall k :: 0 <= k < |r.value| ==> collection.value[k] == Some(r.value[k])
  {
    match collection
    case None => Failure(NullPointerException)
    case Some(elements) => Unbox(elements)
  }

  /** Every element boxed: the collection a caller builds from `xs`. */
  function Boxed(xs: seq<Int>): (c: seq<Option<Int>>)
    ensures |c| == |xs| && forall k :: 0 <= k < |xs| ==> c[k] == Some(xs[k])
  {
    seq(|xs|, k requires 0 <= k < |xs| => Some(xs[k]))
  }

  /** Round trip: `toArray` of a null-free collection unboxes it exactly. */
  lemma ToArrayOfBoxed(xs: seq<Int>)
    ensures ToArray(Some(Boxed(xs))) == Success(xs)
  {
    var c := Boxed(xs);
    var r := ToArray(Some(c));
    assert r.value == xs;
  }

  function Pow31(n: nat): (p: int)
    ensures p >= 1
  {
    if n == 0 then 1 else 31 * Pow31(n - 1)
  }

  /** `a[0]*31^(n-1) + a[1]*31^(n-2) + ... + a[n-1]`, over unbounded integers. */
  function WeightedSum(a: seq<Byte>): int
  {
    if |a| == 0 then 0 else a[0] as int * Pow31(|a| - 1) + WeightedSum(a[1..])
  }

  /** The array hash without overflow: `31^n + Σ a[i]·31^(n-1-i)`. */
  function Polynomial(a: seq<Byte>): int
  {
    Pow31(|a|) + WeightedSum(a)
  }

  /** The Java `int` the hash denotes: the polynomial taken modulo 2^32. */
  function JavaHash(a: seq<Byte>): Int
  {
    Wrap32(Polynomial(a))
  }

  lemma {:induction false} WeightedSumAppend(a: seq<Byte>, b: Byte)
    ensures WeightedSum(a + [b]) == 31 * WeightedSum(a) + b as int
  {
    if |a| == 0 {
      assert a + [b] == [b];
      assert WeightedSum([b]) == b as int * Pow31(0) + WeightedSum([]);
    } else {
      assert (a + [b])[1..] == a[1..] + [b];
      WeightedSumAppend(a[1..], b);
      assert Pow31(|a|) == 31 * Pow31(|a| - 1);
      assert a[0] as int * Pow31(|a|) == 31 * (a[0] as int * Pow31(|a| - 1));
    }
  }

  /** Horner's step: appending a byte multiplies the polynomial by 31 and adds the byte. */
  lemma PolynomialAppend(a: seq<Byte>, b: Byte)
    ensures Polynomial(a + [b]) == 31 * Polynomial(a) + b as int
  {
    WeightedSumAppend(a, b);
  }

  /** The recurrence the hash loop follows, with Java's 32-bit wrap-around. */
  lemma JavaHashAppend(a: seq<Byte>, b: Byte)
    ensures JavaHash(a + [b]) == Wrap32(31 * (JavaHash(a) as int) + b as int)
  {
    PolynomialAppend(a, b);
    WrapTimes31(Polynomial(a), b as int);
  }

  /** `hashCode(a)`: 0 for `null`, otherwise the Java polynomial byte hash
      computed with `int` overflow, step by step as the Java loop does. */
  method HashCode(a: Option<seq<Byte>>) returns (h: Int)
    ensures a.None? ==> h == 0
    ensures a.Some? ==> h == JavaHash(a.value)
    ensures a.Some? ==> (h as int - Polynomial(a.value)) % TwoTo32 == 0
    ensures a == Some([]) ==> h == 1
  {
    if a.None? {
      return 0;
    }
    var s := a.value;
    h := 1;
    var i := 0;
    while i < |s|
      invariant 0 <= i <= |s|
      invariant h == JavaHash(s[..i])
    {
      // `31 * result` wraps, then `+ element` wraps
      var product := Wrap32(31 * h as int);
      var next := Wrap32(product as int + s[i] as int);
      WrapPlus(31 * h as int, s[i] as int);
      JavaHashAppend(s[..i], s[i]);
      assert s[..i + 1] == s[..i] + [s[i]];
      h := next;
      i := i + 1;
    }
    assert s[..i] == s;
  }
}
