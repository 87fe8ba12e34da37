/** The placeholder picture of the news card in app/components/NewsCard.tsx:
    `getFallbackImage` hashes the title's UTF-16 code units into a signed
    32-bit integer and picks one of 15 pictures; `imageUrl` prefers the
    article's own picture. */
module NewsCard {
  import opened Types
  import opened Placeholders

  const TwoTo31: int := 0x8000_0000
  const TwoTo32: int := 0x1_0000_0000

  /** The 32-bit signed integers. */
  predicate IsInt32(x: int) {
    -TwoTo31 <= x < TwoTo31
  }

  /** a and b are equal modulo 2^32. */
  predicate Congruent(a: int, b: int) {
    (a - b) % TwoTo32 == 0
  }

  /** ECMAScript's ToInt32, applied by `x & x` and by `<<`: the signed 32-bit
      integer congruent to x modulo 2^32. */
  function ToInt32(x: int): (r: int)
    ensures IsInt32(r)
    ensures Congruent(r, x)
  {
    (x + TwoTo31) % TwoTo32 - TwoTo31
  }

  /** ToInt32 leaves a 32-bit integer unchanged. */
  lemma ToInt32OfInt32(x: int)
    requires IsInt32(x)
    ensures ToInt32(x) == x
  {
  }

  /** ToInt32 depends only on its argument modulo 2^32. */
  lemma ToInt32Congruent(a: int, b: int)
    requires Congruent(a, b)
    ensures ToInt32(a) == ToInt32(b)
  {
    var k := (a - b) / TwoTo32;
    assert a == b + TwoTo32 * k;
    assert (a + TwoTo31) % TwoTo32 == (b + TwoTo31) % TwoTo32 by {
      ModShift(b + TwoTo31, k);
    }
  }

  lemma ModShift(x: int, k: int)
    ensures (x + TwoTo32 * k) % TwoTo32 == x % TwoTo32
  {
    var q := x / TwoTo32;
    var r := x % TwoTo32;
    assert x + TwoTo32 * k == TwoTo32 * (q + k) + r;
  }

  lemma CongruentScale(a: int, b: int, m: int, c: int)
    requires Congruent(a, b)
    ensures Congruent(m * a + c, m * b + c)
  {
    var k := (a - b) / TwoTo32;
    assert a - b == TwoTo32 * k;
    assert (m * a + c) - (m * b + c) == m * (a - b);
    assert m * (a - b) == TwoTo32 * (m * k);
    ModShift(0, m * k);
  }

  // ---------------------------------------------------------------
  // UTF-16: the units `title.length` counts and `charCodeAt` returns
  // ---------------------------------------------------------------

  /** The UTF-16 encoding of one character: one unit below U+10000, else a surrogate pair. */
  function Utf16(c: char): (u: seq<int>)
    ensures |u| == (if c as int < 0x1_0000 then 1 else 2)
    ensures forall i :: 0 <= i < |u| ==> 0 <= u[i] < 0x1_0000
  {
    var n := c as int;
    if n < 0x1_0000 then [n]
    else [0xD800 + (n - 0x1_0000) / 0x400, 0xDC00 + (n - 0x1_0000) % 0x400]
  }

  /** The code point a one-unit sequence or a surrogate pair stands for. */
  function CodePoint(u: seq<int>): int
    requires 1 <= |u| <= 2
  {
    if |u| == 1 then u[0] else 0x1_0000 + (u[0] - 0xD800) * 0x400 + (u[1] - 0xDC00)
  }

  /** Every character's encoding decodes back to it; the two units of a pair are a high and a low surrogate. */
  lemma Utf16RoundTrip(c: char)
    ensures CodePoint(Utf16(c)) == c as int
    ensures |Utf16(c)| == 2 ==> 0xD800 <= Utf16(c)[0] < 0xDC00 <= Utf16(c)[1] < 0xE000
  {
    var n := c as int;
    if n >= 0x1_0000 {
      var d := n - 0x1_0000;
      assert d == (d / 0x400) * 0x400 + d % 0x400;
      assert d < 0x10_0000;
    }
  }

  /** The code units of a string, in order. */
  function CodeUnits(s: string): (u: seq<int>)
    ensures |s| <= |u| <= 2 * |s|
    ensures forall i :: 0 <= i < |u| ==> 0 <= u[i] < 0x1_0000
  {
    if s == [] then [] else CodeUnits(s[..|s| - 1]) + Utf16(s[|s| - 1])
  }

  /** A string with no character beyond U+FFFF has one unit per character, equal to its code. */
  lemma {:induction false} CodeUnitsBasic(s: string)
    requires forall i :: 0 <= i < |s| ==> s[i] as int < 0x1_0000
    ensures |CodeUnits(s)| == |s|
    ensures forall i :: 0 <= i < |s| ==> CodeUnits(s)[i] == s[i] as int
  {
    if s != [] {
      var n := |s| - 1;
      CodeUnitsBasic(s[..n]);
      assert forall i :: 0 <= i < n ==> s[..n][i] == s[i];
    }
  }

  // ---------------------------------------------------------------
  // The hash
  // ---------------------------------------------------------------

  /** The hash after reading `units`, starting from 0: each unit c takes h to the
      signed 32-bit wrap of 31·h + c. */
  function StringHash(units: seq<int>): (h: int)
    ensures IsInt32(h)
  {
    if units == [] then 0
    else ToInt32(31 * StringHash(units[..|units| - 1]) + units[|units| - 1])
  }

  /** The unwrapped polynomial hash, Σ units[i]·31^(n-1-i). */
  function PolyHash(units: seq<int>): int {
    if units == [] then 0 else 31 * PolyHash(units[..|units| - 1]) + units[|units| - 1]
  }

  /** Wrapping after every step gives the 32-bit wrap of the polynomial hash. */
  lemma {:induction false} StringHashIsWrappedPolyHash(units: seq<int>)
    ensures StringHash(units) == ToInt32(PolyHash(units))
  {
    if units != [] {
      var front := units[..|units| - 1];
      var c := units[|units| - 1];
      StringHashIsWrappedPolyHash(front);
      // StringHash(front) ≡ PolyHash(front), so one more step keeps them congruent.
      assert Congruent(StringHash(front), PolyHash(front));
      CongruentScale(StringHash(front), PolyHash(front), 31, c);
      ToInt32Congruent(31 * StringHash(front) + c, 31 * PolyHash(front) + c);
    }
  }

  /** One iteration as JavaScript evaluates it: `hash << 5` wraps 32·hash, the
      subtraction and addition are exact on doubles of this size, and `hash & hash`
      wraps the sum; together that is the wrap of 31·hash + c. */
  lemma ShiftStep(hash: int, c: int)
    ensures ToInt32(ToInt32(hash * 32) - hash + c) == ToInt32(31 * hash + c)
  {
    var shifted := ToInt32(hash * 32);
    assert Congruent(shifted, hash * 32);
    var k := (shifted - hash * 32) / TwoTo32;
    assert shifted - hash * 32 == TwoTo32 * k;
    assert (shifted - hash + c) == (31 * hash + c) + TwoTo32 * k;
    ModShift(31 * hash + c - (31 * hash + c), k);
    ToInt32Congruent(shifted - hash + c, 31 * hash + c);
  }

  /** `Math.abs(hash) % aiImages.length`. */
  function FallbackIndex(title: string): (i: nat)
    ensures i < |ApiPool|
  {
    Abs(StringHash(CodeUnits(title))) % |ApiPool|
  }

  /** `getFallbackImage(title)`: hashes the title in a loop and returns the picture at that index. */
  method GetFallbackImage(title: string) returns (url: string)
    ensures url == ApiPool[FallbackIndex(title)]
  {
    var units := CodeUnits(title);
    var hash := 0;
    for i := 0 to |units|
      invariant IsInt32(hash)
      invariant hash == StringHash(units[..i])
    {
      var ch := units[i];
      assert units[..i + 1][..i] == units[..i];
      ShiftStep(hash, ch);
      hash := ToInt32(ToInt32(hash * 32) - hash + ch);
    }
    assert units[..|units|] == units;
    var index := Abs(hash) % |ApiPool|;
    url := ApiPool[index];
  }

  /** An empty title hashes to 0 and gets the first picture. */
  lemma EmptyTitleFallback()
    ensures FallbackIndex("") == 0
    ensures ApiPool[FallbackIndex("")] == Unsplash(Photo1677442136019)
  {
    assert CodeUnits("") == [];
  }

  /** The hash of the most negative 32-bit value still indexes the pool (|−2^31| mod 15 = 8). */
  lemma MinInt32Index(title: string)
    requires StringHash(CodeUnits(title)) == -TwoTo31
    ensures FallbackIndex(title) == 8
  {
    assert |ApiPool| == |ApiPhotos| == 15;
    assert Abs(-TwoTo31) == TwoTo31 == 15 * 143165576 + 8;
  }

  /** `article.image || getFallbackImage(article.title)`: the article's own picture when
      it is present and non-empty, else the title's placeholder. */
  function ImageUrl(image: Option<string>, title: string): (url: string)
    ensures Truthy(image) ==> url == image.value
    ensures !Truthy(image) ==> url == ApiPool[FallbackIndex(title)]
  {
    if Truthy(image) then image.value else ApiPool[FallbackIndex(title)]
  }

  /** The card never shows an empty picture address. */
  lemma ImageUrlNonEmpty(image: Option<string>, title: string)
    ensures ImageUrl(image, title) != ""
  {
    PoolsNonEmpty();
  }
}
