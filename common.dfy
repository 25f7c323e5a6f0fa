/** Values shared by the services and the portal: optional values, HTTP error
    responses, the ASCII case mapping behind Python's `lower`/`upper` and
    JavaScript comparisons, Python's `in` on strings, Python's slice
    `s[a:b]`, and the decimal formatting behind `f"{n:03d}"`. */
module Common {

  datatype Option<+T> = None | Some(value: T)

  /** An `HTTPException` as FastAPI sends it: status code, `detail` text and
      whether a `WWW-Authenticate: Bearer` header is attached. */
  datatype HttpError = HttpError(status: int, detail: string, bearerChallenge: bool)

  /** A handler's outcome: the response model, or the exception it raised. */
  datatype Result<+T> = Ok(value: T) | Err(error: HttpError)

  // ---------------------------------------------------------------------
  // ASCII case mapping

  function LowerChar(c: char): char
  {
    if 'A' <= c <= 'Z' then (c as int + 32) as char else c
  }

  function UpperChar(c: char): char
  {
    if 'a' <= c <= 'z' then (c as int - 32) as char else c
  }

  /** `s.lower()` for ASCII text. */
  function Lower(s: string): (r: string)
    ensures |r| == |s|
    ensures forall i :: 0 <= i < |s| ==> r[i] == LowerChar(s[i])
  {
    seq(|s|, i requires 0 <= i < |s| => LowerChar(s[i]))
  }

  /** `s.upper()` for ASCII text. */
  function Upper(s: string): (r: string)
    ensures |r| == |s|
    ensures forall i :: 0 <= i < |s| ==> r[i] == UpperChar(s[i])
  {
    seq(|s|, i requires 0 <= i < |s| => UpperChar(s[i]))
  }

  lemma LowerIdempotent(s: string)
    ensures Lower(Lower(s)) == Lower(s)
  {
  }

  /** The lower-cased text never holds an upper-case ASCII letter. */
  lemma LowerHasNoCapitals(s: string)
    ensures forall i :: 0 <= i < |Lower(s)| ==> !('A' <= Lower(s)[i] <= 'Z')
  {
  }

  // ---------------------------------------------------------------------
  // Substrings: Python's `q in s`

  predicate StartsWith(s: string, q: string)
  {
    |q| <= |s| && s[..|q|] == q
  }

  /** `q in s` on Python strings: `q` occurs somewhere in `s` (the empty
      string occurs in every string). */
  predicate Contains(s: string, q: string)
    decreases |s|
  {
    StartsWith(s, q) || (|s| > 0 && Contains(s[1..], q))
  }

  /** An occurrence of `q` in `s` at offset `i`. */
  ghost predicate OccursAt(s: string, q: string, i: int)
  {
    0 <= i && i + |q| <= |s| && s[i..i + |q|] == q
  }

  /** The scanning definition of `Contains` agrees with the positional one. */
  lemma ContainsIffOccurs(s: string, q: string)
    ensures Contains(s, q) <==> exists i :: OccursAt(s, q, i)
  {
    if Contains(s, q) {
      var i := ContainsWitness(s, q);
    }
    forall i | OccursAt(s, q, i) ensures Contains(s, q) {
      OccursAtContains(s, q, i);
    }
  }

  /** An offset at which a contained string occurs. */
  lemma {:induction false} ContainsWitness(s: string, q: string) returns (i: int)
    requires Contains(s, q)
    ensures OccursAt(s, q, i)
    decreases |s|
  {
    if StartsWith(s, q) {
      i := 0;
    } else {
      var j := ContainsWitness(s[1..], q);
      assert s[1..][j..j + |q|] == s[j + 1..j + 1 + |q|];
      i := j + 1;
    }
  }

  /** A string that occurs at some offset is contained. */
  lemma {:induction false} OccursAtContains(s: string, q: string, i: int)
    requires OccursAt(s, q, i)
    ensures Contains(s, q)
    decreases i
  {
    if i > 0 {
      assert s[1..][i - 1..i - 1 + |q|] == s[i..i + |q|];
      OccursAtContains(s[1..], q, i - 1);
    }
  }

  /** Every string contains the empty string and itself. */
  lemma ContainsTrivial(s: string)
    ensures Contains(s, "") && Contains(s, s)
  {
    assert s[..|s|] == s;
  }

  // ---------------------------------------------------------------------
  // Python slices

  /** The bound `a` of `s[a:b]` normalised for a sequence of length `n`:
      a negative bound counts from the end, then both are clamped to
      `[0, n]`. */
  function SliceBound(a: int, n: nat): (r: nat)
    ensures r <= n
    ensures 0 <= a <= n ==> r == a
    ensures a > n ==> r == n
    ensures a < 0 ==> r == if a + n < 0 then 0 else a + n
  {
    if a < 0 then (if a + n < 0 then 0 else a + n) else if a > n then n else a
  }

  /** Python's `s[a:b]` (step 1), for any integer bounds. */
  function PySlice<T>(s: seq<T>, a: int, b: int): (r: seq<T>)
    ensures |r| <= |s|
  {
    var lo := SliceBound(a, |s|);
    var hi := SliceBound(b, |s|);
    if lo < hi then s[lo..hi] else []
  }

  /** With non-negative bounds a slice `s[skip:skip + limit]` holds at most
      `limit` elements, and exactly the elements of `s` from `skip` on. */
  lemma PySliceWindow<T>(s: seq<T>, skip: int, limit: int)
    requires skip >= 0 && limit >= 0
    ensures |PySlice(s, skip, skip + limit)| <= limit
    ensures skip + limit <= |s| ==> PySlice(s, skip, skip + limit) == s[skip..skip + limit]
    ensures skip <= |s| < skip + limit ==> PySlice(s, skip, skip + limit) == s[skip..]
    ensures skip >= |s| ==> PySlice(s, skip, skip + limit) == []
  {
  }

  /** A prefix one element longer is the prefix with that element appended
      (the step of every loop over a sequence). */
  lemma PrefixSnoc<T>(s: seq<T>, i: int)
    requires 0 <= i < |s|
    ensures s[..i + 1] == s[..i] + [s[i]]
  {
  }

  // ---------------------------------------------------------------------
  // Decimal numerals

  function DigitChar(d: nat): char
    requires d < 10
  {
    ('0' as int + d) as char
  }

  predicate IsDigit(c: char)
  {
    '0' <= c <= '9'
  }

  function DigitValue(c: char): nat
    requires IsDigit(c)
  {
    c as int - '0' as int
  }

  /** `str(n)` for a natural number: its decimal digits, no leading zero. */
  function Decimal(n: nat): (r: string)
    ensures |r| >= 1
    ensures forall i :: 0 <= i < |r| ==> IsDigit(r[i])
    ensures n >= 10 ==> |r| >= 2
  {
    if n < 10 then [DigitChar(n)] else Decimal(n / 10) + [DigitChar(n % 10)]
  }

  /** The number a string of decimal digits denotes (leading zeros allowed). */
  function ParseDecimal(s: string): nat
    requires forall i :: 0 <= i < |s| ==> IsDigit(s[i])
  {
    if s == [] then 0 else ParseDecimal(s[..|s| - 1]) * 10 + DigitValue(s[|s| - 1])
  }

  function Zeros(k: nat): (r: string)
    ensures |r| == k && forall i :: 0 <= i < k ==> r[i] == '0'
  {
    if k == 0 then "" else "0" + Zeros(k - 1)
  }

  /** `f"{n:03d}"`, that is `str(n)` left-padded with zeros to at least
      three characters. */
  function Pad3(n: nat): (r: string)
    ensures forall i :: 0 <= i < |r| ==> IsDigit(r[i])
  {
    var d := Decimal(n);
    if |d| < 3 then Zeros(3 - |d|) + d else d
  }

  lemma {:induction false} ParseDecimalOfDecimal(n: nat)
    ensures ParseDecimal(Decimal(n)) == n
  {
    if n >= 10 {
      var d := Decimal(n);
      assert d[..|d| - 1] == Decimal(n / 10);
      ParseDecimalOfDecimal(n / 10);
    }
  }

  /** Leading zeros do not change the value of a numeral. */
  lemma {:induction false} ParseDecimalLeadingZeros(k: nat, s: string)
    requires forall i :: 0 <= i < |s| ==> IsDigit(s[i])
    ensures ParseDecimal(Zeros(k) + s) == ParseDecimal(s)
    decreases |s|
  {
    if s == [] {
      ParseZeros(k);
      assert Zeros(k) + s == Zeros(k);
    } else {
      var t := Zeros(k) + s;
      assert t[..|t| - 1] == Zeros(k) + s[..|s| - 1];
      ParseDecimalLeadingZeros(k, s[..|s| - 1]);
    }
  }

  lemma {:induction false} ParseZeros(k: nat)
    ensures ParseDecimal(Zeros(k)) == 0
  {
    if k > 0 {
      var z := Zeros(k);
      assert z[..|z| - 1] == Zeros(k - 1);
      ParseZeros(k - 1);
    }
  }

  /** The zero-padded numeral reads back as the number it was made from. */
  lemma Pad3RoundTrip(n: nat)
    ensures ParseDecimal(Pad3(n)) == n
  {
    ParseDecimalOfDecimal(n);
    var d := Decimal(n);
    if |d| < 3 {
      ParseDecimalLeadingZeros(3 - |d|, d);
    }
  }

  lemma DecimalBelowThousand(n: nat)
    requires n < 1000
    ensures |Decimal(n)| <= 3
  {
    if n >= 10 {
      DecimalBelowThousand(n / 10);
    }
  }

  /** Below 1000 the padded numeral has exactly three digits. */
  lemma Pad3Width(n: nat)
    requires n < 1000
    ensures |Pad3(n)| == 3
  {
    DecimalBelowThousand(n);
  }
}
