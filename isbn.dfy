/** `ValidationUtils.isValidIsbn` and its two private checks: the ISBN-10
    modulus-11 check digit and the ISBN-13 (EAN-13) modulus-10 check digit
    of ISO 2108, applied after hyphens and whitespace are removed. */
module ValidationUtils {
  import opened Wrappers
  import opened JavaTypes
  import opened JavaStrings

  /** A character that `replaceAll("[-\\s]", "")` deletes. */
  predicate IsSeparator(c: char)
  {
    c == '-' || IsRegexWhitespace(c)
  }

  /** `isbn.replaceAll("[-\\s]", "")`: the input with every separator removed. */
  function Clean(s: string): (r: string)
    ensures |r| <= |s|
  {
    if s == [] then []
    else if IsSeparator(s[0]) then Clean(s[1..])
    else [s[0]] + Clean(s[1..])
  }

  // ---------------------------------------------------------------- ISBN-10

  /** The sum `isValidIsbn10` accumulates over the first `n` characters:
      the sum of `(s[k] - '0') * (10 - k)` for `k < n`. */
  function Isbn10WeightedSum(s: string, n: nat): int
    requires n <= |s|
  {
    if n == 0 then 0 else Isbn10WeightedSum(s, n - 1) + DigitValue(s[n - 1]) * (10 - (n - 1))
  }

  /** The value `isValidIsbn10` adds for the tenth character: 10 for `X`, else its digit value. */
  function Isbn10CheckValue(c: char): int
  {
    if c == 'X' then 10 else DigitValue(c)
  }

  /** The verdict of `isValidIsbn10`. */
  predicate Isbn10Valid(s: string)
  {
    && |s| == 10
    && (forall k :: 0 <= k < 9 ==> IsDigit(s[k]))
    && (s[9] == 'X' || IsDigit(s[9]))
    && (Isbn10WeightedSum(s, 9) + Isbn10CheckValue(s[9])) % 11 == 0
  }

  /** `isValidIsbn10`: a loop over the first nine characters with an early exit
      on a non-digit, then the check character, then the modulus-11 test. */
  method IsValidIsbn10(isbn: string) returns (valid: bool)
    ensures valid == Isbn10Valid(isbn)
  {
    if |isbn| != 10 {
      return false;
    }
    var sum: Int32 := 0;
    for i := 0 to 9
      invariant forall k :: 0 <= k < i ==> IsDigit(isbn[k])
      invariant sum == Isbn10WeightedSum(isbn, i)
      invariant 0 <= sum <= 90 * i
    {
      if !IsDigit(isbn[i]) {
        return false;
      }
      sum := sum + DigitValue(isbn[i]) * (10 - i);
    }
    var lastChar := isbn[9];
    if lastChar == 'X' {
      sum := sum + 10;
    } else if IsDigit(lastChar) {
      sum := sum + DigitValue(lastChar);
    } else {
      return false;
    }
    return sum % 11 == 0;
  }

  // ---------------------------------------------------------------- ISBN-13

  /** The weight of position `i` in an ISBN-13: 1 at even positions, 3 at odd ones. */
  function Isbn13Weight(i: nat): int
  {
    if i % 2 == 0 then 1 else 3
  }

  /** The sum `isValidIsbn13` accumulates over the first `n` characters. */
  function Isbn13WeightedSum(s: string, n: nat): int
    requires n <= |s|
  {
    if n == 0 then 0 else Isbn13WeightedSum(s, n - 1) + Isbn13Weight(n - 1) * DigitValue(s[n - 1])
  }

  /** The verdict of `isValidIsbn13`: the thirteenth character, read as `c - '0'`,
      must equal the check digit computed from the first twelve. */
  predicate Isbn13Valid(s: string)
  {
    && |s| == 13
    && (forall k :: 0 <= k < 12 ==> IsDigit(s[k]))
    && DigitValue(s[12]) == (10 - Isbn13WeightedSum(s, 12) % 10) % 10
  }

  /** `isValidIsbn13`: a loop over the first twelve characters with an early
      exit on a non-digit, then the comparison with the computed check digit. */
  method IsValidIsbn13(isbn: string) returns (valid: bool)
    ensures valid == Isbn13Valid(isbn)
  {
    if |isbn| != 13 {
      return false;
    }
    var sum: Int32 := 0;
    for i := 0 to 12
      invariant forall k :: 0 <= k < i ==> IsDigit(isbn[k])
      invariant sum == Isbn13WeightedSum(isbn, i)
      invariant 0 <= sum <= 27 * i
    {
      if !IsDigit(isbn[i]) {
        return false;
      }
      var digit := DigitValue(isbn[i]);
      sum := sum + if i % 2 == 0 then digit else digit * 3;
    }
    var checkDigit := DigitValue(isbn[12]);
    var calculatedCheckDigit := (10 - sum % 10) % 10;
    return checkDigit == calculatedCheckDigit;
  }

  // ---------------------------------------------------------------- isValidIsbn

  /** The verdict of `isValidIsbn` (`None` is Java's null). */
  predicate IsbnValid(isbn: Option<string>)
  {
    && isbn.Some?
    && !IsBlank(isbn.value)
    && (Isbn10Valid(Clean(isbn.value)) || Isbn13Valid(Clean(isbn.value)))
  }

  /** `isValidIsbn`: reject null and blank input, clean, then try both checks. */
  method IsValidIsbn(isbn: Option<string>) returns (valid: bool)
    ensures valid == IsbnValid(isbn)
    ensures isbn.None? || IsBlank(isbn.value) ==> !valid
    ensures valid ==> |Clean(isbn.value)| == 10 || |Clean(isbn.value)| == 13
  {
    if isbn.None? || IsBlank(isbn.value) {
      return false;
    }
    var cleanIsbn := Clean(isbn.value);
    valid := IsValidIsbn10(cleanIsbn);
    if !valid {
      valid := IsValidIsbn13(cleanIsbn);
    }
  }

  // ---------------------------------------------------------------- cleaning

  /** Cleaning distributes over concatenation. */
  lemma {:induction false} CleanAppend(a: string, b: string)
    ensures Clean(a + b) == Clean(a) + Clean(b)
  {
    if a == [] {
      assert a + b == b;
    } else {
      assert (a + b)[1..] == a[1..] + b;
      CleanAppend(a[1..], b);
    }
  }

  /** Every character cleaning keeps comes from the input and is not a separator. */
  lemma {:induction false} CleanKeeps(s: string)
    ensures forall i :: 0 <= i < |Clean(s)| ==> Clean(s)[i] in s && !IsSeparator(Clean(s)[i])
  {
    if s != [] {
      CleanKeeps(s[1..]);
    }
  }

  /** Cleaning a cleaned string changes nothing. */
  lemma {:induction false} CleanIdempotent(s: string)
    ensures Clean(Clean(s)) == Clean(s)
  {
    if s != [] {
      CleanIdempotent(s[1..]);
      if !IsSeparator(s[0]) {
        assert ([s[0]] + Clean(s[1..]))[1..] == Clean(s[1..]);
      }
    }
  }

  /** Inserting one separator anywhere leaves the cleaned string as it was. */
  lemma SeparatorVanishes(a: string, b: string, c: char)
    requires IsSeparator(c)
    ensures Clean(a + [c] + b) == Clean(a + b)
  {
    assert a + [c] + b == a + ([c] + b);
    CleanAppend(a, [c] + b);
    CleanAppend(a, b);
    assert ([c] + b)[1..] == b;
  }

  /** The blank test is subsumed by the two checks: the verdict depends on the
      cleaned string alone. */
  lemma IsbnValidIffCleanValid(s: string)
    ensures IsbnValid(Some(s)) <==> Isbn10Valid(Clean(s)) || Isbn13Valid(Clean(s))
  {
    if Isbn10Valid(Clean(s)) || Isbn13Valid(Clean(s)) {
      CleanKeeps(s);
      var c := Clean(s)[0];
      assert IsDigit(c) && c in s;
      var i :| 0 <= i < |s| && s[i] == c;
      assert s[i] as int > 0x20;
    }
  }

  /** Inserting or removing a hyphen or whitespace character never changes the verdict. */
  lemma SeparatorsIgnored(a: string, b: string, c: char)
    requires IsSeparator(c)
    ensures IsbnValid(Some(a + [c] + b)) == IsbnValid(Some(a + b))
  {
    IsbnValidIffCleanValid(a + [c] + b);
    IsbnValidIffCleanValid(a + b);
    SeparatorVanishes(a, b, c);
  }

  // ---------------------------------------------------------------- check digits

  /** The ISBN-10 check character ISO 2108 prescribes for the first nine digits:
      the value that makes the weighted sum a multiple of 11, written `X` for 10. */
  function Isbn10CheckCharacter(s: string): (c: char)
    requires |s| >= 9
  {
    var v := (11 - Isbn10WeightedSum(s, 9) % 11) % 11;
    if v == 10 then 'X' else DigitChar(v)
  }

  /** `isValidIsbn10` accepts exactly the strings of nine digits followed by the
      check character ISO 2108 computes for them. */
  lemma Isbn10MatchesIso2108(s: string)
    ensures Isbn10Valid(s) <==>
      |s| == 10 && (forall k :: 0 <= k < 9 ==> IsDigit(s[k])) && s[9] == Isbn10CheckCharacter(s)
  {
    if |s| == 10 && (forall k :: 0 <= k < 9 ==> IsDigit(s[k])) {
      var sum := Isbn10WeightedSum(s, 9);
      var q, r := sum / 11, sum % 11;
      assert sum == 11 * q + r;
      var expected := (11 - r) % 11;
      if s[9] == 'X' || IsDigit(s[9]) {
        var c := Isbn10CheckValue(s[9]);
        assert 0 <= c <= 10;
        assert sum + c == 11 * q + (r + c);
        assert (sum + c) % 11 == (r + c) % 11;
        assert (sum + c) % 11 == 0 <==> c == expected;
        assert c == expected <==> s[9] == Isbn10CheckCharacter(s);
      } else {
        assert s[9] != Isbn10CheckCharacter(s);
      }
    }
  }

  /** `isValidIsbn13` accepts exactly the strings of thirteen digits whose
      alternately 1- and 3-weighted digit sum is a multiple of 10 (EAN-13). */
  lemma Isbn13MatchesEan13(s: string)
    ensures Isbn13Valid(s) <==>
      |s| == 13 && (forall k :: 0 <= k < 13 ==> IsDigit(s[k])) && Isbn13WeightedSum(s, 13) % 10 == 0
  {
    if |s| == 13 && (forall k :: 0 <= k < 12 ==> IsDigit(s[k])) {
      var sum := Isbn13WeightedSum(s, 12);
      var q, r := sum / 10, sum % 10;
      assert sum == 10 * q + r;
      var d := DigitValue(s[12]);
      assert Isbn13WeightedSum(s, 13) == sum + d;
      assert IsDigit(s[12]) <==> 0 <= d <= 9;
      if 0 <= d <= 9 {
        assert sum + d == 10 * q + (r + d);
        assert (sum + d) % 10 == (r + d) % 10;
      }
    }
  }

  /** A non-digit thirteenth character is always rejected, although the code
      never tests it: the computed check digit lies in 0..9. */
  lemma Isbn13RejectsNonDigitCheck(s: string)
    requires |s| == 13 && !IsDigit(s[12])
    ensures !Isbn13Valid(s)
  {
    Isbn13MatchesEan13(s);
  }

  /** A lower-case `x` as check character, or an `X` among the first nine, is rejected. */
  lemma Isbn10RejectsMisplacedX(s: string)
    requires |s| == 10
    requires s[9] == 'x' || exists k :: 0 <= k < 9 && s[k] == 'X'
    ensures !Isbn10Valid(s)
  {
  }

  // ---------------------------------------------------------------- bounds

  /** The largest ISBN-10 sum over `n` digits: all nines. */
  function Isbn10MaxSum(n: nat): nat
    requires n <= 9
  {
    if n == 0 then 0 else Isbn10MaxSum(n - 1) + 9 * (10 - (n - 1))
  }

  lemma {:induction false} Isbn10SumBounds(s: string, n: nat)
    requires n <= 9 && n <= |s|
    requires forall k :: 0 <= k < n ==> IsDigit(s[k])
    ensures 0 <= Isbn10WeightedSum(s, n) <= Isbn10MaxSum(n)
  {
    if n > 0 {
      Isbn10SumBounds(s, n - 1);
      assert 0 <= DigitValue(s[n - 1]) <= 9;
    }
  }

  /** The ISBN-10 sum, check value included, never exceeds 496, far from `int` overflow. */
  lemma Isbn10SumAtMost496(s: string)
    requires |s| == 10 && (forall k :: 0 <= k < 9 ==> IsDigit(s[k]))
    requires s[9] == 'X' || IsDigit(s[9])
    ensures 0 <= Isbn10WeightedSum(s, 9) + Isbn10CheckValue(s[9]) <= 496
  {
    Isbn10SumBounds(s, 9);
    assert Isbn10MaxSum(9) == 486;
  }

  /** The largest ISBN-13 sum over `n` digits: all nines. */
  function Isbn13MaxSum(n: nat): nat
  {
    if n == 0 then 0 else Isbn13MaxSum(n - 1) + 9 * Isbn13Weight(n - 1)
  }

  lemma {:induction false} Isbn13SumBounds(s: string, n: nat)
    requires n <= |s|
    requires forall k :: 0 <= k < n ==> IsDigit(s[k])
    ensures 0 <= Isbn13WeightedSum(s, n) <= Isbn13MaxSum(n)
  {
    if n > 0 {
      Isbn13SumBounds(s, n - 1);
      assert 0 <= DigitValue(s[n - 1]) <= 9;
    }
  }

  /** The ISBN-13 sum over the first twelve digits never exceeds 216. */
  lemma Isbn13SumAtMost216(s: string)
    requires |s| == 13 && (forall k :: 0 <= k < 12 ==> IsDigit(s[k]))
    ensures 0 <= Isbn13WeightedSum(s, 12) <= 216
  {
    Isbn13SumBounds(s, 12);
    assert Isbn13MaxSum(12) == 216;
  }
}
