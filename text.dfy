/** The string normalisations of the routers: Python's str.strip(), str.lower(),
    str.capitalize(), case-insensitive comparison, and decimal rendering. */
module Text {

  /** Python's str.isspace() for one character. */
  predicate IsSpace(c: char) {
    c == ' ' || ('\t' <= c <= '\r') || ('\U{1C}' <= c <= '\U{1F}') || c == '\U{85}' || c == '\U{A0}'
    || c == '\U{1680}' || ('\U{2000}' <= c <= '\U{200A}') || c == '\U{2028}' || c == '\U{2029}'
    || c == '\U{202F}' || c == '\U{205F}' || c == '\U{3000}'
  }

  predicate AllSpace(s: string) { forall i :: 0 <= i < |s| ==> IsSpace(s[i]) }

  /** Python's `s.strip()`: `s` without its leading and trailing white space. */
  function Strip(s: string): (r: string)
    ensures |r| <= |s|
    ensures r == [] || (!IsSpace(r[0]) && !IsSpace(r[|r| - 1]))
    decreases |s|
  {
    if s != [] && IsSpace(s[0]) then Strip(s[1..])
    else if s != [] && IsSpace(s[|s| - 1]) then Strip(s[..|s| - 1])
    else s
  }

  /** `r` is `s[k..k + |r|]` and everything of `s` around it is white space. */
  predicate TrimmedAt(s: string, r: string, k: nat) {
    && k + |r| <= |s|
    && r == s[k..k + |r|]
    && AllSpace(s[..k])
    && AllSpace(s[k + |r|..])
  }

  lemma TrimmedAtFront(s: string, r: string, k: nat)
    requires s != [] && IsSpace(s[0]) && TrimmedAt(s[1..], r, k)
    ensures TrimmedAt(s, r, k + 1)
  {
    assert s[k + 1..k + 1 + |r|] == s[1..][k..k + |r|];
    assert s[k + 1 + |r|..] == s[1..][k + |r|..];
    var front := s[..k + 1];
    forall i | 0 <= i < |front|
      ensures IsSpace(front[i])
    {
      if i > 0 {
        assert front[i] == s[1..][..k][i - 1];
      }
    }
  }

  lemma TrimmedAtBack(s: string, r: string, k: nat)
    requires s != [] && IsSpace(s[|s| - 1]) && TrimmedAt(s[..|s| - 1], r, k)
    ensures TrimmedAt(s, r, k)
  {
    var t := s[..|s| - 1];
    assert s[k..k + |r|] == t[k..k + |r|];
    assert s[..k] == t[..k];
    var back := s[k + |r|..];
    forall i | 0 <= i < |back|
      ensures IsSpace(back[i])
    {
      if i < |t| - (k + |r|) {
        assert back[i] == t[k + |r|..][i];
      }
    }
  }

  /** `Strip` removes white space only, and only from the two ends. */
  lemma {:induction false} StripRemovesEnds(s: string)
    ensures exists k: nat :: TrimmedAt(s, Strip(s), k)
    decreases |s|
  {
    var r := Strip(s);
    if s != [] && IsSpace(s[0]) {
      StripRemovesEnds(s[1..]);
      var k: nat :| TrimmedAt(s[1..], r, k);
      TrimmedAtFront(s, r, k);
    } else if s != [] && IsSpace(s[|s| - 1]) {
      StripRemovesEnds(s[..|s| - 1]);
      var k: nat :| TrimmedAt(s[..|s| - 1], r, k);
      TrimmedAtBack(s, r, k);
    } else {
      assert TrimmedAt(s, r, 0);
    }
  }

  predicate IsUpperAscii(c: char) { 'A' <= c <= 'Z' }

  predicate IsLowerAscii(c: char) { 'a' <= c <= 'z' }

  function LowerChar(c: char): char {
    if IsUpperAscii(c) then (c as int + 32) as char else c
  }

  function UpperChar(c: char): char {
    if IsLowerAscii(c) then (c as int - 32) as char else c
  }

  /** Python's `s.lower()` on the ASCII letters. */
  function Lower(s: string): (r: string)
    ensures |r| == |s|
  {
    seq(|s|, i requires 0 <= i < |s| => LowerChar(s[i]))
  }

  /** Python's `s.capitalize()`: first character upper case, the rest lower case. */
  function Capitalize(s: string): (r: string)
    ensures |r| == |s|
  {
    if s == [] then [] else [UpperChar(s[0])] + Lower(s[1..])
  }

  /** `s.strip().capitalize()`: how category and role names are stored. */
  function NormalizeName(s: string): string {
    Capitalize(Strip(s))
  }

  /** `s.strip().lower()`: how the funds routes key their records. */
  function NormalizeEmail(s: string): string {
    Lower(Strip(s))
  }

  /** Mongo's `{"$regex": "^" + b + "$", "$options": "i"}` matching `a`, for a `b`
      without regular-expression metacharacters. */
  predicate EqualsIgnoreCase(a: string, b: string) {
    Lower(a) == Lower(b)
  }

  /** No two names of `names` are equal ignoring case. */
  predicate NoCaseDuplicates(names: seq<string>) {
    forall i, j :: 0 <= i < j < |names| ==> Lower(names[i]) != Lower(names[j])
  }

  /** `find_one({field: {"$regex": "^" + n + "$", "$options": "i"}})` finds something. */
  predicate HasIgnoringCase(names: seq<string>, n: string) {
    exists i :: 0 <= i < |names| && EqualsIgnoreCase(names[i], n)
  }

  /** Appending a name no stored name equals ignoring case keeps the names distinct. */
  lemma AppendKeepsNoCaseDuplicates(names: seq<string>, n: string)
    requires NoCaseDuplicates(names) && !HasIgnoringCase(names, n)
    ensures NoCaseDuplicates(names + [n])
  {
    var m := names + [n];
    forall i, j | 0 <= i < j < |m|
      ensures Lower(m[i]) != Lower(m[j])
    {
      if j == |names| {
        assert m[i] == names[i] && m[j] == n;
        assert !EqualsIgnoreCase(names[i], n);
      } else {
        assert m[i] == names[i] && m[j] == names[j];
      }
    }
  }

  lemma LowerCharKeepsSpace(c: char)
    ensures IsSpace(LowerChar(c)) == IsSpace(c)
  {
  }

  lemma UpperCharKeepsSpace(c: char)
    ensures IsSpace(UpperChar(c)) == IsSpace(c)
  {
  }

  lemma LowerIdempotent(s: string)
    ensures Lower(Lower(s)) == Lower(s)
  {
  }

  /** Normalising an e-mail key twice gives the same key as normalising it once. */
  lemma NormalizeEmailIdempotent(s: string)
    ensures NormalizeEmail(NormalizeEmail(s)) == NormalizeEmail(s)
  {
    var t := Strip(s);
    var l := Lower(t);
    if l != [] {
      LowerCharKeepsSpace(t[0]);
      LowerCharKeepsSpace(t[|t| - 1]);
    }
    LowerIdempotent(t);
  }

  /** Comparing a stored name with a normalised name ignoring case is comparing it
      with the stripped input ignoring case: capitalisation does not matter. */
  lemma LowerOfNormalizedName(s: string)
    ensures Lower(NormalizeName(s)) == NormalizeEmail(s)
  {
    var t := Strip(s);
    var c := Capitalize(t);
    if t != [] {
      assert forall i :: 1 <= i < |t| ==> c[i] == Lower(t[1..])[i - 1] == LowerChar(t[i]);
      assert forall i :: 0 <= i < |t| ==> Lower(c)[i] == Lower(t)[i];
    }
  }

  /** A normalised name is already normalised. */
  lemma NormalizeNameIdempotent(s: string)
    ensures NormalizeName(NormalizeName(s)) == NormalizeName(s)
  {
    var t := Strip(s);
    var c := Capitalize(t);
    if c != [] {
      UpperCharKeepsSpace(t[0]);
      LowerCharKeepsSpace(t[|t| - 1]);
      if |t| > 1 {
        assert c[|c| - 1] == LowerChar(t[|t| - 1]);
      }
      LowerIdempotent(t[1..]);
      assert c[1..] == Lower(t[1..]);
    }
  }

  /** The shape of a normalised name: no surrounding white space, an upper-case or
      non-letter first character, and no upper-case letter after it. */
  lemma NormalizeNameShape(s: string)
    ensures var n := NormalizeName(s);
      && (n == [] || (!IsSpace(n[0]) && !IsSpace(n[|n| - 1])))
      && (n != [] ==> !IsLowerAscii(n[0]))
      && (forall i :: 1 <= i < |n| ==> !IsUpperAscii(n[i]))
      && Lower(n) == Lower(Strip(s))
  {
    var t := Strip(s);
    var n := NormalizeName(s);
    if n != [] {
      UpperCharKeepsSpace(t[0]);
      LowerCharKeepsSpace(t[|t| - 1]);
      if |t| > 1 {
        assert n[|n| - 1] == LowerChar(t[|t| - 1]);
      }
    }
    LowerOfNormalizedName(s);
  }

  // Decimal rendering of natural numbers, as Python's `str(n)` and `f"{n:02d}"`.

  predicate IsDigit(c: char) { '0' <= c <= '9' }

  predicate AllDigits(s: string) { forall i :: 0 <= i < |s| ==> IsDigit(s[i]) }

  function DigitChar(d: nat): (c: char)
    requires d < 10
    ensures IsDigit(c)
  {
    ('0' as int + d) as char
  }

  function DigitValue(c: char): nat
    requires IsDigit(c)
  {
    c as int - '0' as int
  }

  /** `str(n)` for a natural number. */
  function Decimal(n: nat): (r: string)
    ensures r != [] && AllDigits(r)
    ensures |r| == 1 <==> n < 10
  {
    if n < 10 then [DigitChar(n)] else Decimal(n / 10) + [DigitChar(n % 10)]
  }

  /** `f"{n:02d}"`: at least two digits, zero-padded. */
  function Pad2(n: nat): (r: string)
    ensures |r| >= 2 && AllDigits(r)
    ensures n < 100 ==> |r| == 2
  {
    if n < 10 then "0" + Decimal(n) else Decimal(n)
  }

  /** `int(s)` for a string of ASCII digits. */
  function DecimalValue(s: string): nat
    requires AllDigits(s)
  {
    if s == [] then 0 else DecimalValue(s[..|s| - 1]) * 10 + DigitValue(s[|s| - 1])
  }

  /** Reading back a rendered number gives the number. */
  lemma {:induction false} DecimalRoundTrip(n: nat)
    ensures DecimalValue(Decimal(n)) == n
  {
    if n >= 10 {
      DecimalRoundTrip(n / 10);
      var d := Decimal(n);
      assert d[..|d| - 1] == Decimal(n / 10);
    }
  }

  lemma {:induction false} Pad2RoundTrip(n: nat)
    ensures DecimalValue(Pad2(n)) == n
  {
    DecimalRoundTrip(n);
    if n < 10 {
      var p := Pad2(n);
      assert p[..1] == "0";
      assert p[..|p| - 1] == "0";
    }
  }

  /** Distinct numbers render as distinct strings. */
  lemma DecimalInjective(m: nat, n: nat)
    requires Decimal(m) == Decimal(n)
    ensures m == n
  {
    DecimalRoundTrip(m);
    DecimalRoundTrip(n);
  }

  /** The number of digits `str(n)` has for a four-digit year. */
  lemma DecimalOfFourDigits(n: nat)
    requires 1000 <= n <= 9999
    ensures |Decimal(n)| == 4
  {
    assert |Decimal(n / 10 / 10)| == 2;
  }
}
