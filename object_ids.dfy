/** BSON ObjectIds as the routers see them: `str(oid)`, `ObjectId.is_valid(s)` and
    `ObjectId(s)` for a string `s`. An ObjectId is twelve bytes, read here as a
    natural number below 16^24. */
module ObjectIds {
  import opened Results
  import Text

  type ObjectId = nat

  /** Hexadecimal digits in the string form of an ObjectId. */
  const IdDigits: nat := 24

  function Pow16(n: nat): (p: nat)
    ensures p >= 1
  {
    if n == 0 then 1 else 16 * Pow16(n - 1)
  }

  predicate IsHexDigit(c: char) {
    ('0' <= c <= '9') || ('a' <= c <= 'f') || ('A' <= c <= 'F')
  }

  function HexDigitValue(c: char): (v: nat)
    requires IsHexDigit(c)
    ensures v < 16
  {
    if '0' <= c <= '9' then c as int - '0' as int
    else if 'a' <= c <= 'f' then c as int - 'a' as int + 10
    else c as int - 'A' as int + 10
  }

  function HexChar(d: nat): (c: char)
    requires d < 16
    ensures IsHexDigit(c) && HexDigitValue(c) == d
  {
    if d < 10 then ('0' as int + d) as char else ('a' as int + d - 10) as char
  }

  /** The low `width` hexadecimal digits of `n`, most significant first, lower case. */
  function ToHex(n: nat, width: nat): (r: string)
    ensures |r| == width
    ensures forall i :: 0 <= i < |r| ==> IsHexDigit(r[i])
  {
    if width == 0 then [] else ToHex(n / 16, width - 1) + [HexChar(n % 16)]
  }

  /** The number a string of hexadecimal digits spells, either case. */
  function HexValue(s: string): nat
    requires forall i :: 0 <= i < |s| ==> IsHexDigit(s[i])
  {
    if s == [] then 0 else HexValue(s[..|s| - 1]) * 16 + HexDigitValue(s[|s| - 1])
  }

  /** `str(oid)`: twenty-four lower-case hexadecimal digits. */
  function IdString(id: ObjectId): string {
    ToHex(id, IdDigits)
  }

  /** `ObjectId.is_valid(s)` for a string `s`: exactly twenty-four hexadecimal digits. */
  predicate IsValid(s: string) {
    |s| == IdDigits && forall i :: 0 <= i < |s| ==> IsHexDigit(s[i])
  }

  /** `ObjectId(s)`, which raises unless `IsValid(s)`. */
  function Parse(s: string): (r: Option<ObjectId>)
    ensures r.Some? <==> IsValid(s)
  {
    if IsValid(s) then Some(HexValue(s)) else None
  }

  lemma {:induction false} HexValueBound(s: string)
    requires forall i :: 0 <= i < |s| ==> IsHexDigit(s[i])
    ensures HexValue(s) < Pow16(|s|)
  {
    if s != [] {
      var p := s[..|s| - 1];
      HexValueBound(p);
      assert HexValue(s) == HexValue(p) * 16 + HexDigitValue(s[|s| - 1]);
      assert HexValue(p) * 16 <= (Pow16(|p|) - 1) * 16;
    }
  }

  lemma {:induction false} ToHexRoundTrip(n: nat, width: nat)
    requires n < Pow16(width)
    ensures HexValue(ToHex(n, width)) == n
  {
    if width > 0 {
      var h := ToHex(n, width);
      assert n / 16 < Pow16(width - 1);
      ToHexRoundTrip(n / 16, width - 1);
      assert h[..|h| - 1] == ToHex(n / 16, width - 1);
    }
  }

  /** Every ObjectId's string form is a valid ObjectId string, and parsing it gives
      back the ObjectId. */
  lemma ParseIdString(id: ObjectId)
    requires id < Pow16(IdDigits)
    ensures IsValid(IdString(id))
    ensures Parse(IdString(id)) == Some(id)
  {
    ToHexRoundTrip(id, IdDigits);
  }

  lemma HexCharOfValue(c: char)
    requires IsHexDigit(c)
    ensures HexChar(HexDigitValue(c)) == Text.LowerChar(c)
  {
  }

  lemma {:induction false} FromHexRoundTrip(s: string)
    requires forall i :: 0 <= i < |s| ==> IsHexDigit(s[i])
    ensures ToHex(HexValue(s), |s|) == Text.Lower(s)
  {
    if s != [] {
      var p := s[..|s| - 1];
      var c := s[|s| - 1];
      FromHexRoundTrip(p);
      var n := HexValue(s);
      assert n / 16 == HexValue(p) && n % 16 == HexDigitValue(c);
      HexCharOfValue(c);
      assert Text.Lower(s) == Text.Lower(p) + [Text.LowerChar(c)];
    }
  }

  /** Every string `ObjectId(s)` accepts denotes an ObjectId below 16^24 whose
      string form is `s` with its letters in lower case. */
  lemma ParseValid(s: string)
    requires IsValid(s)
    ensures Parse(s).value < Pow16(IdDigits)
    ensures IdString(Parse(s).value) == Text.Lower(s)
  {
    HexValueBound(s);
    FromHexRoundTrip(s);
  }
}
