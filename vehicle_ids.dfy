/** Vehicle identifiers carry their purchase year as the text after the last underscore
    (`"BEV_S1_2023"` was bought in 2023); the script reads it with
    `int(vehicle_id.split('_')[-1])`. */
module VehicleIds {
  import opened Util

  /** `s.split('_')[-1]`: the text after the last underscore, or all of `s` when it has none. */
  function LastToken(s: string): string
    decreases |s|
  {
    if s == [] then []
    else if s[|s| - 1] == '_' then []
    else LastToken(s[..|s| - 1]) + [s[|s| - 1]]
  }

  predicate IsDigit(c: char) {
    '0' <= c <= '9'
  }

  predicate AllDigits(s: string) {
    forall i :: 0 <= i < |s| ==> IsDigit(s[i])
  }

  function DigitValue(c: char): nat
    requires IsDigit(c)
  {
    c as int - '0' as int
  }

  function Digit(n: nat): char
    requires n < 10
  {
    ('0' as int + n) as char
  }

  /** The value of a string of decimal digits, most significant first. */
  function DigitsValue(s: string): nat
    requires AllDigits(s)
    decreases |s|
  {
    if s == [] then 0 else 10 * DigitsValue(s[..|s| - 1]) + DigitValue(s[|s| - 1])
  }

  /** What `int()` accepts: a non-empty string of digits, of which the first character may
      instead be a sign as long as a digit follows it. */
  predicate IsNumeral(t: string) {
    && t != []
    && (forall i :: 0 <= i < |t| ==> IsDigit(t[i]) || (i == 0 && (t[i] == '+' || t[i] == '-')))
    && (|t| == 1 ==> IsDigit(t[0]))
  }

  /** Python's `int(t)` on an optionally signed decimal numeral; `None` where `int` raises `ValueError`. */
  function ParseInt(t: string): (r: Option<int>)
    ensures r.Some? <==> IsNumeral(t)
    ensures r.Some? && IsDigit(t[0]) ==> r.value >= 0
  {
    if t != [] && (t[0] == '+' || t[0] == '-') then
      var body := t[1..];
      if body != [] && AllDigits(body) then
        var magnitude: int := DigitsValue(body);
        Some(if t[0] == '-' then -magnitude else magnitude)
      else None
    else if t != [] && AllDigits(t) then Some(DigitsValue(t))
    else None
  }

  /** `int(vehicle_id.split('_')[-1])`. */
  function PurchaseYear(id: string): (r: Option<int>)
    ensures r.Some? <==> IsNumeral(LastToken(id))
  {
    ParseInt(LastToken(id))
  }

  /** The decimal numeral of `n`, as `str(n)` writes it. */
  function Decimal(n: nat): string
    decreases n
  {
    if n < 10 then [Digit(n)] else Decimal(n / 10) + [Digit(n % 10)]
  }

  /** The token is a suffix of the identifier, holds no underscore, and is either the whole
      identifier or preceded by an underscore. */
  lemma {:induction false} LastTokenIsSuffix(s: string)
    ensures |LastToken(s)| <= |s|
    ensures s[|s| - |LastToken(s)|..] == LastToken(s)
    ensures '_' !in LastToken(s)
    ensures |LastToken(s)| == |s| || s[|s| - |LastToken(s)| - 1] == '_'
    decreases |s|
  {
    if s != [] && s[|s| - 1] != '_' {
      var init := s[..|s| - 1];
      LastTokenIsSuffix(init);
      var t := LastToken(init);
      assert LastToken(s) == t + [s[|s| - 1]];
      assert s[|s| - |LastToken(s)|..] == init[|init| - |t|..] + [s[|s| - 1]];
    }
  }

  /** Whatever precedes the last underscore does not matter. */
  lemma {:induction false} LastTokenAfterSeparator(prefix: string, t: string)
    requires '_' !in t
    ensures LastToken(prefix + "_" + t) == t
    decreases |t|
  {
    var s := prefix + "_" + t;
    if t == [] {
      assert s[|s| - 1] == '_';
    } else {
      assert s[|s| - 1] == t[|t| - 1];
      assert s[..|s| - 1] == prefix + "_" + t[..|t| - 1];
      LastTokenAfterSeparator(prefix, t[..|t| - 1]);
    }
  }

  /** `str(n)` is all digits and reads back as `n`. */
  lemma {:induction false} DecimalValue(n: nat)
    ensures Decimal(n) != [] && AllDigits(Decimal(n))
    ensures DigitsValue(Decimal(n)) == n
    decreases n
  {
    if n >= 10 {
      DecimalValue(n / 10);
      var d := Decimal(n);
      assert d[..|d| - 1] == Decimal(n / 10);
    }
  }

  /** A digit string holds no underscore. */
  lemma DigitsHaveNoSeparator(d: string)
    requires AllDigits(d)
    ensures '_' !in d
  {
    forall i | 0 <= i < |d| ensures d[i] != '_' {
      assert IsDigit(d[i]);
    }
  }

  /** An unsigned numeral parses to its value. */
  lemma UnsignedParse(d: string)
    requires d != [] && AllDigits(d)
    ensures ParseInt(d) == Some(DigitsValue(d))
  {
    assert IsDigit(d[0]);
  }

  /** An identifier `<anything>_<year>` yields that year. */
  lemma PurchaseYearOf(prefix: string, year: nat)
    ensures PurchaseYear(prefix + "_" + Decimal(year)) == Some(year)
  {
    var d := Decimal(year);
    DecimalValue(year);
    DigitsHaveNoSeparator(d);
    LastTokenAfterSeparator(prefix, d);
    UnsignedParse(d);
  }

  /** An empty last token, or one that is a bare sign, has no purchase year. */
  lemma EmptyOrSignRejected(id: string)
    requires LastToken(id) == [] || LastToken(id) == ['+'] || LastToken(id) == ['-']
    ensures PurchaseYear(id) == None
  {
  }

  /** A token with a character that is neither a digit nor a leading sign has no purchase year. */
  lemma NonNumeralRejected(id: string, i: int)
    requires 0 <= i < |LastToken(id)| && !IsDigit(LastToken(id)[i])
    requires i > 0 || (LastToken(id)[0] != '+' && LastToken(id)[0] != '-')
    ensures PurchaseYear(id) == None
  {
    var t := LastToken(id);
    if t[0] == '+' || t[0] == '-' {
      assert t[1..][i - 1] == t[i];
    }
  }
}
