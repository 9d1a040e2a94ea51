/** Typed pipeline parameters (yax/state/type/parameter.py): each parameter
    class turns the text of a configuration value into a typed value, and
    `validate` says whether that conversion succeeds. */
module Parameters {
  import opened Base
  import opened Strings

  /** The parameter classes; `Parameter` is the base class itself. */
  datatype ParamType = Parameter | Int | Float | File | Directory | Str

  /** A typed configuration value, as stored in a Run column. Floats are kept
      as exact reals. */
  datatype Value = IntV(i: int) | StrV(s: string) | FloatV(r: real)

  /** The part of the file system that `File.validate` and
      `Directory.validate` consult. */
  datatype FileSystem = FileSystem(files: set<string>, dirs: set<string>)

  predicate IsDigit(c: char) {
    '0' <= c <= '9'
  }

  function DigitValue(c: char): nat
    requires IsDigit(c)
  {
    c as int - '0' as int
  }

  function DigitChar(d: nat): (c: char)
    requires d < 10
    ensures IsDigit(c) && DigitValue(c) == d
  {
    ('0' as int + d) as char
  }

  /** The value of a string of decimal digits, most significant first. */
  function DigitsValue(ds: string): nat
    requires forall i :: 0 <= i < |ds| ==> IsDigit(ds[i])
  {
    if ds == [] then 0 else DigitsValue(ds[..|ds| - 1]) * 10 + DigitValue(ds[|ds| - 1])
  }

  /** The body of an integer literal as `int()` accepts it: ASCII digits,
      possibly grouped by single underscores between digits. */
  predicate IsDigitGroups(b: string) {
    && |b| > 0 && IsDigit(b[0]) && IsDigit(b[|b| - 1])
    && (forall i :: 0 <= i < |b| ==> IsDigit(b[i]) || b[i] == '_')
    && (forall i :: 0 <= i < |b| - 1 ==> b[i] == '_' ==> b[i + 1] != '_')
  }

  /** The digits of a body of digit groups, underscores dropped. */
  function DropUnderscores(b: string): (ds: string)
    requires forall i :: 0 <= i < |b| ==> IsDigit(b[i]) || b[i] == '_'
    ensures forall i :: 0 <= i < |ds| ==> IsDigit(ds[i])
    ensures (forall i :: 0 <= i < |b| ==> IsDigit(b[i])) ==> ds == b
  {
    if b == [] then [] else (if b[0] == '_' then [] else [b[0]]) + DropUnderscores(b[1..])
  }

  /** Python's `int(s)` on a string: surrounding whitespace, an optional sign
      and a body of digit groups; anything else raises ValueError. */
  function ParseInt(s: string): (r: Result<int>)
  {
    var t := Strip(s);
    var body := Unsigned(t);
    if IsDigitGroups(body) then
      var v: int := DigitsValue(DropUnderscores(body));
      Success(if |t| > 0 && t[0] == '-' then -v else v)
    else
      Failure(ValueError("invalid literal for int() with base 10"))
  }

  /** A literal without its optional leading sign. */
  function Unsigned(t: string): (body: string)
    ensures body == t || (|t| > 0 && t[0] in {'-', '+'} && body == t[1..])
  {
    if |t| > 0 && (t[0] == '-' || t[0] == '+') then t[1..] else t
  }

  /** The decimal digits of a natural number, without leading zeros. */
  function NatDigits(n: nat): (ds: string)
    ensures |ds| > 0 && forall i :: 0 <= i < |ds| ==> IsDigit(ds[i])
  {
    if n < 10 then [DigitChar(n)] else NatDigits(n / 10) + [DigitChar(n % 10)]
  }

  /** `str(n)` for an int. */
  function Decimal(n: int): string {
    if n < 0 then "-" + NatDigits(-n) else NatDigits(n)
  }

  /** `from_string` of each parameter class. `Parameter`, `Str`, `File` and
      `Directory` share the identity of the base class; `Int` parses. */
  function FromString(t: ParamType, s: string): (r: Result<Value>)
    requires t != Float
    ensures r.Success? && t != Int ==> r.value == StrV(s)
    ensures t == Int ==> (r.Success? <==> ParseInt(s).Success?)
    ensures t == Int && r.Success? ==> r.value == IntV(ParseInt(s).value)
  {
    match t
    case Int => var n :- ParseInt(s); Success(IntV(n))
    case _ => Success(StrV(s))
  }

  /** `validate`: the base class tries `from_string` and reports whether it
      raised; `File` and `Directory` override it with a file-system check. */
  function Validate(t: ParamType, s: string, fs: FileSystem): bool
    requires t != Float
  {
    match t
    case File => s in fs.files
    case Directory => s in fs.dirs
    case _ => FromString(t, s).Success?
  }

  /** The identity classes hand back their input unchanged: the base
      `Parameter`, `Str`, and `File` and `Directory`, which inherit it. */
  lemma IdentityFromString(t: ParamType, s: string)
    requires t in {Parameter, Str, File, Directory}
    ensures FromString(t, s) == Success(StrV(s))
  {
  }

  /** Wherever `validate` is not overridden it holds exactly when
      `from_string` succeeds, and it is total (it never raises). */
  lemma ValidateIsParseSuccess(t: ParamType, s: string, fs: FileSystem)
    requires t in {Parameter, Int, Str}
    ensures Validate(t, s, fs) <==> FromString(t, s).Success?
  {
  }

  lemma {:induction false} DigitsValueOfNatDigits(n: nat)
    ensures DigitsValue(NatDigits(n)) == n
    decreases n
  {
    if n >= 10 {
      var ds := NatDigits(n);
      assert ds[..|ds| - 1] == NatDigits(n / 10);
      DigitsValueOfNatDigits(n / 10);
    }
  }

  /** Round trip: `int(str(n)) == n` for every integer. */
  lemma {:induction false} ParseDecimal(n: int)
    ensures ParseInt(Decimal(n)) == Success(n)
  {
    var m: nat := if n < 0 then -n else n;
    var ds := NatDigits(m);
    DecimalShape(n);
    assert IsDigitGroups(ds);
    assert DropUnderscores(ds) == ds;
    DigitsValueOfNatDigits(m);
  }

  /** `str(n)` has no whitespace margin and is an optional minus sign in
      front of the digits of `|n|`. */
  lemma DecimalShape(n: int)
    ensures Strip(Decimal(n)) == Decimal(n) && |Decimal(n)| > 0
    ensures Unsigned(Decimal(n)) == NatDigits(if n < 0 then -n else n)
    ensures Decimal(n)[0] == '-' <==> n < 0
  {
    var m: nat := if n < 0 then -n else n;
    var ds := NatDigits(m);
    var s := Decimal(n);
    assert s[|s| - 1] == ds[|ds| - 1];
    assert !IsSpace(s[0]);
    StripNoMargin(s);
    if n < 0 {
      assert s[1..] == ds;
    }
  }

  /** `int()` accepts nothing but whitespace, signs, digits and underscores:
      in particular no decimal point ("395.98") and no letters ("test"). */
  lemma ParseIntAlphabet(s: string, i: nat)
    requires ParseInt(s).Success?
    requires i < |s|
    ensures IsSpace(s[i]) || IsDigit(s[i]) || s[i] in {'-', '+', '_'}
  {
    var a, b := StripSlice(s);
    var t := Strip(s);
    var body := Unsigned(t);
    assert IsDigitGroups(body);
    if a <= i < b {
      assert s[i] == t[i - a];
      if body != t && i == a {
      } else {
        assert s[i] == body[i - a - (|t| - |body|)];
      }
    }
  }

  /** The integer "1" accepted by the `Int` unit test. */
  lemma IntTestVectorOne()
    ensures ParseInt("1") == Success(1)
  {
    ParseDecimal(1);
    assert Decimal(1) == "1";
  }

  /** The integer "-1" accepted by the `Int` unit test. */
  lemma IntTestVectorMinusOne()
    ensures ParseInt("-1") == Success(-1)
  {
    ParseDecimal(-1);
    assert Decimal(-1) == "-1";
  }

  /** The integer "0" accepted by the `Int` unit test. */
  lemma IntTestVectorZero()
    ensures ParseInt("0") == Success(0)
  {
    ParseDecimal(0);
    assert Decimal(0) == "0";
  }

  /** The integer "385038345" accepted by the `Int` unit test. */
  lemma IntTestVectorLarge()
    ensures ParseInt("385038345") == Success(385038345)
  {
    assert NatDigits(3) == "3";
    assert NatDigits(38) == "38";
    assert NatDigits(385) == "385";
    assert NatDigits(3850) == "3850";
    assert NatDigits(38503) == "38503";
    assert NatDigits(385038) == "385038";
    assert NatDigits(3850383) == "3850383";
    assert NatDigits(38503834) == "38503834";
    assert NatDigits(385038345) == "385038345";
    ParseDecimal(385038345);
  }

  /** A text holding a character outside that alphabet is rejected. */
  lemma RejectsForeignChar(s: string, i: nat)
    requires i < |s|
    requires !(IsSpace(s[i]) || IsDigit(s[i]) || s[i] in {'-', '+', '_'})
    ensures ParseInt(s).Failure?
  {
    if ParseInt(s).Success? {
      ParseIntAlphabet(s, i);
    }
  }

  /** The texts rejected by the `Int` unit test. */
  lemma IntTestVectorsRejected()
    ensures ParseInt("395.98").Failure?
    ensures ParseInt("test").Failure?
  {
    RejectsForeignChar("395.98", 3);
    RejectsForeignChar("test", 0);
  }
}
