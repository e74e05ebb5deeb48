/**
 * The Brazilian date reader of the payroll screens (`_parse_date_br`):
 * `DD/MM/AAAA` text becomes `AAAA-MM-DD`, or `None` when the text is not a
 * date. The Python string and integer primitives it relies on (`strip`,
 * `split`, `int`, zero-padded formatting) are written out here so that the
 * reader's accepted language is the same as the source's on ASCII digits
 * (Python's `int` also takes other Unicode digits and caps the length).
 */
module BrDate {
  import opened Common

  // ---------------------------------------------------------------------------
  // Python's str.strip()
  // ---------------------------------------------------------------------------

  /** The characters for which Python's `str.isspace()` holds. */
  predicate IsSpace(c: char) {
    var n := c as int;
    (9 <= n <= 13) || (28 <= n <= 32) || n == 0x85 || n == 0xA0 || n == 0x1680
    || (0x2000 <= n <= 0x200A) || n == 0x2028 || n == 0x2029 || n == 0x202F
    || n == 0x205F || n == 0x3000
  }

  function StripLeft(s: string): (r: string)
    ensures |r| <= |s| && r == s[|s| - |r|..]
    ensures r != [] ==> !IsSpace(r[0])
    ensures forall i :: 0 <= i < |s| - |r| ==> IsSpace(s[i])
  {
    if s != [] && IsSpace(s[0]) then StripLeft(s[1..]) else s
  }

  function StripRight(s: string): (r: string)
    ensures |r| <= |s| && r == s[..|r|]
    ensures r != [] ==> !IsSpace(r[|r| - 1])
    ensures forall i :: |r| <= i < |s| ==> IsSpace(s[i])
  {
    if s != [] && IsSpace(s[|s| - 1]) then StripRight(s[..|s| - 1]) else s
  }

  /** Python's `s.strip()`: leading and trailing white space removed. */
  function Strip(s: string): (r: string)
    ensures r != [] ==> !IsSpace(r[0]) && !IsSpace(r[|r| - 1])
  {
    StripRight(StripLeft(s))
  }

  lemma StripKeeps(s: string)
    requires s != [] && !IsSpace(s[0]) && !IsSpace(s[|s| - 1])
    ensures Strip(s) == s
  {
  }

  predicate AllSpace(s: string) {
    forall i :: 0 <= i < |s| ==> IsSpace(s[i])
  }

  /** White space around a text is what `strip` removes, and all it removes. */
  lemma StripPadding(pre: string, s: string, post: string)
    requires AllSpace(pre) && AllSpace(post)
    requires s != [] && !IsSpace(s[0]) && !IsSpace(s[|s| - 1])
    ensures Strip(pre + s + post) == s
  {
    assert pre + s + post == pre + (s + post);
    StripLeftSpaces(pre, s + post);
    StripRightSpaces(s, post);
  }

  lemma {:induction false} StripLeftSpaces(pre: string, s: string)
    requires AllSpace(pre) && s != [] && !IsSpace(s[0])
    ensures StripLeft(pre + s) == s
    decreases |pre|
  {
    if pre != [] {
      assert (pre + s)[1..] == pre[1..] + s;
      StripLeftSpaces(pre[1..], s);
    }
  }

  lemma {:induction false} StripRightSpaces(s: string, post: string)
    requires AllSpace(post) && s != [] && !IsSpace(s[|s| - 1])
    ensures StripRight(s + post) == s
    decreases |post|
  {
    if post != [] {
      assert (s + post)[..|s + post| - 1] == s + post[..|post| - 1];
      StripRightSpaces(s, post[..|post| - 1]);
    }
  }

  // ---------------------------------------------------------------------------
  // Python's str.split(sep)
  // ---------------------------------------------------------------------------

  /** Python's `s.split(sep)`: every `sep` ends one part, empty parts included. */
  function Split(s: string, sep: char): (parts: seq<string>)
    ensures |parts| >= 1
    ensures forall i :: 0 <= i < |parts| ==> sep !in parts[i]
    decreases |s|
  {
    if s == [] then [""]
    else
      var rest := Split(s[1..], sep);
      if s[0] == sep then [""] + rest
      else [[s[0]] + rest[0]] + rest[1..]
  }

  /** Python's `sep.join(parts)`, the inverse of `Split`. */
  function Join(parts: seq<string>, sep: char): string
    requires |parts| >= 1
  {
    if |parts| == 1 then parts[0] else parts[0] + [sep] + Join(parts[1..], sep)
  }

  /** Splitting loses nothing: joining the parts gives the text back. */
  lemma {:induction false} SplitJoin(s: string, sep: char)
    ensures Join(Split(s, sep), sep) == s
  {
    if s != [] {
      var rest := Split(s[1..], sep);
      SplitJoin(s[1..], sep);
      if s[0] == sep {
        assert Split(s, sep)[1..] == rest;
      } else if |rest| > 1 {
        assert Split(s, sep)[1..] == rest[1..];
        assert Join(rest, sep) == rest[0] + [sep] + Join(rest[1..], sep);
      }
    }
  }

  lemma {:induction false} SplitNoSep(a: string, sep: char)
    requires sep !in a
    ensures Split(a, sep) == [a]
  {
    if a != [] {
      assert a[0] != sep && sep !in a[1..];
      SplitNoSep(a[1..], sep);
      assert [a[0]] + a[1..] == a;
    }
  }

  lemma SplitThree(a: string, b: string, c: string, sep: char)
    requires sep !in a && sep !in b && sep !in c
    ensures Split(a + [sep] + b + [sep] + c, sep) == [a, b, c]
  {
    assert a + [sep] + b + [sep] + c == a + [sep] + (b + [sep] + c);
    SplitAt(a, b + [sep] + c, sep);
    SplitAt(b, c, sep);
    SplitNoSep(c, sep);
  }

  lemma {:induction false} SplitAt(a: string, b: string, sep: char)
    requires sep !in a
    ensures Split(a + [sep] + b, sep) == [a] + Split(b, sep)
  {
    if a == [] {
      assert a + [sep] + b == [sep] + b;
      assert ([sep] + b)[1..] == b;
    } else {
      assert (a + [sep] + b)[1..] == a[1..] + [sep] + b;
      SplitAt(a[1..], b, sep);
      assert [a[0]] + a[1..] == a;
    }
  }

  // ---------------------------------------------------------------------------
  // Python's int(text) on ASCII decimal text
  // ---------------------------------------------------------------------------

  predicate IsDigit(c: char) { '0' <= c <= '9' }

  predicate AllDigits(s: string) { forall i :: 0 <= i < |s| ==> IsDigit(s[i]) }

  function DigitValue(c: char): nat
    requires IsDigit(c)
  {
    (c as int) - ('0' as int)
  }

  function DigitChar(n: nat): (c: char)
    requires n < 10
    ensures IsDigit(c) && DigitValue(c) == n
  {
    (('0' as int) + n) as char
  }

  /**
   * The digit grammar of `int()`: it starts and ends with a digit, and holds
   * digits and underscores, never two underscores in a row.
   */
  predicate WellFormedDigits(u: string) {
    && |u| > 0 && IsDigit(u[0]) && IsDigit(u[|u| - 1])
    && (forall i :: 0 <= i < |u| ==> IsDigit(u[i]) || u[i] == '_')
    && (forall i :: 0 < i < |u| && u[i] == '_' ==> u[i - 1] != '_')
  }

  function DropUnderscores(u: string): (r: string)
    requires forall i :: 0 <= i < |u| ==> IsDigit(u[i]) || u[i] == '_'
    ensures AllDigits(r)
  {
    if u == [] then [] else (if u[0] == '_' then [] else [u[0]]) + DropUnderscores(u[1..])
  }

  /** The value of a decimal numeral, most significant digit first. */
  function DecValue(ds: string): nat
    requires AllDigits(ds)
  {
    if ds == [] then 0 else 10 * DecValue(ds[..|ds| - 1]) + DigitValue(ds[|ds| - 1])
  }

  function NumeralValue(u: string): nat
    requires WellFormedDigits(u)
  {
    DecValue(DropUnderscores(u))
  }

  /** Python's `int(t)`: surrounding white space, an optional sign, then digits. */
  function PyInt(t: string): Option<int> {
    ReadInt(Strip(t))
  }

  /** `int()` on text with no surrounding white space. */
  function ReadInt(u: string): Option<int> {
    if |u| > 0 && (u[0] == '+' || u[0] == '-') then
      if WellFormedDigits(u[1..]) then
        var n: int := NumeralValue(u[1..]);
        Some(if u[0] == '-' then -n else n)
      else None
    else if WellFormedDigits(u) then Some(NumeralValue(u))
    else None
  }

  // ---------------------------------------------------------------------------
  // f-string formatting: f"{n}" and f"{n:02d}"
  // ---------------------------------------------------------------------------

  /** `f"{n}"` for a natural number: decimal digits, no leading zero. */
  function Show(n: nat): (r: string)
    ensures |r| > 0 && AllDigits(r)
  {
    if n < 10 then [DigitChar(n)] else Show(n / 10) + [DigitChar(n % 10)]
  }

  /** `f"{n:02d}"` for 0 <= n < 100: exactly two digits. */
  function Pad2(n: nat): (r: string)
    requires n < 100
    ensures |r| == 2 && AllDigits(r)
  {
    [DigitChar(n / 10), DigitChar(n % 10)]
  }

  /** `f"{ano}-{mes:02d}-{dia:02d}"`. */
  function IsoDate(ano: nat, mes: nat, dia: nat): string
    requires mes < 100 && dia < 100
  {
    Show(ano) + "-" + Pad2(mes) + "-" + Pad2(dia)
  }

  lemma {:induction false} DropUnderscoresOfDigits(ds: string)
    requires AllDigits(ds)
    ensures DropUnderscores(ds) == ds
  {
    if ds != [] {
      DropUnderscoresOfDigits(ds[1..]);
    }
  }

  lemma {:induction false} DecValueShow(n: nat)
    ensures DecValue(Show(n)) == n
  {
    if n >= 10 {
      DecValueShow(n / 10);
      var s := Show(n / 10) + [DigitChar(n % 10)];
      assert s[..|s| - 1] == Show(n / 10);
    }
  }

  /** Reading a numeral made of plain digits gives its decimal value. */
  lemma PyIntOfDigits(ds: string)
    requires |ds| > 0 && AllDigits(ds)
    ensures PyInt(ds) == Some(DecValue(ds))
  {
    assert IsDigit(ds[0]) && IsDigit(ds[|ds| - 1]);
    StripKeeps(ds);
    ReadIntOfDigits(ds);
  }

  lemma ReadIntOfDigits(ds: string)
    requires |ds| > 0 && AllDigits(ds)
    ensures ReadInt(ds) == Some(DecValue(ds))
  {
    DigitsWellFormed(ds);
    DropUnderscoresOfDigits(ds);
  }

  lemma DigitsWellFormed(ds: string)
    requires |ds| > 0 && AllDigits(ds)
    ensures WellFormedDigits(ds) && ds[0] != '+' && ds[0] != '-'
  {
    assert IsDigit(ds[0]) && IsDigit(ds[|ds| - 1]);
  }

  /** `int(f"{n}") == n`. */
  lemma PyIntShow(n: nat)
    ensures PyInt(Show(n)) == Some(n)
  {
    PyIntOfDigits(Show(n));
    DecValueShow(n);
  }

  /** `int(f"{n:02d}") == n`. */
  lemma PyIntPad2(n: nat)
    requires n < 100
    ensures PyInt(Pad2(n)) == Some(n)
  {
    PyIntOfDigits(Pad2(n));
    DecValuePad2(n);
  }

  lemma DecValuePad2(n: nat)
    requires n < 100
    ensures DecValue(Pad2(n)) == n
  {
    var p := Pad2(n);
    var q := p[..1];
    assert q[..0] == [];
    assert DecValue(q) == DigitValue(p[0]);
  }

  // ---------------------------------------------------------------------------
  // _parse_date_br
  // ---------------------------------------------------------------------------

  predicate InRange(dia: int, mes: int, ano: int) {
    1 <= mes <= 12 && 1 <= dia <= 31 && ano > 0
  }

  /** `int(parts[0]), int(parts[1]), int(parts[2])` of the stripped text split on `/`. */
  function ParseDmy(s: string): Option<(int, int, int)> {
    var parts := Split(Strip(s), '/');
    if |parts| != 3 then None
    else match (PyInt(parts[0]), PyInt(parts[1]), PyInt(parts[2]))
      case (Some(dia), Some(mes), Some(ano)) => Some((dia, mes, ano))
      case _ => None
  }

  /** `_parse_date_br(s)`: the ISO date, or `None`; there is no per-month day check. */
  function ParseDateBr(s: string): Option<string> {
    match ParseDmy(s)
    case Some((dia, mes, ano)) =>
      if InRange(dia, mes, ano) then Some(IsoDate(ano, mes, dia)) else None
    case None => None
  }

  /** Reads back an `AAAA-MM-DD` text into (ano, mes, dia): the partner of `IsoDate`. */
  function ParseIso(x: string): Option<(int, int, int)> {
    var parts := Split(x, '-');
    if |parts| != 3 then None
    else match (PyInt(parts[0]), PyInt(parts[1]), PyInt(parts[2]))
      case (Some(ano), Some(mes), Some(dia)) => Some((ano, mes, dia))
      case _ => None
  }

  lemma DigitsHaveNoSeparators(ds: string)
    requires AllDigits(ds)
    ensures '/' !in ds && '-' !in ds
  {
    forall i | 0 <= i < |ds|
      ensures ds[i] != '/' && ds[i] != '-'
    {
      assert IsDigit(ds[i]);
    }
  }

  /** The ISO text written for a date reads back as that same date. */
  lemma IsoDateReadsBack(ano: nat, mes: nat, dia: nat)
    requires mes < 100 && dia < 100
    ensures ParseIso(IsoDate(ano, mes, dia)) == Some((ano, mes, dia))
  {
    var a, m, d := Show(ano), Pad2(mes), Pad2(dia);
    DigitsHaveNoSeparators(a);
    DigitsHaveNoSeparators(m);
    DigitsHaveNoSeparators(d);
    SplitThree(a, m, d, '-');
    PyIntShow(ano);
    PyIntPad2(mes);
    PyIntPad2(dia);
  }

  /** `DD/MM/AAAA` with a two-digit day and month, the form the payroll screens pre-fill. */
  function BrText(dia: nat, mes: nat, ano: nat): string
    requires dia < 100 && mes < 100
  {
    Pad2(dia) + "/" + Pad2(mes) + "/" + Show(ano)
  }

  lemma ParseDmyBrText(dia: nat, mes: nat, ano: nat)
    requires dia < 100 && mes < 100
    ensures ParseDmy(BrText(dia, mes, ano)) == Some((dia as int, mes as int, ano as int))
  {
    var d, m, a := Pad2(dia), Pad2(mes), Show(ano);
    var s := BrText(dia, mes, ano);
    assert s[0] == d[0] && s[|s| - 1] == a[|a| - 1];
    StripKeeps(s);
    DigitsHaveNoSeparators(d);
    DigitsHaveNoSeparators(m);
    DigitsHaveNoSeparators(a);
    SplitThree(d, m, a, '/');
    PyIntPad2(dia);
    PyIntPad2(mes);
    PyIntShow(ano);
  }

  /**
   * On a date written as `DD/MM/AAAA`, the reader accepts exactly the
   * in-range dates, whatever the month's length, and returns the ISO text,
   * which reads back as the same date.
   */
  lemma ParseDateBrCanonical(dia: nat, mes: nat, ano: nat)
    requires dia < 100 && mes < 100
    ensures ParseDateBr(BrText(dia, mes, ano))
            == if InRange(dia, mes, ano) then Some(IsoDate(ano, mes, dia)) else None
    ensures InRange(dia, mes, ano) ==> ParseIso(IsoDate(ano, mes, dia)) == Some((ano, mes, dia))
  {
    ParseDmyBrText(dia, mes, ano);
    IsoDateReadsBack(ano, mes, dia);
  }

  /**
   * Whatever text the reader accepts, its answer is an in-range date that
   * reads back unambiguously, and it is the answer the reader gives for that
   * date written as `DD/MM/AAAA`.
   */
  lemma ParseDateBrSound(s: string)
    requires ParseDateBr(s).Some?
    ensures ParseIso(ParseDateBr(s).value).Some?
    ensures var (ano, mes, dia) := ParseIso(ParseDateBr(s).value).value;
            && InRange(dia, mes, ano)
            && ParseDateBr(s) == ParseDateBr(BrText(dia, mes, ano))
  {
    var (dia, mes, ano) := ParseDmy(s).value;
    IsoDateReadsBack(ano, mes, dia);
    ParseDateBrCanonical(dia, mes, ano);
  }

  lemma ShowYear2024()
    ensures Show(2024) == "2024"
  {
    assert Show(2) == "2";
    assert Show(20) == Show(2) + "0";
    assert Show(202) == Show(20) + "2";
    assert Show(2024) == Show(202) + "4";
  }

  lemma FebruaryTexts()
    ensures BrText(31, 2, 2024) == "31/02/2024"
    ensures IsoDate(2024, 2, 31) == "2024-02-31"
  {
    ShowYear2024();
    assert Pad2(31) == "31" && Pad2(2) == "02";
    calc {
      BrText(31, 2, 2024);
      "31" + "/" + "02" + "/" + "2024";
      "31/02/2024";
    }
    calc {
      IsoDate(2024, 2, 31);
      "2024" + "-" + "02" + "-" + "31";
      "2024-02-31";
    }
  }

  /** 31/02 is accepted: the reader checks ranges only, not month lengths. */
  lemma FebruaryThirtyFirstAccepted()
    ensures ParseDateBr("31/02/2024") == Some("2024-02-31")
  {
    FebruaryTexts();
    ParseDateBrCanonical(31, 2, 2024);
  }

  /** Month 13 and day 00 are refused. */
  lemma OutOfRangeRefused()
    ensures ParseDateBr("01/13/2024") == None
    ensures ParseDateBr("00/12/2024") == None
  {
    ShowYear2024();
    assert Pad2(1) == "01" && Pad2(13) == "13" && Pad2(0) == "00" && Pad2(12) == "12";
    assert "01/13/2024" == BrText(1, 13, 2024);
    assert "00/12/2024" == BrText(0, 12, 2024);
    ParseDateBrCanonical(1, 13, 2024);
    ParseDateBrCanonical(0, 12, 2024);
  }
}
