/**
 * The amount column of `read_sheet`: every cell is turned into text, every
 * character other than a decimal digit or `.` is deleted, and what is left is
 * converted with Python's `float`. A text `float` refuses makes the whole
 * read fail.
 */
module Amounts {
  import opened Wrappers
  import opened Text

  /** The characters the sanitising pattern keeps. */
  predicate IsAmountChar(c: char)
  {
    IsDigit(c) || c == '.'
  }

  predicate IsAmountText(s: string)
  {
    forall i :: 0 <= i < |s| ==> IsAmountChar(s[i])
  }

  /** Deletes every character that is not a digit or `.`, keeping the order of the rest. */
  function Sanitize(s: string): (r: string)
    ensures IsAmountText(r)
    ensures |r| <= |s|
  {
    if s == [] then []
    else if IsAmountChar(s[0]) then [s[0]] + Sanitize(s[1..])
    else Sanitize(s[1..])
  }

  /** Sanitising works character by character: it distributes over concatenation. */
  lemma {:induction false} SanitizeAppend(s: string, t: string)
    ensures Sanitize(s + t) == Sanitize(s) + Sanitize(t)
    decreases |s|
  {
    if s != [] {
      assert (s + t)[0] == s[0];
      assert (s + t)[1..] == s[1..] + t;
      SanitizeAppend(s[1..], t);
      if IsAmountChar(s[0]) {
        assert [s[0]] + (Sanitize(s[1..]) + Sanitize(t)) == ([s[0]] + Sanitize(s[1..])) + Sanitize(t);
      }
    } else {
      assert s + t == t;
    }
  }

  /** A text of digits and dots is left as it is ... */
  lemma {:induction false} SanitizeKeeps(s: string)
    requires IsAmountText(s)
    ensures Sanitize(s) == s
    decreases |s|
  {
    if s != [] {
      SanitizeKeeps(s[1..]);
    }
  }

  /** ... so sanitising twice is sanitising once. */
  lemma SanitizeIdempotent(s: string)
    ensures Sanitize(Sanitize(s)) == Sanitize(s)
  {
    SanitizeKeeps(Sanitize(s));
  }

  /** A text with neither digits nor dots sanitises to the empty text. */
  lemma {:induction false} SanitizeDropsAll(s: string)
    requires forall i :: 0 <= i < |s| ==> !IsAmountChar(s[i])
    ensures Sanitize(s) == []
    decreases |s|
  {
    if s != [] {
      SanitizeDropsAll(s[1..]);
    }
  }

  function Pow10(k: nat): (r: nat)
    ensures r > 0
  {
    if k == 0 then 1 else 10 * Pow10(k - 1)
  }

  /** The index of the first `.` of `s`, or `|s|` when there is none. */
  function DotIndex(s: string): (i: nat)
    ensures i <= |s|
    ensures i < |s| ==> s[i] == '.'
    ensures forall j :: 0 <= j < i ==> s[j] != '.'
  {
    if s == [] then 0
    else if s[0] == '.' then 0
    else 1 + DotIndex(s[1..])
  }

  /** The number of dots in `s`. */
  function Dots(s: string): nat
  {
    if s == [] then 0 else (if s[0] == '.' then 1 else 0) + Dots(s[1..])
  }

  predicate HasDigit(s: string)
  {
    exists i :: 0 <= i < |s| && IsDigit(s[i])
  }

  /**
   * Python's `float` on a text of digits and dots: an integer part, then
   * optionally a dot and a fraction part, with at least one digit overall
   * ("12", "1.", ".5" and "1.25" are numbers; "", "." and "1.2.3" are not).
   * The value is the exact decimal; `float`'s rounding is not modelled.
   */
  function ParseDecimal(s: string): (r: Option<real>)
    requires IsAmountText(s)
    ensures r.Some? ==> r.value >= 0.0
  {
    var p := DotIndex(s);
    var whole := s[..p];
    var fraction := if p < |s| then s[p + 1..] else [];
    if '.' in fraction || (whole == [] && fraction == []) then None
    else
      assert AllDigits(whole) && AllDigits(fraction);
      Some(DigitsValue(whole) as real + DigitsValue(fraction) as real / Pow10(|fraction|) as real)
  }

  lemma {:induction false} DotsAfterFirst(s: string)
    ensures DotIndex(s) < |s| ==> Dots(s) == 1 + Dots(s[DotIndex(s) + 1..])
    ensures DotIndex(s) == |s| ==> Dots(s) == 0
    decreases |s|
  {
    if s != [] && s[0] != '.' {
      DotsAfterFirst(s[1..]);
      var i := DotIndex(s[1..]);
      if i < |s[1..]| {
        assert s[1..][i + 1..] == s[i + 2..];
      }
    }
  }

  lemma {:induction false} NoDotsIff(s: string)
    ensures Dots(s) == 0 <==> '.' !in s
    decreases |s|
  {
    if s != [] {
      NoDotsIff(s[1..]);
      assert s == [s[0]] + s[1..];
    }
  }

  /** `float` accepts the text exactly when it has at most one dot and at least one digit. */
  lemma ParseDecimalSucceedsIff(s: string)
    requires IsAmountText(s)
    ensures ParseDecimal(s).Some? <==> Dots(s) <= 1 && HasDigit(s)
  {
    var p := DotIndex(s);
    var whole := s[..p];
    var fraction := if p < |s| then s[p + 1..] else [];
    DotsAfterFirst(s);
    NoDotsIff(fraction);
    if p < |s| {
      NoDotsIff(s[p + 1..]);
    } else {
      NoDotsIff(s);
    }
    if whole == [] && fraction == [] {
      assert forall i :: 0 <= i < |s| ==> s[i] == '.';
    } else if whole != [] {
      assert IsDigit(s[0]);
    } else if '.' !in fraction {
      assert fraction[0] in fraction;
      assert IsDigit(s[p + 1]);
    }
  }

  /** `str(n)` of a non-negative integer reads back as that number. */
  lemma ParseDecimalOfNat(n: nat)
    ensures IsAmountText(NatToString(n))
    ensures ParseDecimal(NatToString(n)) == Some(n as real)
  {
    var s := NatToString(n);
    assert forall i :: 0 <= i < |s| ==> IsDigit(s[i]);
    assert DotIndex(s) == |s|;
    assert s[..|s|] == s;
    NatToStringValue(n);
  }

  /** The amount `read_sheet` stores for a cell, or `None` when `astype(float)` would fail. */
  function ParseAmount(cell: string): (r: Option<real>)
    ensures r.Some? ==> r.value >= 0.0
  {
    ParseDecimal(Sanitize(cell))
  }

  /** A cell with no ASCII digit ("", "n/a", "-") makes `astype(float)` fail. */
  lemma ParseAmountNeedsDigit(cell: string)
    requires forall i :: 0 <= i < |cell| ==> !IsDigit(cell[i])
    ensures ParseAmount(cell) == None
  {
    var t := Sanitize(cell);
    SanitizeDigits(cell);
    ParseDecimalSucceedsIff(t);
  }

  lemma HasDigitAppend(s: string, t: string)
    ensures HasDigit(s + t) <==> HasDigit(s) || HasDigit(t)
  {
    if HasDigit(s + t) {
      var i :| 0 <= i < |s + t| && IsDigit((s + t)[i]);
      if i >= |s| {
        assert IsDigit(t[i - |s|]);
      }
    }
    if HasDigit(s) {
      var i :| 0 <= i < |s| && IsDigit(s[i]);
      assert (s + t)[i] == s[i];
    }
    if HasDigit(t) {
      var i :| 0 <= i < |t| && IsDigit(t[i]);
      assert (s + t)[|s| + i] == t[i];
    }
  }

  /** Sanitising keeps the digits: the result has one exactly when the input has one. */
  lemma {:induction false} SanitizeDigits(s: string)
    ensures HasDigit(Sanitize(s)) <==> HasDigit(s)
    decreases |s|
  {
    if s != [] {
      SanitizeDigits(s[1..]);
      assert s == [s[0]] + s[1..];
      HasDigitAppend([s[0]], s[1..]);
      if IsAmountChar(s[0]) {
        HasDigitAppend([s[0]], Sanitize(s[1..]));
      }
    }
  }

  /** A currency sign and a thousands separator are dropped around the digits they decorate. */
  lemma SanitizeCurrencyText(a: string, b: string)
    requires IsAmountText(a) && IsAmountText(b)
    ensures Sanitize("$" + a + "," + b) == a + b
  {
    var x := "$" + a;
    var y := x + ",";
    assert Sanitize("$") == [] by {
      assert "$"[1..] == [];
    }
    assert Sanitize(",") == [] by {
      assert ","[1..] == [];
    }
    SanitizeKeeps(a);
    SanitizeKeeps(b);
    SanitizeAppend("$", a);
    assert Sanitize(x) == a;
    SanitizeAppend(x, ",");
    assert Sanitize(y) == a;
    SanitizeAppend(y, b);
  }

  lemma DigitsOfCurrencyText()
    ensures DigitsValue("1234") == 1234 && DigitsValue("50") == 50
  {
    assert "1234"[..3] == "123" && "123"[..2] == "12" && "12"[..1] == "1" && "1"[..0] == "";
    assert "50"[..1] == "5" && "5"[..0] == "";
  }

  lemma DotOfCurrencyText()
    ensures DotIndex("1234.50") == 4
  {
    assert "1234.50"[1..] == "234.50" && "234.50"[1..] == "34.50" && "34.50"[1..] == "4.50" && "4.50"[1..] == ".50";
  }

  lemma DecimalOfCurrencyText(s: string)
    requires s == "1234.50"
    ensures IsAmountText(s) && ParseDecimal(s) == Some(1234.5)
  {
    DotOfCurrencyText();
    DigitsOfCurrencyText();
    assert s[..4] == "1234" && s[5..] == "50";
    assert '.' !in "50";
    assert Pow10(2) == 100;
    assert 1234 as real + 50 as real / 100 as real == 1234.5;
  }

  /** A cell written with a currency sign and a thousands separator. */
  lemma ExampleCurrencyText(cell: string)
    requires cell == "$1,234.50"
    ensures ParseAmount(cell) == Some(1234.5)
  {
    var a, b := "1", "234.50";
    assert cell == "$" + a + "," + b;
    assert IsAmountText(a) && IsAmountText(b);
    SanitizeCurrencyText(a, b);
    assert a + b == "1234.50";
    DecimalOfCurrencyText(a + b);
  }

  lemma ExampleNotANumber()
    ensures ParseAmount("n/a") == None
  {
    ParseAmountNeedsDigit("n/a");
  }
}
