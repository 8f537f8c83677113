/** The two string built-ins the controller's formatters rely on:
    the decimal rendering of a non-negative integer (`String(n)`,
    `n.toString()`) and `String.prototype.padStart` with a one-character
    filler, plus the decimal reading that undoes the rendering. */
module Decimal {

  predicate IsDigit(c: char) {
    '0' <= c <= '9'
  }

  predicate AllDigits(s: string) {
    forall i :: 0 <= i < |s| ==> IsDigit(s[i])
  }

  /** A canonical decimal numeral: non-empty, digits only, no leading zero
      except for "0" itself. */
  predicate Canonical(s: string) {
    |s| >= 1 && AllDigits(s) && (s[0] == '0' ==> |s| == 1)
  }

  function DigitChar(d: nat): (c: char)
    requires d < 10
    ensures IsDigit(c)
  {
    ('0' as int + d) as char
  }

  function DigitValue(c: char): (d: nat)
    requires IsDigit(c)
    ensures d < 10 && DigitChar(d) == c
  {
    c as int - '0' as int
  }

  /** `String(n)` for a non-negative integer n: most significant digit first. */
  function NatToString(n: nat): (s: string)
    ensures Canonical(s)
    ensures |s| == 1 <==> n < 10
    decreases n
  {
    if n < 10 then [DigitChar(n)] else NatToString(n / 10) + [DigitChar(n % 10)]
  }

  /** The value of a string of decimal digits (the empty string reads as 0). */
  function ParseDecimal(s: string): nat
    requires AllDigits(s)
  {
    if s == [] then 0 else ParseDecimal(s[..|s| - 1]) * 10 + DigitValue(s[|s| - 1])
  }

  /** `s.padStart(width, fill)` for a one-character filler: `s` unchanged when
      it is already at least `width` long, otherwise `fill` repeated in front. */
  function PadStart(s: string, width: nat, fill: char): (r: string)
    ensures |r| == if |s| >= width then |s| else width
    ensures forall i :: 0 <= i < |s| ==> r[|r| - |s| + i] == s[i]
    ensures forall i :: 0 <= i < |r| - |s| ==> r[i] == fill
  {
    if |s| >= width then s else seq(width - |s|, _ => fill) + s
  }

  /** `String(n).padStart(2, '0')`, the field shape of every clock string. */
  function Pad2(n: nat): string {
    PadStart(NatToString(n), 2, '0')
  }

  lemma {:induction false} ParseDecimalSnoc(s: string, c: char)
    requires AllDigits(s) && IsDigit(c)
    ensures AllDigits(s + [c])
    ensures ParseDecimal(s + [c]) == ParseDecimal(s) * 10 + DigitValue(c)
  {
    assert (s + [c])[..|s|] == s;
  }

  /** Reading back what NatToString wrote gives the number again. */
  lemma {:induction false} ParseNatToString(n: nat)
    ensures ParseDecimal(NatToString(n)) == n
    decreases n
  {
    if n < 10 {
      assert NatToString(n) == [] + [DigitChar(n)];
      ParseDecimalSnoc([], DigitChar(n));
    } else {
      ParseNatToString(n / 10);
      ParseDecimalSnoc(NatToString(n / 10), DigitChar(n % 10));
    }
  }

  lemma {:induction false} ParsePositive(s: string)
    requires Canonical(s) && s[0] != '0'
    ensures ParseDecimal(s) >= 1
    decreases |s|
  {
    if |s| > 1 {
      ParsePositive(s[..|s| - 1]);
    }
  }

  /** Appending a digit to the rendering of a positive number renders the
      number ten times as large plus that digit. */
  lemma NatToStringSnoc(q: nat, d: nat)
    requires q >= 1 && d < 10
    ensures NatToString(q * 10 + d) == NatToString(q) + [DigitChar(d)]
  {
    var n := q * 10 + d;
    assert n >= 10 && n / 10 == q && n % 10 == d;
  }

  /** A canonical numeral of two or more digits is a canonical numeral
      without leading zero followed by one more digit. */
  lemma CanonicalInit(s: string)
    requires Canonical(s) && |s| >= 2
    ensures Canonical(s[..|s| - 1]) && s[0] != '0'
    ensures s == s[..|s| - 1] + [s[|s| - 1]]
  {
  }

  /** Every canonical numeral is the rendering of its own value, so the
      rendering of naturals and the reading of canonical numerals are
      inverse bijections. */
  lemma {:induction false} NatToStringParse(s: string)
    requires Canonical(s)
    ensures NatToString(ParseDecimal(s)) == s
    decreases |s|
  {
    var last := s[|s| - 1];
    var d := DigitValue(last);
    if |s| == 1 {
      assert ParseDecimal(s) == d;
      assert s == [last];
    } else {
      var init := s[..|s| - 1];
      CanonicalInit(s);
      var q := ParseDecimal(init);
      assert q >= 1 by {
        ParsePositive(init);
      }
      assert NatToString(q) == init by {
        NatToStringParse(init);
      }
      assert ParseDecimal(s) == q * 10 + d;
      NatToStringSnoc(q, d);
    }
  }

  /** Distinct naturals render differently. */
  lemma NatToStringInjective(m: nat, n: nat)
    requires NatToString(m) == NatToString(n)
    ensures m == n
  {
    ParseNatToString(m);
    ParseNatToString(n);
  }

  /** Leading zeros do not change the value of a numeral. */
  lemma {:induction false} ParseLeadingZero(s: string)
    requires AllDigits(s)
    ensures AllDigits(['0'] + s)
    ensures ParseDecimal(['0'] + s) == ParseDecimal(s)
    decreases |s|
  {
    if s != [] {
      var init, last := s[..|s| - 1], s[|s| - 1];
      assert AllDigits(init) && IsDigit(last) && s == init + [last];
      var z := ['0'] + init;
      assert AllDigits(z) && ParseDecimal(z) == ParseDecimal(init) by {
        ParseLeadingZero(init);
      }
      assert ['0'] + s == z + [last];
      ParseDecimalSnoc(z, last);
      ParseDecimalSnoc(init, last);
    } else {
      assert ['0'] + s == [] + ['0'];
      ParseDecimalSnoc([], '0');
    }
  }

  lemma NatToStringTwoDigits(n: nat)
    ensures 10 <= n < 100 <==> |NatToString(n)| == 2
  {
    if n >= 10 {
      assert n / 10 >= 1;
      if n >= 100 {
        assert n / 10 >= 10;
        assert |NatToString(n / 10)| >= 2;
      }
    }
  }

  /** `padStart(2, '0')` on a decimal rendering: values 0-9 gain exactly one
      leading zero, values from 10 up come out unchanged (padStart never
      truncates), and in every case the field reads back as the value. */
  lemma Pad2Shape(n: nat)
    ensures n < 10 ==> Pad2(n) == ['0', DigitChar(n)]
    ensures n >= 10 ==> Pad2(n) == NatToString(n)
    ensures n < 100 ==> |Pad2(n)| == 2
    ensures |Pad2(n)| >= 2 && AllDigits(Pad2(n))
    ensures ParseDecimal(Pad2(n)) == n
  {
    var t := NatToString(n);
    assert ParseDecimal(t) == n by {
      ParseNatToString(n);
    }
    if n < 10 {
      assert t == [DigitChar(n)];
      assert Pad2(n) == ['0'] + t;
      ParseLeadingZero(t);
    } else {
      assert |t| >= 2;
      assert n < 100 ==> |t| == 2 by {
        NatToStringTwoDigits(n);
      }
    }
  }

  /** A value from 10 to 99 renders as its tens digit and its units digit. */
  lemma TwoDigitRendering(n: nat)
    requires 10 <= n < 100
    ensures NatToString(n) == [DigitChar(n / 10), DigitChar(n % 10)]
  {
    var q := n / 10;
    assert 1 <= q < 10;
    assert NatToString(q) == [DigitChar(q)];
    assert NatToString(n) == NatToString(q) + [DigitChar(n % 10)];
  }

  /** `padStart` leaves a string that is already wide enough unchanged
      (it never truncates). */
  lemma PadStartFits(s: string, width: nat, fill: char)
    requires |s| >= width
    ensures PadStart(s, width, fill) == s
  {
  }

  /** A string one short of the width gains exactly one filler in front. */
  lemma PadStartOneShort(s: string, width: nat, fill: char)
    requires |s| + 1 == width
    ensures PadStart(s, width, fill) == [fill] + s
  {
    assert seq(width - |s|, _ => fill) == [fill];
  }

  /** Below 100 the padded field is exactly two characters, the tens digit
      and the units digit. */
  lemma Pad2Field(n: nat)
    requires n < 100
    ensures Pad2(n) == [DigitChar(n / 10), DigitChar(n % 10)]
  {
    var t := NatToString(n);
    if n < 10 {
      assert t == [DigitChar(n)];
      assert Pad2(n) == ['0'] + t by {
        PadStartOneShort(t, 2, '0');
      }
      assert n / 10 == 0 && n % 10 == n && DigitChar(0) == '0';
    } else {
      assert t == [DigitChar(n / 10), DigitChar(n % 10)] by {
        TwoDigitRendering(n);
      }
      assert Pad2(n) == t by {
        PadStartFits(t, 2, '0');
      }
    }
  }
}
