/** Date strings as the stamp card stores them ("YYYY-MM-DD") and the
    string comparison JavaScript applies to them.

    The widget never parses a date: it compares the stored strings with
    JavaScript's `<`, which orders strings character by character.  LexLess
    is that operator; LexLessIsCalendarOrder shows that on well-formed
    date strings it is exactly the calendar order. */
module Dates {

  /** JavaScript `a < b` on strings: the first differing character decides,
      and a proper prefix comes before every extension of it. */
  predicate LexLess(a: string, b: string)
  {
    if |b| == 0 then false
    else if |a| == 0 then true
    else if a[0] != b[0] then a[0] < b[0]
    else LexLess(a[1..], b[1..])
  }

  /** The usual statement of string order: a < b when a is a proper prefix
      of b, or when at the first position where they differ a has the
      smaller character. */
  lemma {:induction false} LexLessByFirstDifference(a: string, b: string)
    ensures LexLess(a, b) <==>
              (|a| < |b| && a == b[..|a|])
              || (exists k :: 0 <= k < |a| && k < |b| && a[..k] == b[..k] && a[k] < b[k])
  {
    if |a| == 0 || |b| == 0 {
    } else if a[0] != b[0] {
      if LexLess(a, b) {
        assert a[..0] == b[..0];
      } else {
        forall k | 0 < k < |a| && k < |b| ensures a[..k] != b[..k] {
          assert a[..k][0] == a[0] && b[..k][0] == b[0];
        }
        if |a| < |b| {
          assert b[..|a|][0] == b[0];
        }
      }
    } else {
      var a', b' := a[1..], b[1..];
      LexLessByFirstDifference(a', b');
      assert a == [a[0]] + a' && b == [b[0]] + b';
      if |a| < |b| && a == b[..|a|] {
        assert a' == b'[..|a'|];
      } else if k :| 0 <= k < |a| && k < |b| && a[..k] == b[..k] && a[k] < b[k] {
        assert k > 0;
        assert a'[..k - 1] == a[1..k] && b'[..k - 1] == b[1..k];
        assert a'[k - 1] < b'[k - 1];
      }
      if |a'| < |b'| && a' == b'[..|a'|] {
        assert b[..|a|] == [b[0]] + b'[..|a'|];
      } else if k' :| 0 <= k' < |a'| && k' < |b'| && a'[..k'] == b'[..k'] && a'[k'] < b'[k'] {
        assert a[..k' + 1] == [a[0]] + a'[..k'] && b[..k' + 1] == [b[0]] + b'[..k'];
        assert a[k' + 1] < b[k' + 1];
      }
    }
  }

  lemma {:induction false} LexLessIrreflexive(a: string)
    ensures !LexLess(a, a)
  {
    if |a| > 0 {
      LexLessIrreflexive(a[1..]);
    }
  }

  /** Exactly one of a < b, a == b, b < a holds. */
  lemma {:induction false} LexLessTrichotomy(a: string, b: string)
    ensures LexLess(a, b) || a == b || LexLess(b, a)
    ensures !(LexLess(a, b) && LexLess(b, a))
    ensures a == b ==> !LexLess(a, b)
  {
    if a == b {
      LexLessIrreflexive(a);
    } else if |a| > 0 && |b| > 0 && a[0] == b[0] {
      LexLessTrichotomy(a[1..], b[1..]);
    }
  }

  lemma {:induction false} LexLessTransitive(a: string, b: string, c: string)
    requires LexLess(a, b) && LexLess(b, c)
    ensures LexLess(a, c)
  {
    if |a| > 0 && a[0] == b[0] && b[0] == c[0] {
      LexLessTransitive(a[1..], b[1..], c[1..]);
    }
  }

  /** Comparing two concatenations whose first parts have equal length:
      the first parts decide unless they are equal. */
  lemma {:induction false} LexLessConcat(p: string, q: string, x: string, y: string)
    requires |p| == |q|
    ensures LexLess(p + x, q + y) <==> LexLess(p, q) || (p == q && LexLess(x, y))
  {
    if |p| == 0 {
      assert p + x == x && q + y == y;
    } else {
      assert (p + x)[0] == p[0] && (q + y)[0] == q[0];
      assert (p + x)[1..] == p[1..] + x && (q + y)[1..] == q[1..] + y;
      if p[0] == q[0] {
        LexLessConcat(p[1..], q[1..], x, y);
        assert p == [p[0]] + p[1..] && q == [q[0]] + q[1..];
      }
    }
  }

  predicate IsDigit(ch: char)
  {
    '0' <= ch <= '9'
  }

  predicate AllDigits(s: string)
  {
    forall i :: 0 <= i < |s| ==> IsDigit(s[i])
  }

  /** The shape `toISOString().slice(0, 10)` produces: four digits, '-',
      two digits, '-', two digits. */
  predicate IsDateString(s: string)
  {
    |s| == 10 && s[4] == '-' && s[7] == '-'
    && AllDigits(s[..4]) && AllDigits(s[5..7]) && AllDigits(s[8..])
  }

  function DigitValue(ch: char): (d: nat)
    requires IsDigit(ch)
    ensures d < 10
  {
    (ch as int) - ('0' as int)
  }

  function Pow10(n: nat): (r: nat)
    ensures r > 0
  {
    if n == 0 then 1 else 10 * Pow10(n - 1)
  }

  /** The decimal number a digit string denotes, most significant digit first. */
  function DigitsValue(s: string): nat
    requires AllDigits(s)
  {
    if s == [] then 0
    else DigitValue(s[0]) * Pow10(|s| - 1) + DigitsValue(s[1..])
  }

  lemma {:induction false} DigitsValueBound(s: string)
    requires AllDigits(s)
    ensures DigitsValue(s) < Pow10(|s|)
  {
    if s != [] {
      var p, rest := Pow10(|s| - 1), s[1..];
      assert AllDigits(rest);
      DigitsValueBound(rest);
      DigitStep(DigitValue(s[0]), 10, p, DigitsValue(rest));
    }
  }

  /** d*p + r < e*p when d < e and r < p: a lower leading digit followed by
      any shorter tail stays below the higher digit's block. */
  lemma DigitStep(d: nat, e: nat, p: nat, r: nat)
    requires d < e && r < p
    ensures d * p + r < e * p
  {
    var k := e - d - 1;
    assert e * p == d * p + k * p + p;
  }

  /** On digit strings of one length, string order is numeric order. */
  lemma {:induction false} LexLessDigits(a: string, b: string)
    requires AllDigits(a) && AllDigits(b) && |a| == |b|
    ensures LexLess(a, b) <==> DigitsValue(a) < DigitsValue(b)
  {
    if |a| > 0 {
      var p := Pow10(|a| - 1);
      assert AllDigits(a[1..]) && AllDigits(b[1..]);
      DigitsValueBound(a[1..]);
      DigitsValueBound(b[1..]);
      var da, db := DigitValue(a[0]), DigitValue(b[0]);
      if a[0] == b[0] {
        LexLessDigits(a[1..], b[1..]);
      } else if a[0] < b[0] {
        DigitStep(da, db, p, DigitsValue(a[1..]));
      } else {
        DigitStep(db, da, p, DigitsValue(b[1..]));
      }
    }
  }

  lemma DigitsValueInjective(a: string, b: string)
    requires AllDigits(a) && AllDigits(b) && |a| == |b|
    ensures DigitsValue(a) == DigitsValue(b) <==> a == b
  {
    LexLessTrichotomy(a, b);
    LexLessDigits(a, b);
    LexLessDigits(b, a);
  }

  function Year(s: string): nat
    requires IsDateString(s)
  {
    DigitsValue(s[..4])
  }

  function Month(s: string): nat
    requires IsDateString(s)
  {
    DigitsValue(s[5..7])
  }

  function Day(s: string): nat
    requires IsDateString(s)
  {
    DigitsValue(s[8..])
  }

  /** Calendar order of two dates, by year, then month, then day. */
  predicate CalendarBefore(a: string, b: string)
    requires IsDateString(a) && IsDateString(b)
  {
    Year(a) < Year(b)
    || (Year(a) == Year(b) && Month(a) < Month(b))
    || (Year(a) == Year(b) && Month(a) == Month(b) && Day(a) < Day(b))
  }

  /** The widget's string comparison of two date strings is calendar order. */
  lemma {:induction false} LexLessIsCalendarOrder(a: string, b: string)
    requires IsDateString(a) && IsDateString(b)
    ensures LexLess(a, b) <==> CalendarBefore(a, b)
  {
    var ya, ma, da := a[..4], a[5..7], a[8..];
    var yb, mb, db := b[..4], b[5..7], b[8..];
    assert a == ya + ("-" + (ma + ("-" + da)));
    assert b == yb + ("-" + (mb + ("-" + db)));
    LexLessIrreflexive("-");
    LexLessConcat(ya, yb, "-" + (ma + ("-" + da)), "-" + (mb + ("-" + db)));
    LexLessConcat("-", "-", ma + ("-" + da), mb + ("-" + db));
    LexLessConcat(ma, mb, "-" + da, "-" + db);
    LexLessConcat("-", "-", da, db);
    LexLessDigits(ya, yb);
    LexLessDigits(ma, mb);
    LexLessDigits(da, db);
    DigitsValueInjective(ya, yb);
    DigitsValueInjective(ma, mb);
  }
}
