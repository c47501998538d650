/** Request ids (src/rpc/server/state.rs): the kind, a dash, and the sequence number printed
    with at least six digits. */
module RequestIds {
  function Digit(d: nat): char
    requires d < 10
  {
    ['0', '1', '2', '3', '4', '5', '6', '7', '8', '9'][d]
  }

  function DigitValue(c: char): nat {
    if '0' <= c <= '9' then (c as int) - ('0' as int) else 0
  }

  function Decimal(n: nat): (text: string)
    ensures text != []
  {
    if n < 10 then [Digit(n)] else Decimal(n / 10) + [Digit(n % 10)]
  }

  function PadZeros(text: string, width: nat): string
    decreases width - |text|
  {
    if |text| >= width then text else PadZeros("0" + text, width)
  }

  /** `{kind}-{:06}` */
  function FormatId(kind: string, n: nat): string {
    kind + "-" + PadZeros(Decimal(n), 6)
  }

  function Value(text: string): nat {
    if text == [] then 0 else 10 * Value(text[..|text| - 1]) + DigitValue(text[|text| - 1])
  }

  lemma AppendDigit(front: string, d: nat)
    requires d < 10
    ensures Value(front + [Digit(d)]) == 10 * Value(front) + d && Digit(d) != '-'
  {
    assert (front + [Digit(d)])[..|front|] == front;
  }

  lemma {:induction false} DecimalReadsBack(n: nat)
    ensures Value(Decimal(n)) == n && '-' !in Decimal(n)
  {
    if n < 10 {
      AppendDigit("", n);
      assert "" + [Digit(n)] == [Digit(n)];
    } else {
      var front := Decimal(n / 10);
      DecimalReadsBack(n / 10);
      assert Decimal(n) == front + [Digit(n % 10)];
      AppendDigit(front, n % 10);
    }
  }

  lemma {:induction false} LeadingZero(text: string)
    ensures Value("0" + text) == Value(text)
  {
    if text == [] {
      assert "0"[..0] == [];
    } else {
      LeadingZero(text[..|text| - 1]);
      assert ("0" + text)[..|text|] == "0" + text[..|text| - 1];
    }
  }

  lemma {:induction false} PaddingReadsBack(text: string, width: nat)
    requires '-' !in text
    ensures Value(PadZeros(text, width)) == Value(text) && '-' !in PadZeros(text, width)
    decreases width - |text|
  {
    if |text| < width {
      LeadingZero(text);
      PaddingReadsBack("0" + text, width);
    }
  }

  lemma LastDash(a: string, b: string)
    requires '-' !in b
    ensures var s := a + "-" + b; s[|a|] == '-' && forall i :: |a| < i < |s| ==> s[i] != '-'
  {
    var s := a + "-" + b;
    forall i | |a| < i < |s| ensures s[i] != '-' {
      assert s[i] == b[i - |a| - 1];
    }
  }

  lemma LastDashSplits(a: string, b: string, a': string, b': string)
    requires a + "-" + b == a' + "-" + b' && '-' !in b && '-' !in b'
    ensures a == a' && b == b'
  {
    var s, s' := a + "-" + b, a' + "-" + b';
    LastDash(a, b);
    LastDash(a', b');
    assert a == s[..|a|] && a' == s'[..|a'|];
    assert b == s[|a| + 1..] && b' == s'[|a'| + 1..];
  }

  predicate IsDigit(c: char) { '0' <= c <= '9' }

  lemma {:induction false} DecimalIsDigits(n: nat)
    ensures forall i :: 0 <= i < |Decimal(n)| ==> IsDigit(Decimal(n)[i])
    ensures n > 0 ==> Decimal(n)[0] != '0'
  {
    if n >= 10 { DecimalIsDigits(n / 10); }
  }

  lemma {:induction false} PaddingIsDigits(text: string, width: nat)
    requires forall i :: 0 <= i < |text| ==> IsDigit(text[i])
    ensures var padded := PadZeros(text, width);
            && (if |text| >= width then padded == text else |padded| == width)
            && forall i :: 0 <= i < |padded| ==> IsDigit(padded[i])
    decreases width - |text|
  {
    if |text| < width { PaddingIsDigits("0" + text, width); }
  }

  /** A number with at least six digits, and with more only if it needs them. */
  ghost predicate SixDigits(digits: string, n: nat) {
    && |digits| >= 6 && Value(digits) == n && (|digits| > 6 ==> digits[0] != '0')
    && forall i :: 0 <= i < |digits| ==> IsDigit(digits[i])
  }

  lemma PaddedIsSixDigits(n: nat)
    ensures SixDigits(PadZeros(Decimal(n), 6), n)
  {
    DecimalReadsBack(n);
    DecimalIsDigits(n);
    PaddingReadsBack(Decimal(n), 6);
    PaddingIsDigits(Decimal(n), 6);
  }

  /** An id is the kind, a dash and the number in six digits or more. */
  lemma IdIsSpelled(kind: string, n: nat)
    ensures exists digits :: FormatId(kind, n) == kind + "-" + digits && SixDigits(digits, n)
  {
    hide SixDigits;
    PaddedIsSixDigits(n);
  }

  /** Two ids are equal exactly when kind and number are, whatever dashes or digits the kinds contain. */
  lemma IdsAreInjective(kind: string, n: nat, kind': string, n': nat)
    ensures FormatId(kind, n) == FormatId(kind', n') <==> kind == kind' && n == n'
  {
    DecimalReadsBack(n);
    DecimalReadsBack(n');
    PaddingReadsBack(Decimal(n), 6);
    PaddingReadsBack(Decimal(n'), 6);
    if FormatId(kind, n) == FormatId(kind', n') {
      LastDashSplits(kind, PadZeros(Decimal(n), 6), kind', PadZeros(Decimal(n'), 6));
    }
  }
}
