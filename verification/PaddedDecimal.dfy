/** Zero-padded decimal keys: text order is numeric order. */
module PaddedDecimals {
  import opened TaskStates

  const WIDTH := 20

  function Pow10(n: nat): nat {
    if n == 0 then 1 else 10 * Pow10(n - 1)
  }

  function DigitChar(d: nat): char
    requires d < 10
  {
    '0' + d as char
  }

  /** The lowest `width` decimal digits of `n`, most significant first. */
  function Digits(n: nat, width: nat): (s: string)
    ensures |s| == width
  {
    if width == 0 then "" else Digits(n / 10, width - 1) + [DigitChar(n % 10)]
  }

  function ParseDecimal(s: string): int {
    if s == "" then 0 else 10 * ParseDecimal(s[..|s| - 1]) + (s[|s| - 1] as int - '0' as int)
  }

  /** The 20-digit key of a task id. */
  function Padded(id: TaskId): string {
    Digits(id, WIDTH)
  }

  /** Byte-wise text order, as a text column compares. */
  predicate LexLess(s: string, t: string) {
    t != "" && (s == "" || s[0] < t[0] || (s[0] == t[0] && LexLess(s[1..], t[1..])))
  }

  lemma {:induction false} LexLessSnoc(s: string, t: string, c: char, d: char)
    requires |s| == |t|
    ensures LexLess(s + [c], t + [d]) <==> LexLess(s, t) || (s == t && c < d)
  {
    if s == "" {
      assert s + [c] == [c] && t + [d] == [d];
    } else {
      assert (s + [c])[1..] == s[1..] + [c] && (t + [d])[1..] == t[1..] + [d];
      assert s == t <==> s[0] == t[0] && s[1..] == t[1..] by {
        assert s == [s[0]] + s[1..] && t == [t[0]] + t[1..];
      }
      LexLessSnoc(s[1..], t[1..], c, d);
    }
  }

  lemma {:induction false} DigitsParse(n: nat, width: nat)
    requires n < Pow10(width)
    ensures ParseDecimal(Digits(n, width)) == n
  {
    if width > 0 {
      DigitsParse(n / 10, width - 1);
      assert Digits(n, width)[..width - 1] == Digits(n / 10, width - 1);
    }
  }

  lemma {:induction false} DigitsOrder(a: nat, b: nat, width: nat)
    requires a < Pow10(width) && b < Pow10(width)
    ensures LexLess(Digits(a, width), Digits(b, width)) <==> a < b
  {
    if width > 0 {
      var s, t := Digits(a / 10, width - 1), Digits(b / 10, width - 1);
      DigitsOrder(a / 10, b / 10, width - 1);
      DigitsParse(a / 10, width - 1);
      DigitsParse(b / 10, width - 1);
      LexLessSnoc(s, t, DigitChar(a % 10), DigitChar(b % 10));
    }
  }

  lemma IdsFitWidth(id: TaskId)
    ensures id < Pow10(WIDTH)
  {
    assert Pow10(10) == 10_000_000_000;
    assert Pow10(20) == 100_000_000_000_000_000_000;
  }

  /** Keys decode to their id, so equal keys are equal ids, and order as text exactly as ids order as numbers. */
  lemma PaddedOrder(a: TaskId, b: TaskId)
    ensures |Padded(a)| == WIDTH
    ensures ParseDecimal(Padded(a)) == a
    ensures Padded(a) == Padded(b) <==> a == b
    ensures LexLess(Padded(a), Padded(b)) <==> a < b
  {
    IdsFitWidth(a);
    IdsFitWidth(b);
    DigitsParse(a, WIDTH);
    DigitsParse(b, WIDTH);
    DigitsOrder(a, b, WIDTH);
  }
}
