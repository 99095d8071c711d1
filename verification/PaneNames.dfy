/** Generated stable pane identities: "pane-" followed by a decimal serial. */
module PaneNames {
  import opened Identifiers

  /// One past the largest 64-bit serial.
  const SERIAL_LIMIT: nat := 0x1_0000_0000_0000_0000

  predicate IsDigit(c: char) {
    '0' <= c <= '9'
  }

  function DigitValue(c: char): nat
    requires IsDigit(c)
  {
    c as int - '0' as int
  }

  function Digit(d: nat): (c: char)
    requires d < 10
    ensures IsDigit(c) && DigitValue(c) == d
  {
    (d + '0' as int) as char
  }

  function Decimal(n: nat): (s: string)
    ensures s != []
  {
    if n < 10 then [Digit(n)] else Decimal(n / 10) + [Digit(n % 10)]
  }

  /// The number a digit string denotes; None for anything but digits.
  function ParseDigits(s: string): Option<nat> {
    if s == [] || !IsDigit(s[|s| - 1]) then None
    else if |s| == 1 then Some(DigitValue(s[0]))
    else
      match ParseDigits(s[..|s| - 1])
      case None => None
      case Some(v) => Some(10 * v + DigitValue(s[|s| - 1]))
  }

  const PREFIX: string := "pane-"

  function PaneName(serial: nat): string {
    PREFIX + Decimal(serial)
  }

  /// The serial of a generated identity; None for other text and for serials
  /// that do not fit in 64 bits.
  function ParsePaneName(text: string): Option<nat> {
    if |text| <= |PREFIX| || text[..|PREFIX|] != PREFIX then None
    else
      match ParseDigits(text[|PREFIX|..])
      case Some(v) => if v < SERIAL_LIMIT then Some(v) else None
      case None => None
  }

  lemma {:induction false} DecimalRoundTrip(n: nat)
    ensures ParseDigits(Decimal(n)) == Some(n)
  {
    if n >= 10 {
      DecimalRoundTrip(n / 10);
      assert Decimal(n)[..|Decimal(n)| - 1] == Decimal(n / 10);
    }
  }

  lemma PaneNameRoundTrip(serial: nat)
    ensures ParsePaneName(PaneName(serial)) == if serial < SERIAL_LIMIT then Some(serial) else None
  {
    DecimalRoundTrip(serial);
    assert PaneName(serial)[|PREFIX|..] == Decimal(serial);
  }

  lemma PaneNameInjective(a: nat, b: nat)
    requires PaneName(a) == PaneName(b)
    ensures a == b
  {
    DecimalRoundTrip(a);
    DecimalRoundTrip(b);
    assert PaneName(a)[|PREFIX|..] == Decimal(a);
    assert PaneName(b)[|PREFIX|..] == Decimal(b);
  }

  /// The first serial, counting up from next, whose identity is not in use.
  function FreshSerial(used: set<string>, next: nat): nat
    decreases |used|
  {
    if PaneName(next) in used then FreshSerial(used - {PaneName(next)}, next + 1) else next
  }

  /// The search ends within |used| steps at an unused identity and skips only used ones.
  lemma {:induction false} FreshSerialLaw(used: set<string>, next: nat)
    ensures next <= FreshSerial(used, next) <= next + |used|
    ensures PaneName(FreshSerial(used, next)) !in used
    ensures forall k :: next <= k < FreshSerial(used, next) ==> PaneName(k) in used
    decreases |used|
  {
    if PaneName(next) in used {
      var rest := used - {PaneName(next)};
      FreshSerialLaw(rest, next + 1);
      var r := FreshSerial(rest, next + 1);
      if PaneName(r) == PaneName(next) {
        PaneNameInjective(r, next);
      }
    }
  }
}
