/**
 * The unread-counter icon of the main window (mainwindow.cpp,
 * iconWithCounter and placeSmallCounter): which icon size is used, which
 * logo is the base, which badge is drawn and the text inside the badge.
 * Painting itself (fonts, rounded rectangles, pixel offsets derived from font
 * metrics) is not modelled; the plan of one icon is a value.
 */
module CounterIcon {

  // ---------------------------------------------------------------- decimal text

  function DigitChar(d: nat): (c: char)
    requires d < 10
    ensures '0' <= c <= '9'
  {
    ('0' as int + d) as char
  }

  predicate AllDigits(s: string) {
    forall i | 0 <= i < |s| :: '0' <= s[i] <= '9'
  }

  /** Decimal digits of a non-negative number, without leading zeros. */
  function NatToDecimal(n: nat): (s: string)
    ensures |s| >= 1 && AllDigits(s)
    ensures s[0] == '0' ==> n == 0
  {
    if n < 10 then [DigitChar(n)] else NatToDecimal(n / 10) + [DigitChar(n % 10)]
  }

  /** QString::arg(int) with its defaults: decimal, a minus sign for negative numbers. */
  function IntToDecimal(n: int): (s: string)
    ensures |s| >= 1 && (s[0] == '-' <==> n < 0)
    ensures n >= 0 ==> AllDigits(s)
    ensures n < 0 ==> AllDigits(s[1..])
  {
    if n < 0 then "-" + NatToDecimal(-n) else NatToDecimal(n)
  }

  /** The number a string of decimal digits denotes. */
  function DecimalValue(s: string): nat
    requires AllDigits(s)
  {
    if s == [] then 0 else 10 * DecimalValue(s[..|s| - 1]) + (s[|s| - 1] as int - '0' as int)
  }

  /**
   * `s` is the text QString::arg gives for `n`: decimal digits only, denoting
   * `n`, and no leading zero.
   */
  ghost predicate IsDecimalOf(s: string, n: nat) {
    |s| >= 1 && AllDigits(s) && DecimalValue(s) == n && (s[0] == '0' ==> |s| == 1)
  }

  /** NatToDecimal writes exactly that text. */
  lemma NatToDecimalIsDecimalOf(n: nat)
    ensures IsDecimalOf(NatToDecimal(n), n)
  {
    DecimalRoundTrip(n);
  }

  /** Reading the digits back gives the number. */
  lemma {:induction false} DecimalRoundTrip(n: nat)
    ensures DecimalValue(NatToDecimal(n)) == n
  {
    if n >= 10 {
      var s := NatToDecimal(n);
      assert s[..|s| - 1] == NatToDecimal(n / 10);
      DecimalRoundTrip(n / 10);
    }
  }

  function Pow10(k: nat): (p: nat)
    ensures p >= 1
  {
    if k == 0 then 1 else 10 * Pow10(k - 1)
  }

  /** A number below 10^k takes at most k digits. */
  lemma {:induction false} DecimalLength(n: nat, k: nat)
    requires 1 <= k && n < Pow10(k)
    ensures |NatToDecimal(n)| <= k
  {
    if n >= 10 {
      DecimalLength(n / 10, k - 1);
    }
  }

  /**
   * QString::arg(a, fieldWidth, base, fillChar) with a positive field width:
   * the text right-aligned in `width` characters, padded on the left.
   */
  function LeftPadded(s: string, width: nat, fill: char): (r: string)
    ensures |r| == if |s| >= width then |s| else width
    ensures r[|r| - |s|..] == s
    ensures forall i | 0 <= i < |r| - |s| :: r[i] == fill
  {
    if |s| >= width then s else [fill] + LeftPadded(s, width - 1, fill)
  }

  // ---------------------------------------------------------------- labels

  /** The text of a layer badge: the count below 1000, else ".." and its last two digits. */
  function LayerLabel(count: int): (text: string)
    ensures |text| >= 1
    ensures (|text| >= 2 && text[..2] == "..") <==> count >= 1000
  {
    if count < 1000 then IntToDecimal(count)
    else ".." + LeftPadded(NatToDecimal(count % 100), 2, '0')
  }

  /** The text of a small-icon badge: the count below 100, else ".." and its last digit. */
  function SmallLabel(count: int): (text: string)
    ensures |text| >= 1
    ensures (|text| >= 2 && text[..2] == "..") <==> count >= 100
  {
    if count < 100 then IntToDecimal(count)
    else ".." + LeftPadded(NatToDecimal(count % 10), 1, '0')
  }

  /** Any count that a layer badge shows in full (down to -999) gives at most four characters. */
  lemma LayerLabelFitsFour(count: int)
    requires count >= -999
    ensures |LayerLabel(count)| <= 4
  {
    assert Pow10(3) == 1000;
    if count >= 1000 {
      assert Pow10(2) == 100;
      DecimalLength(count % 100, 2);
    } else if count >= 0 {
      DecimalLength(count, 3);
    } else {
      DecimalLength(-count, 3);
    }
  }

  /**
   * A count below 1000 is shown in full, as QString::arg writes it: its
   * decimal digits without leading zeros, after a minus sign when negative.
   */
  lemma LayerLabelShowsCount(count: int)
    requires count < 1000
    ensures count >= 0 ==> IsDecimalOf(LayerLabel(count), count)
    ensures count < 0 ==> LayerLabel(count)[0] == '-' && IsDecimalOf(LayerLabel(count)[1..], -count)
  {
    if count >= 0 {
      NatToDecimalIsDecimalOf(count);
    } else {
      NatToDecimalIsDecimalOf(-count);
      assert LayerLabel(count)[1..] == NatToDecimal(-count);
    }
  }

  /** Two digits, zero-padded on the left, spelling a number below 100. */
  lemma {:induction false} PaddedTwoDigits(n: nat)
    requires n < 100
    ensures var padded := LeftPadded(NatToDecimal(n), 2, '0');
      |padded| == 2 && AllDigits(padded) && DecimalValue(padded) == n
  {
    if n < 10 {
      var c := DigitChar(n);
      assert NatToDecimal(n) == [c];
      assert LeftPadded([c], 1, '0') == [c];
      assert LeftPadded([c], 2, '0') == ['0', c];
      assert ['0', c][..1] == ['0'] && ['0'][..0] == [];
      assert DecimalValue(['0']) == 0;
      assert DecimalValue(['0', c]) == 10 * DecimalValue(['0']) + (c as int - '0' as int);
    } else {
      assert Pow10(2) == 10 * Pow10(1) == 100;
      DecimalLength(n, 2);
      assert |NatToDecimal(n)| == 2;
      DecimalRoundTrip(n);
    }
  }

  /** From 1000 on the label is "..", then exactly two digits that spell count % 100. */
  lemma {:induction false} LayerLabelAbbreviates(count: int)
    requires count >= 1000
    ensures |LayerLabel(count)| == 4 && LayerLabel(count)[..2] == ".."
    ensures AllDigits(LayerLabel(count)[2..]) && DecimalValue(LayerLabel(count)[2..]) == count % 100
  {
    var last := count % 100;
    var padded := LeftPadded(NatToDecimal(last), 2, '0');
    PaddedTwoDigits(last);
    assert LayerLabel(count) == ".." + padded;
    assert (".." + padded)[2..] == padded;
  }

  /**
   * Counts of 1000 and more that agree modulo 1000 get the same label, the
   * property the Linux tray code relies on.
   */
  lemma LayerLabelPeriodic(a: int, b: int)
    requires a >= 1000 && b >= 1000 && a % 1000 == b % 1000
    ensures LayerLabel(a) == LayerLabel(b)
  {
    ModOfMod(a);
    ModOfMod(b);
    var last := a % 100;
    assert b % 100 == last;
  }

  lemma ModOfMod(x: int)
    requires x >= 0
    ensures x % 100 == (x % 1000) % 100
  {
  }

  /**
   * A count below 100 is shown in full on a small badge, as QString::arg
   * writes it: decimal digits without leading zeros, after a minus sign when negative.
   */
  lemma SmallLabelShowsCount(count: int)
    requires count < 100
    ensures count >= 0 ==> IsDecimalOf(SmallLabel(count), count)
    ensures count < 0 ==> SmallLabel(count)[0] == '-' && IsDecimalOf(SmallLabel(count)[1..], -count)
  {
    if count >= 0 {
      NatToDecimalIsDecimalOf(count);
    } else {
      NatToDecimalIsDecimalOf(-count);
      assert SmallLabel(count)[1..] == NatToDecimal(-count);
    }
  }

  /** A small badge never exceeds three characters for counts from -99 on; from 100 on it is ".." and the last digit. */
  lemma SmallLabelShape(count: int)
    requires count >= -99
    ensures |SmallLabel(count)| <= 3
    ensures count >= 100 ==> SmallLabel(count) == ".." + [DigitChar(count % 10)]
  {
    assert Pow10(2) == 100;
    if count >= 100 {
    } else if count >= 0 {
      DecimalLength(count, 2);
    } else {
      DecimalLength(-count, 2);
    }
  }

  // ---------------------------------------------------------------- sizes

  /** Layer badges come in 16, 20, 24 and 32 pixels; anything else becomes 32. */
  function LayerBadgeSize(size: int): (r: int)
    ensures r == 16 || r == 20 || r == 24 || r == 32
    ensures size == 16 || size == 20 || size == 24 || size == 32 ==> r == size
    ensures size != 16 && size != 20 && size != 24 ==> r == 32
  {
    if size != 16 && size != 20 && size != 24 then 32 else size
  }

  /** Application icons come in 16, 32 and 64 pixels; anything else becomes 64. */
  function AppIconSize(size: int): (r: int)
    ensures r == 16 || r == 32 || r == 64
    ensures size == 16 || size == 32 || size == 64 ==> r == size
    ensures size != 16 && size != 32 ==> r == 64
  {
    if size != 16 && size != 32 then 64 else size
  }

  // ---------------------------------------------------------------- the icon

  /** The two logos (Core::App().logo() and logoNoMargin()). */
  datatype Logo = Logo | LogoNoMargin

  datatype CounterImage =
      /** A transparent square of `side` pixels with a badge showing `text`. */
    | LayerBadge(side: int, text: string)
      /** The logo at `side` pixels, blackened in support mode, with its counter. */
    | AppIcon(side: int, logo: Logo, black: bool, counter: Counter)

  datatype Counter =
    | NoCounter
      /** placeSmallCounter: a badge in the bottom-right corner. */
    | SmallCounter(text: string)
      /** A layer badge drawn at (`offset`, `offset`). */
    | OverlaidBadge(offset: int, badge: CounterImage)

  /**
   * iconWithCounter.  A negative size asks for a bare layer badge of the
   * opposite size; otherwise the logo is used, with a small counter or with a
   * layer badge of half the icon's size drawn over its bottom-right quarter.
   */
  function IconWithCounter(size: int, count: int, smallIcon: bool, supportMode: bool): (image: CounterImage)
    ensures image.LayerBadge? <==> size < 0
    ensures image.LayerBadge? ==> image == LayerBadge(LayerBadgeSize(-size), LayerLabel(count))
    ensures image.AppIcon? ==>
      && image.side == AppIconSize(size)
      && (image.logo == LogoNoMargin <==> smallIcon)
      && image.black == supportMode
      && (image.counter == NoCounter <==> count == 0)
    decreases if size < 0 then 0 else 1
  {
    if size < 0 then
      LayerBadge(LayerBadgeSize(-size), LayerLabel(count))
    else
      var side := AppIconSize(size);
      var logo := if smallIcon then LogoNoMargin else Logo;
      if count == 0 then AppIcon(side, logo, supportMode, NoCounter)
      else if smallIcon then AppIcon(side, logo, supportMode, SmallCounter(SmallLabel(count)))
      else AppIcon(side, logo, supportMode,
        OverlaidBadge(side / 2, IconWithCounter(-side / 2, count, false, supportMode)))
  }

  /** The small counter is the one placeSmallCounter formats. */
  lemma SmallIconCounter(size: int, count: int, supportMode: bool)
    requires size >= 0 && count != 0
    ensures IconWithCounter(size, count, true, supportMode).counter == SmallCounter(SmallLabel(count))
  {
  }

  /**
   * The overlaid badge is half the icon for 32 and 64 pixels; for a 16-pixel
   * icon the requested 8 is not a badge size and the badge is 32 pixels.
   */
  lemma OverlaidBadgeSide(size: int, count: int, supportMode: bool)
    requires size >= 0 && count != 0
    ensures var image := IconWithCounter(size, count, false, supportMode);
      && image.counter.OverlaidBadge?
      && image.counter.offset == image.side / 2
      && image.counter.badge == LayerBadge(if image.side == 16 then 32 else image.side / 2, LayerLabel(count))
  {
  }
}
