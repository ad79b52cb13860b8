/**
 * The "last used" label of a card (client/src/lib/storage.ts, getLastUsed).
 * The current time is a parameter; dates are milliseconds since the epoch.
 */
module Recency {
  import opened Schema

  /** 1000 * 60 * 60 * 24 milliseconds. */
  const DayMillis: nat := 86_400_000

  function Abs(x: int): nat
  {
    if x < 0 then -x else x
  }

  /** `Math.ceil(x / d)` for a non-negative x. */
  function CeilDiv(x: nat, d: nat): (q: nat)
    requires d > 0
    ensures x <= q * d
    ensures q == 0 || (q - 1) * d < x
  {
    if x % d == 0 then x / d else x / d + 1
  }

  /** Multiplying both sides of an inequality by the same non-negative count. */
  lemma {:induction false} MulMonotone(a: int, b: int, c: nat)
    requires a <= b
    ensures a * c <= b * c
  {
  }

  /**
   * Rounding up to whole units of d and then to whole groups of m units is
   * rounding up to whole groups of m * d: `Math.ceil(Math.ceil(x / d) / m)`
   * counts the groups of m * d that x reaches into.
   */
  lemma {:induction false} CeilDivNested(x: nat, d: nat, m: nat)
    requires d > 0 && m > 0
    ensures x <= CeilDiv(CeilDiv(x, d), m) * (m * d)
    ensures CeilDiv(CeilDiv(x, d), m) == 0 || (CeilDiv(CeilDiv(x, d), m) - 1) * (m * d) < x
  {
    var q := CeilDiv(x, d);
    var w := CeilDiv(q, m);
    MulMonotone(q, w * m, d);
    MulAssoc(w, m, d);
    if w > 0 {
      var below := (w - 1) * m;
      assert below <= q - 1;
      MulMonotone(below, q - 1, d);
      MulAssoc(w - 1, m, d);
    }
  }

  lemma {:induction false} MulAssoc(a: int, b: int, c: int)
    ensures a * b * c == a * (b * c)
  {
  }

  /** Whole days between a date and now, rounded up; the direction of the difference is ignored. */
  function ElapsedDays(date: int, now: int): nat
  {
    CeilDiv(Abs(now - date), DayMillis)
  }

  /** Milliseconds between the last transaction of the list and now, either way. */
  function SinceLastUse(card: Card, now: int): nat
    requires card.transactions != []
  {
    Abs(now - card.transactions[|card.transactions| - 1].date)
  }

  /** The buckets getLastUsed chooses between, with the count it shows. */
  datatype Label = NeverUsed | DaysAgo(days: nat) | WeeksAgo(weeks: nat) | MonthsAgo(months: nat) | YearsAgo(years: nat)

  /**
   * The bucket for the card's last transaction, the last element of its list.
   * Each bucket covers a fixed range of elapsed time: under a week shows days,
   * up to 29 days shows 1 to 5 weeks, up to 364 days 1 to 13 months, beyond that years.
   */
  function LastUsedLabel(card: Card, now: int): (l: Label)
    ensures l == NeverUsed <==> card.transactions == []
    ensures l.DaysAgo? ==>
      (l.days < 7 && SinceLastUse(card, now) <= l.days * DayMillis &&
       (l.days == 0 || (l.days - 1) * DayMillis < SinceLastUse(card, now)))
    ensures l.WeeksAgo? ==>
      (1 <= l.weeks <= 5 && 6 * DayMillis < SinceLastUse(card, now) <= 29 * DayMillis &&
       (l.weeks - 1) * (7 * DayMillis) < SinceLastUse(card, now) <= l.weeks * (7 * DayMillis))
    ensures l.MonthsAgo? ==>
      (1 <= l.months <= 13 && 29 * DayMillis < SinceLastUse(card, now) <= 364 * DayMillis &&
       (l.months - 1) * (30 * DayMillis) < SinceLastUse(card, now) <= l.months * (30 * DayMillis))
    ensures l.YearsAgo? ==>
      (1 <= l.years && 364 * DayMillis < SinceLastUse(card, now) &&
       (l.years - 1) * (365 * DayMillis) < SinceLastUse(card, now) <= l.years * (365 * DayMillis))
  {
    if card.transactions == [] then NeverUsed
    else
      var x := SinceLastUse(card, now);
      var d := ElapsedDays(card.transactions[|card.transactions| - 1].date, now);
      CeilDivNested(x, DayMillis, 7);
      CeilDivNested(x, DayMillis, 30);
      CeilDivNested(x, DayMillis, 365);
      if d == 1 then DaysAgo(1)
      else if d < 7 then DaysAgo(d)
      else if d < 30 then WeeksAgo(CeilDiv(d, 7))
      else if d < 365 then MonthsAgo(CeilDiv(d, 30))
      else YearsAgo(CeilDiv(d, 365))
  }

  function DigitChar(d: nat): (c: char)
    requires d < 10
    ensures '0' <= c <= '9' && c as int - '0' as int == d
  {
    ('0' as int + d) as char
  }

  predicate IsDigits(s: string)
  {
    forall i :: 0 <= i < |s| ==> '0' <= s[i] <= '9'
  }

  /** The number a string of decimal digits denotes. */
  function DecimalValue(s: string): nat
    requires IsDigits(s)
  {
    if s == [] then 0 else DecimalValue(s[..|s| - 1]) * 10 + (s[|s| - 1] as int - '0' as int)
  }

  /** Template-literal rendering of a count: its decimal digits, read back as the same number. */
  function NatToString(n: nat): (s: string)
    ensures |s| >= 1 && IsDigits(s)
    ensures DecimalValue(s) == n
    ensures n < 10 <==> |s| == 1
    ensures n > 0 ==> s[0] != '0'
  {
    if n < 10 then [DigitChar(n)]
    else
      var s := NatToString(n / 10) + [DigitChar(n % 10)];
      assert s[..|s| - 1] == NatToString(n / 10);
      assert s[0] == NatToString(n / 10)[0];
      s
  }

  /** The text getLastUsed returns for a bucket: `${n}` followed by the unit. */
  function Render(l: Label): string
  {
    match l
    case NeverUsed => "Never used"
    case DaysAgo(n) => if n == 1 then "1 day ago" else NatToString(n) + " days ago"
    case WeeksAgo(n) => NatToString(n) + " weeks ago"
    case MonthsAgo(n) => NatToString(n) + " months ago"
    case YearsAgo(n) => NatToString(n) + " years ago"
  }

  /** getLastUsed: "Never used" exactly for a card without transactions. */
  function GetLastUsed(card: Card, now: int): (r: string)
    ensures r == "Never used" <==> card.transactions == []
  {
    RenderFirst(LastUsedLabel(card, now));
    Render(LastUsedLabel(card, now))
  }

  /**
   * Where a rendered count ends: two digit strings, each followed by a unit
   * that starts with a space, are equal when their concatenations are.
   */
  lemma {:induction false} SplitCount(d1: string, u1: string, d2: string, u2: string)
    requires IsDigits(d1) && IsDigits(d2)
    requires |u1| >= 1 && u1[0] == ' ' && |u2| >= 1 && u2[0] == ' '
    requires d1 + u1 == d2 + u2
    ensures d1 == d2 && u1 == u2
  {
    var w := d1 + u1;
    assert forall i :: 0 <= i < |d1| ==> '0' <= w[i] <= '9';
    assert forall i :: 0 <= i < |d2| ==> '0' <= w[i] <= '9';
    assert w[|d1|] == ' ' && w[|d2|] == ' ';
    assert d1 == (d1 + u1)[..|d1|];
    assert d2 == (d2 + u2)[..|d2|];
  }

  /** A rendered count-bearing label splits into the count's digits and a unit, and the two give the label back. */
  lemma {:induction false} RenderSplits(l: Label) returns (n: nat, unit: string)
    requires !l.NeverUsed?
    ensures Render(l) == NatToString(n) + unit && |unit| >= 1 && unit[0] == ' '
    ensures l == (if unit == " day ago" || unit == " days ago" then DaysAgo(n)
                  else if unit == " weeks ago" then WeeksAgo(n)
                  else if unit == " months ago" then MonthsAgo(n)
                  else YearsAgo(n))
  {
    match l
    case DaysAgo(d) =>
      n := d;
      unit := if d == 1 then " day ago" else " days ago";
      assert NatToString(1) == "1";
    case WeeksAgo(w) => n, unit := w, " weeks ago";
    case MonthsAgo(m) => n, unit := m, " months ago";
    case YearsAgo(y) => n, unit := y, " years ago";
  }

  /** The text determines the label: no two buckets or counts render alike. */
  lemma {:induction false} RenderInjective(l1: Label, l2: Label)
    requires Render(l1) == Render(l2)
    ensures l1 == l2
  {
    RenderFirst(l1);
    RenderFirst(l2);
    if !l1.NeverUsed? && !l2.NeverUsed? {
      var n1, u1 := RenderSplits(l1);
      var n2, u2 := RenderSplits(l2);
      SplitCount(NatToString(n1), u1, NatToString(n2), u2);
      assert n1 == DecimalValue(NatToString(n1)) == DecimalValue(NatToString(n2)) == n2;
    }
  }

  /** Only "Never used" starts with a letter; every other text starts with the count's first digit. */
  lemma {:induction false} RenderFirst(l: Label)
    ensures |Render(l)| >= 1
    ensures l.NeverUsed? <==> Render(l)[0] == 'N'
  {
    if !l.NeverUsed? {
      var n, unit := RenderSplits(l);
      assert Render(l)[0] == NatToString(n)[0];
    }
  }

  /** The labels at the edges of the day bucket: none used, the same instant, up to one day, and eight days. */
  lemma {:induction false} LastUsedExamples(card: Card, now: int)
    ensures card.transactions == [] ==> GetLastUsed(card, now) == "Never used"
    ensures card.transactions != [] && SinceLastUse(card, now) == 0 ==> GetLastUsed(card, now) == "0 days ago"
    ensures card.transactions != [] && 0 < SinceLastUse(card, now) <= DayMillis ==> GetLastUsed(card, now) == "1 day ago"
    ensures card.transactions != [] && SinceLastUse(card, now) == 8 * DayMillis ==> GetLastUsed(card, now) == "2 weeks ago"
  {
    if card.transactions != [] {
      var e := SinceLastUse(card, now);
      if 0 < e <= DayMillis {
        assert ElapsedDays(card.transactions[|card.transactions| - 1].date, now) == 1;
      }
      if e == 8 * DayMillis {
        assert ElapsedDays(card.transactions[|card.transactions| - 1].date, now) == 8;
        assert CeilDiv(8, 7) == 2;
        assert NatToString(2) == "2";
      }
    }
  }
}
