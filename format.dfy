/** `format_duration` (src/utils/format.rs): whole seconds shown as `45s`,
    `2m 5s` or `1h 0m 7s`. Sub-second precision is dropped by `as_secs`
    before formatting, so the input here is the whole number of seconds. */
module Format {
  import opened Decimal

  /** The fields `format_duration` prints, by the form it chooses. */
  datatype Shown =
    | Seconds(s: nat)
    | MinutesSeconds(m: nat, s: nat)
    | HoursMinutesSeconds(h: nat, m: nat, s: nat)

  /** The number of seconds the printed fields stand for. */
  function Total(d: Shown): nat {
    match d
    case Seconds(s) => s
    case MinutesSeconds(m, s) => m * 60 + s
    case HoursMinutesSeconds(h, m, s) => h * 3600 + m * 60 + s
  }

  /** The fields are in range and the form is the one chosen for their
      total: seconds alone below a minute, no hours below an hour. */
  predicate Canonical(d: Shown) {
    match d
    case Seconds(s) => s < 60
    case MinutesSeconds(m, s) => 1 <= m < 60 && s < 60
    case HoursMinutesSeconds(h, m, s) => 1 <= h && m < 60 && s < 60
  }

  /** The branch and the divisions of `format_duration`. */
  function Breakdown(secs: nat): (d: Shown)
    ensures Canonical(d) && Total(d) == secs
  {
    if secs < 60 then Seconds(secs)
    else if secs < 3600 then MinutesSeconds(secs / 60, secs % 60)
    else
      var rest := secs % 3600;
      HoursSplit(secs);
      HoursMinutesSeconds(secs / 3600, rest / 60, secs % 60)
  }

  /** The `format!` patterns `{}s`, `{}m {}s` and `{}h {}m {}s`. */
  function Render(d: Shown): string {
    match d
    case Seconds(s) => NatToString(s) + "s"
    case MinutesSeconds(m, s) => NatToString(m) + "m " + NatToString(s) + "s"
    case HoursMinutesSeconds(h, m, s) => NatToString(h) + "h " + NatToString(m) + "m " + NatToString(s) + "s"
  }

  /** `format_duration`. */
  function FormatDuration(secs: u64): (text: string)
    ensures text != [] && text[|text| - 1] == 's'
  {
    Render(Breakdown(secs))
  }

  // ---------------------------------------------------------------- lemmas

  /** There is only one canonical way to print a number of seconds: the
      fields `format_duration` prints are the unique in-range split. */
  lemma BreakdownUnique(d: Shown)
    requires Canonical(d)
    ensures Breakdown(Total(d)) == d
  {
    match d
    case Seconds(s) =>
    case MinutesSeconds(m, s) =>
      DivMod60(m, s);
    case HoursMinutesSeconds(h, m, s) =>
      DivMod3600(h, m * 60 + s);
      DivMod60(m, s);
      assert h * 3600 + m * 60 + s == (h * 60 + m) * 60 + s;
      DivMod60(h * 60 + m, s);
  }

  /** Division by 60 recovers minutes and seconds. */
  lemma DivMod60(q: nat, r: nat)
    requires r < 60
    ensures (q * 60 + r) / 60 == q && (q * 60 + r) % 60 == r
  {
  }

  /** Division by 3600 recovers hours and the seconds within the hour. */
  lemma DivMod3600(q: nat, r: nat)
    requires r < 3600
    ensures (q * 3600 + r) / 3600 == q && (q * 3600 + r) % 3600 == r
  {
  }

  /** The hours, minutes and seconds `format_duration` divides out of a
      total of at least an hour. */
  lemma HoursSplit(secs: nat)
    requires 3600 <= secs
    ensures var rest := secs % 3600;
      secs == (secs / 3600) * 3600 + (rest / 60) * 60 + secs % 60
      && rest / 60 < 60 && secs % 60 < 60
  {
    var h, rest := secs / 3600, secs % 3600;
    var m, s := rest / 60, rest % 60;
    assert secs == h * 3600 + m * 60 + s;
    assert secs == (h * 60 + m) * 60 + s;
    DivMod60(h * 60 + m, s);
  }

  /** 45 s, 125 s and 3725 s print as `45s`, `2m 5s` and `1h 2m 5s`. */
  lemma FormatExamples()
    ensures FormatDuration(45) == "45s"
    ensures FormatDuration(125) == "2m 5s"
    ensures FormatDuration(3725) == "1h 2m 5s"
  {
    assert Breakdown(125) == MinutesSeconds(2, 5);
    assert Breakdown(3725) == HoursMinutesSeconds(1, 2, 5);
    assert NatToString(45) == "45" by {
      assert NatToString(4) == "4";
    }
  }

  /** Distinct durations print differently: the text determines the number
      of seconds. */
  lemma {:induction false} FormatDurationInjective(s1: u64, s2: u64)
    requires FormatDuration(s1) == FormatDuration(s2)
    ensures s1 == s2
  {
    var d1, d2 := Breakdown(s1), Breakdown(s2);
    RenderInjective(d1, d2);
  }

  lemma RenderInjective(d1: Shown, d2: Shown)
    requires Canonical(d1) && Canonical(d2)
    requires Render(d1) == Render(d2)
    ensures d1 == d2
  {
    var r := Render(d1);
    var f1, f2 := Fields(d1), Fields(d2);
    FieldsOfRender(d1);
    FieldsOfRender(d2);
    assert f1 == f2;
    match d1
    case Seconds(_) =>
      match d2 {
        case Seconds(_) => NatToStringInjective(d1.s, d2.s);
        case MinutesSeconds(_, _) =>
        case HoursMinutesSeconds(_, _, _) =>
      }
    case MinutesSeconds(_, _) =>
      match d2 {
        case Seconds(_) =>
        case MinutesSeconds(_, _) =>
          NatToStringInjective(d1.m, d2.m);
          NatToStringInjective(d1.s, d2.s);
        case HoursMinutesSeconds(_, _, _) =>
      }
    case HoursMinutesSeconds(_, _, _) =>
      match d2 {
        case Seconds(_) =>
        case MinutesSeconds(_, _) =>
        case HoursMinutesSeconds(_, _, _) =>
          NatToStringInjective(d1.h, d2.h);
          NatToStringInjective(d1.m, d2.m);
          NatToStringInjective(d1.s, d2.s);
      }
  }

  /** The printed numbers with their unit letters, in order. */
  function Fields(d: Shown): seq<(string, char)> {
    match d
    case Seconds(s) => [(NatToString(s), 's')]
    case MinutesSeconds(m, s) => [(NatToString(m), 'm'), (NatToString(s), 's')]
    case HoursMinutesSeconds(h, m, s) => [(NatToString(h), 'h'), (NatToString(m), 'm'), (NatToString(s), 's')]
  }

  /** Reading a rendered text back field by field: digits up to the first
      unit letter, then a space, and so on. */
  function ReadFields(t: string, fuel: nat): seq<(string, char)>
    decreases fuel
  {
    var k := DigitRun(t);
    if fuel == 0 || k >= |t| then []
    else if k + 1 == |t| then [(t[..k], t[k])]
    else [(t[..k], t[k])] + ReadFields(t[k + 2..], fuel - 1)
  }

  /** The length of the run of digits that starts the text. */
  function DigitRun(t: string): (k: nat)
    ensures k <= |t| && (k < |t| ==> !IsDigit(t[k]))
    ensures forall j :: 0 <= j < k ==> IsDigit(t[j])
  {
    if t != [] && IsDigit(t[0]) then
      var k := 1 + DigitRun(t[1..]);
      assert forall j :: 1 <= j < k ==> t[j] == t[1..][j - 1];
      k
    else 0
  }

  lemma DigitRunOf(a: string, c: char, rest: string)
    requires AllDigits(a) && !IsDigit(c)
    ensures DigitRun(a + [c] + rest) == |a|
  {
    var t := a + [c] + rest;
    assert forall j :: 0 <= j < |a| ==> t[j] == a[j];
    assert t[|a|] == c;
  }

  /** One field read off the front of a text. */
  lemma ReadField(a: string, c: char, rest: string, fuel: nat)
    requires AllDigits(a) && !IsDigit(c) && 0 < fuel
    ensures rest == [] ==> ReadFields(a + [c] + rest, fuel) == [(a, c)]
    ensures |rest| > 0 ==> ReadFields(a + [c] + rest, fuel) == [(a, c)] + ReadFields(rest[1..], fuel - 1)
  {
    var t := a + [c] + rest;
    DigitRunOf(a, c, rest);
    assert t[..|a|] == a && t[|a|] == c;
    if |rest| > 0 {
      assert t[|a| + 2..] == rest[1..];
    }
  }

  lemma FieldsOfRender(d: Shown)
    ensures ReadFields(Render(d), 3) == Fields(d)
  {
    match d
    case Seconds(s) => FieldsOfSeconds(s);
    case MinutesSeconds(m, s) => FieldsOfMinutes(m, s);
    case HoursMinutesSeconds(h, m, s) => FieldsOfHours(h, m, s);
  }

  lemma FieldsOfSeconds(s: nat)
    ensures ReadFields(NatToString(s) + "s", 3) == [(NatToString(s), 's')]
  {
    var a := NatToString(s);
    assert a + "s" == a + ['s'] + [];
    ReadField(a, 's', [], 3);
  }

  /** The tail `" <digits>s"` of a rendered text reads as one field. */
  lemma LastField(b: string, fuel: nat)
    requires AllDigits(b) && 0 < fuel
    ensures ReadFields((" " + b + "s")[1..], fuel) == [(b, 's')]
  {
    assert (" " + b + "s")[1..] == b + ['s'] + [];
    ReadField(b, 's', [], fuel);
  }

  /** Two fields `<a><u> <b>s`. */
  lemma TwoFields(a: string, u: char, b: string, fuel: nat)
    requires AllDigits(a) && AllDigits(b) && !IsDigit(u) && 1 < fuel
    ensures ReadFields(a + [u] + " " + b + "s", fuel) == [(a, u), (b, 's')]
  {
    assert a + [u] + " " + b + "s" == a + [u] + (" " + b + "s");
    ReadField(a, u, " " + b + "s", fuel);
    LastField(b, fuel - 1);
  }

  lemma FieldsOfMinutes(m: nat, s: nat)
    ensures ReadFields(NatToString(m) + "m " + NatToString(s) + "s", 3) == [(NatToString(m), 'm'), (NatToString(s), 's')]
  {
    var a, b := NatToString(m), NatToString(s);
    MinutesRegroup(a, b);
    TwoFields(a, 'm', b, 3);
  }

  lemma MinutesRegroup(a: string, b: string)
    ensures a + "m " + b + "s" == a + ['m'] + " " + b + "s"
  {
    assert "m " == ['m'] + " ";
  }

  lemma HoursRegroup(a: string, b: string, c: string)
    ensures a + "h " + b + "m " + c + "s" == a + ['h'] + (" " + (b + ['m'] + " " + c + "s"))
  {
    var rest := b + "m " + c + "s";
    assert b + ['m'] + " " + c + "s" == rest;
    assert a + "h " + b + "m " + c + "s" == a + "h " + rest;
  }

  /** Three fields `<a>h <b>m <c>s`. */
  lemma ThreeFields(a: string, b: string, c: string, fuel: nat)
    requires AllDigits(a) && AllDigits(b) && AllDigits(c) && 2 < fuel
    ensures ReadFields(a + "h " + b + "m " + c + "s", fuel) == [(a, 'h'), (b, 'm'), (c, 's')]
  {
    var tail := " " + (b + ['m'] + " " + c + "s");
    HoursRegroup(a, b, c);
    ReadField(a, 'h', tail, fuel);
    assert tail[1..] == b + ['m'] + " " + c + "s";
    TwoFields(b, 'm', c, fuel - 1);
  }

  lemma FieldsOfHours(h: nat, m: nat, s: nat)
    ensures ReadFields(NatToString(h) + "h " + NatToString(m) + "m " + NatToString(s) + "s", 3)
         == [(NatToString(h), 'h'), (NatToString(m), 'm'), (NatToString(s), 's')]
  {
    ThreeFields(NatToString(h), NatToString(m), NatToString(s), 3);
  }
}
