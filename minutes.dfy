/**
 * The absence totals written into the spreadsheet: a number of minutes as
 * "<hours>h<minutes>m".
 */
module Minutes {
  import opened Wrappers
  import opened Text

  /**
   * `f"{minutes // 60}h{minutes % 60}m"`.  Python's `//` and `%` round
   * toward minus infinity; for the positive divisor 60 they agree with
   * Dafny's `/` and `%`, negative totals included.
   */
  function Written(minutes: int): string {
    IntToString(minutes / 60) + "h" + IntToString(minutes % 60) + "m"
  }

  /** `convert_minutes_to_hours_and_minutes`: "0h0m" for `None` or 0, the written hours and minutes otherwise. */
  function HoursAndMinutes(minutes: Option<int>): string {
    if minutes.None? || minutes.value == 0 then "0h0m" else Written(minutes.value)
  }

  /** The general formula already writes 0 as "0h0m": the guard for 0 changes nothing. */
  lemma {:induction false} GuardChangesNothing(m: int)
    ensures HoursAndMinutes(Some(m)) == Written(m)
  {
    assert IntToString(0) == "0";
  }

  /**
   * The text is the hours, 'h', the remaining minutes below 60 and 'm', for
   * the only hours and remainder that make up the total.
   */
  lemma {:induction false} WrittenParts(m: int, h: int, r: int)
    requires 0 <= r < 60 && h * 60 + r == m
    ensures Written(m) == IntToString(h) + "h" + IntToString(r) + "m"
  {
    assert m / 60 == h && m % 60 == r by {
      DivisionUnique(m, h, r);
    }
  }

  lemma {:induction false} DivisionUnique(m: int, h: int, r: int)
    requires 0 <= r < 60 && h * 60 + r == m
    ensures m / 60 == h && m % 60 == r
  {
    var q, s := m / 60, m % 60;
    assert (h - q) * 60 == s - r;
  }

  /** Reads "<hours>h<minutes>m" back into a number of minutes. */
  function ReadHoursAndMinutes(s: string): Option<int> {
    var k := Find(s, 'h');
    if k + 1 < |s| && s[|s| - 1] == 'm' then
      match (ParseInt(s[..k]), ParseInt(s[k + 1..|s| - 1]))
      case (Some(h), Some(r)) => Some(h * 60 + r)
      case _ => None
    else None
  }

  /** `str(i)` never holds an 'h'. */
  lemma {:induction false} NoHourMark(i: int)
    ensures 'h' !in IntToString(i)
  {
    var d := NatToString(if i < 0 then -i else i);
    AllDigitsEach(d);
    assert forall j :: 0 <= j < |d| ==> d[j] != 'h';
  }

  /** The first 'h' of a text that starts with a number and an 'h' is the one after the number. */
  lemma {:induction false} HourMarkFound(a: string, rest: string)
    requires 'h' !in a
    ensures Find(a + "h" + rest, 'h') == |a|
  {
    var s := a + "h" + rest;
    assert s[|a|] == 'h';
    assert forall j :: 0 <= j < |a| ==> s[j] == a[j];
  }

  /** Reading "<h>h<r>m" back gives the total of `h` hours and `r` minutes. */
  lemma {:induction false} ReadWritten(h: int, r: int)
    ensures ReadHoursAndMinutes(IntToString(h) + "h" + IntToString(r) + "m") == Some(h * 60 + r)
  {
    var a, b := IntToString(h), IntToString(r);
    var s := a + "h" + b + "m";
    assert Find(s, 'h') == |a| by {
      NoHourMark(h);
      HourMarkFound(a, b + "m");
      assert s == a + "h" + (b + "m");
    }
    var k := |a|;
    assert ParseInt(s[..k]) == Some(h) by {
      assert s[..k] == a;
      ParseIntRoundTrip(h);
    }
    assert ParseInt(s[k + 1..|s| - 1]) == Some(r) by {
      assert s[k + 1..|s| - 1] == b;
      ParseIntRoundTrip(r);
    }
    assert k + 1 < |s| && s[|s| - 1] == 'm';
    ReadParts(s, k, h, r);
  }

  /** A text with hours before its first 'h' and minutes between it and a final 'm' reads as their total. */
  lemma {:induction false} ReadParts(s: string, k: nat, h: int, r: int)
    requires Find(s, 'h') == k && k + 1 < |s| && s[|s| - 1] == 'm'
    requires ParseInt(s[..k]) == Some(h) && ParseInt(s[k + 1..|s| - 1]) == Some(r)
    ensures ReadHoursAndMinutes(s) == Some(h * 60 + r)
  {
  }

  /** Reading the written hours and minutes back gives the total; `None` reads back as 0. */
  lemma {:induction false} HoursAndMinutesRoundTrip(minutes: Option<int>)
    ensures ReadHoursAndMinutes(HoursAndMinutes(minutes)) == Some(minutes.GetOr(0))
  {
    var m := minutes.GetOr(0);
    var s := HoursAndMinutes(minutes);
    assert s == Written(m) by {
      GuardChangesNothing(m);
    }
    ReadBack(s, m);
  }

  /** A text equal to the written total reads back as that total. */
  lemma {:induction false} ReadBack(s: string, m: int)
    requires s == Written(m)
    ensures ReadHoursAndMinutes(s) == Some(m)
  {
    var h, r := m / 60, m % 60;
    assert h * 60 + r == m;
    assert s == IntToString(h) + "h" + IntToString(r) + "m";
    ReadWritten(h, r);
  }

  /** Different totals are written differently. */
  lemma {:induction false} HoursAndMinutesInjective(m: int, n: int)
    requires HoursAndMinutes(Some(m)) == HoursAndMinutes(Some(n))
    ensures m == n
  {
    HoursAndMinutesRoundTrip(Some(m));
    HoursAndMinutesRoundTrip(Some(n));
  }
}
