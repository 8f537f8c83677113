/** DateTimeManager: the two strings the live clock writes on every tick.
    The clock fields come in as parameters (the `Date` object's
    `getHours()`, `getMinutes()`, `getMonth()`, `getDate()`). */
module DateTime {
  import opened Decimal

  /** updateTimeDisplay: "HH:MM". */
  function FormatClock(hours: nat, minutes: nat): string {
    Pad2(hours) + ":" + Pad2(minutes)
  }

  /** updateDateDisplay: "MM月DD日"; `getMonth()` counts from 0, so the
      displayed month is one more than the index. */
  function FormatDate(monthIndex: nat, day: nat): string {
    Pad2(monthIndex + 1) + "月" + Pad2(day) + "日"
  }

  /** For clock fields in their calendar ranges the time string is five
      characters: the tens and units digit of the hours, a colon, the tens
      and units digit of the minutes, so a value below 10 gets one leading
      zero. */
  lemma FormatClockFields(hours: nat, minutes: nat)
    requires hours < 24 && minutes < 60
    ensures FormatClock(hours, minutes)
      == [DigitChar(hours / 10), DigitChar(hours % 10), ':', DigitChar(minutes / 10), DigitChar(minutes % 10)]
  {
    var a, b := Pad2(hours), Pad2(minutes);
    assert a == [DigitChar(hours / 10), DigitChar(hours % 10)] by {
      Pad2Field(hours);
    }
    assert b == [DigitChar(minutes / 10), DigitChar(minutes % 10)] by {
      Pad2Field(minutes);
    }
    JoinFields(a, ":", b);
  }

  /** The date string: month and day fields of two digits each, each
      followed by its marker; the month shown is the index plus one. */
  lemma FormatDateFields(monthIndex: nat, day: nat)
    requires monthIndex < 12 && 1 <= day <= 31
    ensures FormatDate(monthIndex, day)
      == [DigitChar((monthIndex + 1) / 10), DigitChar((monthIndex + 1) % 10), '月',
          DigitChar(day / 10), DigitChar(day % 10), '日']
  {
    var a, b := Pad2(monthIndex + 1), Pad2(day);
    assert a == [DigitChar((monthIndex + 1) / 10), DigitChar((monthIndex + 1) % 10)] by {
      Pad2Field(monthIndex + 1);
    }
    assert b == [DigitChar(day / 10), DigitChar(day % 10)] by {
      Pad2Field(day);
    }
    JoinDateFields(a, "月", b, "日");
  }

  /** Two fields of two characters around a one-character separator. */
  lemma JoinFields(a: string, sep: string, b: string)
    requires |a| == 2 && |sep| == 1 && |b| == 2
    ensures a + sep + b == [a[0], a[1], sep[0], b[0], b[1]]
  {
  }

  /** Two fields of two characters, each followed by a one-character marker. */
  lemma JoinDateFields(a: string, s1: string, b: string, s2: string)
    requires |a| == 2 && |s1| == 1 && |b| == 2 && |s2| == 1
    ensures a + s1 + b + s2 == [a[0], a[1], s1[0], b[0], b[1], s2[0]]
  {
  }

  /** A morning time: both fields gain a leading zero. */
  lemma ClockExampleMorning()
    ensures FormatClock(9, 5) == "09:05"
  {
  }

  /** Midnight: both fields are a single zero padded to two. */
  lemma ClockExampleMidnight()
    ensures FormatClock(0, 0) == "00:00"
  {
  }

  /** January 1st: month index 0 is shown as "01". */
  lemma DateExampleNewYear()
    ensures FormatDate(0, 1) == "01月01日"
  {
  }

  /** September 5th: month index 8 is shown as "09". */
  lemma DateExampleSeptember()
    ensures FormatDate(8, 5) == "09月05日"
  {
  }
}
