/**
 * The new-inspection dialog: the required-field check and the conversion of
 * the time input from 24-hour "HH:MM" to "h:MM AM/PM" before the inspection
 * is sent. The date formatting comes in as a function, which fails on a date
 * it cannot read.
 */
module AddInspectionModal {
  import opened Wrappers
  import opened Text

  /** The request body of a new inspection. */
  datatype InspectionPayload = InspectionPayload(branch: string, transformerNo: string, inspectionDate: string, time: string)

  // ---------------------------------------------------------------- splitting the time

  /** The index of the first ':' in `s`, or `|s|` when there is none. */
  function FirstColon(s: string): (r: nat)
    ensures r <= |s|
    ensures r < |s| ==> s[r] == ':'
    ensures forall k :: 0 <= k < r ==> s[k] != ':'
  {
    if s == [] || s[0] == ':' then 0 else 1 + FirstColon(s[1..])
  }

  /** `split(":")`: the pieces between the colons, in order. */
  function Split(s: string): (r: seq<string>)
    ensures |r| >= 1
    ensures forall i, k :: 0 <= i < |r| && 0 <= k < |r[i]| ==> r[i][k] != ':'
    decreases |s|
  {
    var i := FirstColon(s);
    if i == |s| then [s] else [s[..i]] + Split(s[i + 1..])
  }

  /** `join(":")`. */
  function Join(pieces: seq<string>): string
  {
    if pieces == [] then ""
    else if |pieces| == 1 then pieces[0]
    else pieces[0] + ":" + Join(pieces[1..])
  }

  /** Joining the pieces with colons gives back the text. */
  lemma {:induction false} JoinSplit(s: string)
    ensures Join(Split(s)) == s
    decreases |s|
  {
    var i := FirstColon(s);
    if i < |s| {
      JoinSplit(s[i + 1..]);
      SplitAtColon(s, i);
      JoinCons(s[..i], Split(s[i + 1..]));
      ColonParts(s, i);
    }
  }

  /** At its first colon the text splits into its head and the pieces of the rest. */
  lemma SplitAtColon(s: string, i: nat)
    requires i == FirstColon(s) && i < |s|
    ensures Split(s) == [s[..i]] + Split(s[i + 1..])
  {
  }

  /** Joining a first piece before at least one more puts a colon between them. */
  lemma JoinCons(head: string, rest: seq<string>)
    requires |rest| >= 1
    ensures Join([head] + rest) == head + ":" + Join(rest)
  {
    assert ([head] + rest)[1..] == rest;
  }

  /** The text is its part before the colon at `i`, the colon and its part after. */
  lemma ColonParts(s: string, i: nat)
    requires i < |s| && s[i] == ':'
    ensures s == s[..i] + ":" + s[i + 1..]
  {
  }

  /** The text of a time with no colon is its own one piece. */
  lemma SplitNoColon(s: string)
    requires forall k :: 0 <= k < |s| ==> s[k] != ':'
    ensures Split(s) == [s]
  {
  }

  // ---------------------------------------------------------------- the hour

  /** The decimal digits `s` starts with. */
  function LeadingDigits(s: string): (r: string)
    ensures |r| <= |s| && r == s[..|r|] && AllDigits(r)
    ensures |r| < |s| ==> !('0' <= s[|r|] <= '9')
  {
    if s == [] || !('0' <= s[0] <= '9') then "" else [s[0]] + LeadingDigits(s[1..])
  }

  /** `parseInt(s, 10)` on text without sign or leading space: None is NaN. */
  function ParseInt(s: string): (r: Option<nat>)
    ensures r.None? <==> s == [] || !('0' <= s[0] <= '9')
  {
    var digits := LeadingDigits(s);
    if digits == [] then None else Some(DigitsValue(digits))
  }

  /** "PM" from noon on; NaN compares false and so gives "AM". */
  function Period(hour: Option<nat>): (r: string)
    ensures r == "PM" <==> hour.Some? && hour.value >= 12
    ensures r == "AM" || r == "PM"
  {
    if hour.Some? && hour.value >= 12 then "PM" else "AM"
  }

  /** `hour % 12 || 12`: NaN and multiples of 12 give 12. */
  function Hour12(hour: Option<nat>): (r: nat)
    ensures 1 <= r <= 12
    ensures hour.Some? && hour.value % 12 != 0 ==> r == hour.value % 12
  {
    if hour.None? || hour.value % 12 == 0 then 12 else hour.value % 12
  }

  /** The 24-hour clock hour a 12-hour hour and period denote. */
  function To24(hour12: nat, period: string): nat
  {
    if period == "AM" then (if hour12 == 12 then 0 else hour12)
    else (if hour12 == 12 then 12 else hour12 + 12)
  }

  /** For every hour of the day, the 12-hour hour and the period determine it. */
  lemma Hour12RoundTrip(h: nat)
    requires h < 24
    ensures To24(Hour12(Some(h)), Period(Some(h))) == h
  {
  }

  /** Minutes as the template writes them: missing minutes print as "undefined". */
  function MinutesText(minutes: Option<string>): string
  {
    if minutes.Some? then minutes.value else "undefined"
  }

  /** The time as sent: the 12-hour hour unpadded, the minutes verbatim, and the period. */
  function FormatTime(time: string): (r: string)
    ensures |r| >= 3 && (r[|r| - 3..] == " AM" || r[|r| - 3..] == " PM")
    ensures exists h :: 1 <= h <= 12 && StartsWith(r, NatToString(h) + ":")
  {
    var pieces := Split(time);
    var hour := ParseInt(pieces[0]);
    var minutes := if |pieces| > 1 then Some(pieces[1]) else None;
    NatToString(Hour12(hour)) + ":" + MinutesText(minutes) + " " + Period(hour)
  }

  /** The 12-hour reading of hour `h` with minutes `mm`. */
  function Clock12(h: nat, mm: string): string
  {
    NatToString(Hour12(Some(h))) + ":" + mm + " " + Period(Some(h))
  }

  /** Two colon-free pieces joined by one colon split back into those two. */
  lemma SplitClock(hh: string, mm: string)
    requires |hh| == 2 && hh[0] != ':' && hh[1] != ':'
    requires forall k :: 0 <= k < |mm| ==> mm[k] != ':'
    ensures Split(hh + ":" + mm) == [hh, mm]
  {
    var s := hh + ":" + mm;
    assert FirstColon(s) == 2 by {
      assert s[0] == hh[0] && s[1] == hh[1] && s[2] == ':';
      assert s[1..][1..] == ":" + mm;
    }
    assert s[..2] == hh && s[3..] == mm;
    SplitNoColon(mm);
  }

  /** Two digits parse to their value. */
  lemma ParseTwoDigits(hh: string)
    requires |hh| == 2 && AllDigits(hh)
    ensures ParseInt(hh) == Some(DigitsValue(hh))
  {
    assert LeadingDigits(hh[1..][1..]) == "";
    assert [hh[0]] + [hh[1]] == hh;
  }

  /** A well-formed "HH:MM" gives the hour's 12-hour reading and the same minutes. */
  lemma FormatWellFormed(hh: string, mm: string)
    requires |hh| == 2 && AllDigits(hh)
    requires forall k :: 0 <= k < |mm| ==> mm[k] != ':'
    ensures FormatTime(hh + ":" + mm) == Clock12(DigitsValue(hh), mm)
  {
    SplitClock(hh, mm);
    ParseTwoDigits(hh);
  }

  /** Hour 0 reads as 12 AM, with the minutes kept as typed. */
  lemma MidnightIsTwelveAM(mm: string)
    ensures Clock12(0, mm) == "12:" + mm + " AM"
  {
    assert NatToString(12) == "12";
  }

  /** Hour 12 reads as 12 PM. */
  lemma NoonIsTwelvePM(mm: string)
    ensures Clock12(12, mm) == "12:" + mm + " PM"
  {
    assert NatToString(12) == "12";
  }

  /** Hours 1 to 11 keep their number, without a leading zero, and are AM. */
  lemma MorningKeepsHour(h: nat, mm: string)
    requires 1 <= h < 12
    ensures Clock12(h, mm) == NatToString(h) + ":" + mm + " AM"
  {
    assert Hour12(Some(h)) == h by { assert h % 12 == h; }
  }

  /** Hours 13 to 23 lose twelve and are PM. */
  lemma AfternoonLosesTwelve(h: nat, mm: string)
    requires 13 <= h < 24
    ensures Clock12(h, mm) == NatToString(h - 12) + ":" + mm + " PM"
  {
    assert Hour12(Some(h)) == h - 12 by { assert h % 12 == h - 12; }
  }

  // ---------------------------------------------------------------- submitting

  /**
   * `handleSubmit`: nothing is sent when the branch, the date or the time is
   * empty, or when the date cannot be formatted; otherwise the payload holds
   * exactly the branch, the transformer, the formatted date and the converted
   * time.
   */
  function Submit(branch: string, transformerNo: string, inspectionDate: string, time: string,
                  formatDate: string -> Option<string>): (r: Option<InspectionPayload>)
    ensures r.Some? <==> branch != "" && inspectionDate != "" && time != "" && formatDate(inspectionDate).Some?
    ensures r.Some? ==> r.value == InspectionPayload(branch, transformerNo, formatDate(inspectionDate).value, FormatTime(time))
  {
    if branch == "" || inspectionDate == "" || time == "" then None
    else
      var formattedDate := formatDate(inspectionDate);
      if formattedDate.None? then None
      else Some(InspectionPayload(branch, transformerNo, formattedDate.value, FormatTime(time)))
  }
}
