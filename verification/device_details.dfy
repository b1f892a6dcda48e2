/** The device-details table: MAC and resolution normalisation, the 12-hour
    clock label, and the fallbacks each row uses when the record lacks a field.
    The clock's hours and minutes are parameters. */
module DeviceDetails {
  import opened Wrappers
  import opened Strings
  import opened DeviceInfo
  import Decimal

  const Unknown := "Unknown"
  const LoopbackAddress := "127.0.0.1"
  const FixedLocation := "Hanoi - Vietnam - Asia"

  /** `formatMacAddress`: upper-cases the address; the colon-for-colon
      replacement that follows changes nothing. */
  function FormatMac(mac: Option<string>): (r: string)
    ensures mac.None? || mac.value == "" ==> r == Unknown
    ensures mac.Some? && mac.value != "" ==>
              && |r| == |mac.value|
              && (forall i :: 0 <= i < |r| ==> !IsLowerAscii(r[i]))
              && (forall i :: 0 <= i < |r| ==> (r[i] == ':' <==> mac.value[i] == ':'))
              && (forall i :: 0 <= i < |r| ==> LowerChar(r[i]) == LowerChar(mac.value[i]))
  {
    if mac.Some? && mac.value != "" then ReplaceChar(ToUpper(mac.value), ':', ':') else Unknown
  }

  /** Formatting an already formatted address gives it back unchanged. */
  lemma FormatMacIdempotent(mac: Option<string>)
    requires mac.Some? && mac.value != ""
    ensures FormatMac(Some(FormatMac(mac))) == FormatMac(mac)
  {
    var once := FormatMac(mac);
    assert forall i :: 0 <= i < |once| ==> UpperChar(once[i]) == once[i];
  }

  /** The clock's hour on a 12-hour dial: `hours % 12 || 12`. */
  function DialHour(hours: nat): (h: nat)
    requires hours < 24
    ensures 1 <= h <= 12
    ensures h % 12 == hours % 12
  {
    if hours % 12 == 0 then 12 else hours % 12
  }

  /** Minutes with a leading zero below ten. */
  function MinuteField(minutes: nat): (s: string)
    requires minutes < 60
    ensures |s| == 2
    ensures Decimal.AllDigits(s)
    ensures Decimal.ParseDigits(s) == minutes
  {
    Decimal.ParseNatToString(minutes);
    if minutes < 10 then
      var s := "0" + Decimal.NatToString(minutes);
      assert s[..1] == "0";
      s
    else
      Decimal.TwoDigits(minutes);
      Decimal.NatToString(minutes)
  }

  /** The suffix exactly as the source computes it: both branches say AM. */
  function MeridiemAsWritten(hours: nat): string {
    if hours >= 12 then "AM" else "AM"
  }

  /** The suffix the conditional evidently intends. */
  function Meridiem(hours: nat): string {
    if hours >= 12 then "PM" else "AM"
  }

  function ClockText(hour: string, minute: string, suffix: string): string {
    "Today at " + hour + ":" + minute + " " + suffix
  }

  /** `getCurrentTime` as written. */
  function ClockLabel(hours: nat, minutes: nat): (s: string)
    requires hours < 24 && minutes < 60
    ensures EndsWith(s, " AM")
    ensures StartsWith(s, "Today at ")
  {
    var s := ClockText(Decimal.NatToString(DialHour(hours)), MinuteField(minutes), MeridiemAsWritten(hours));
    assert s[|s| - 3..] == " AM";
    assert s[..9] == "Today at ";
    s
  }

  /** `getCurrentTime` with the afternoon suffix the conditional intends. */
  function ClockLabelFixed(hours: nat, minutes: nat): (s: string)
    requires hours < 24 && minutes < 60
    ensures hours < 12 ==> EndsWith(s, " AM")
    ensures hours >= 12 ==> EndsWith(s, " PM")
    ensures StartsWith(s, "Today at ")
  {
    var s := ClockText(Decimal.NatToString(DialHour(hours)), MinuteField(minutes), Meridiem(hours));
    assert s[|s| - 3..] == " " + Meridiem(hours);
    assert s[..9] == "Today at ";
    s
  }

  /** A clock label splits back into its hour, minute and suffix fields. */
  lemma ClockTextParts(h1: string, m1: string, x1: string, h2: string, m2: string, x2: string)
    requires |m1| == 2 && |m2| == 2 && |x1| == 2 && |x2| == 2
    requires ClockText(h1, m1, x1) == ClockText(h2, m2, x2)
    ensures h1 == h2 && m1 == m2 && x1 == x2
  {
    var s := ClockText(h1, m1, x1);
    var t := ClockText(h2, m2, x2);
    var n := |h1|;
    assert |s| == 15 + |h1| && |t| == 15 + |h2|;
    assert s[9..9 + n] == h1;
    assert t[9..9 + n] == h2;
    assert s[10 + n..12 + n] == m1;
    assert t[10 + n..12 + n] == m2;
    assert s[13 + n..] == x1;
    assert t[13 + n..] == x2;
  }

  /** As written, two readings show the same label exactly when they agree on
      the hour modulo twelve and on the minute: the half of the day is lost. */
  lemma ClockLabelSameIff(h1: nat, m1: nat, h2: nat, m2: nat)
    requires h1 < 24 && m1 < 60 && h2 < 24 && m2 < 60
    ensures ClockLabel(h1, m1) == ClockLabel(h2, m2) <==> h1 % 12 == h2 % 12 && m1 == m2
  {
    if ClockLabel(h1, m1) == ClockLabel(h2, m2) {
      ClockTextParts(Decimal.NatToString(DialHour(h1)), MinuteField(m1), MeridiemAsWritten(h1),
                     Decimal.NatToString(DialHour(h2)), MinuteField(m2), MeridiemAsWritten(h2));
      Decimal.NatToStringInjective(DialHour(h1), DialHour(h2));
    }
    if h1 % 12 == h2 % 12 && m1 == m2 {
      assert DialHour(h1) == DialHour(h2);
    }
  }

  /** The discrepancy on a concrete input: five past one in the afternoon and
      five past one at night render the same text. */
  lemma ClockLabelAfternoonShownAsMorning()
    ensures ClockLabel(13, 5) == ClockLabel(1, 5)
    ensures EndsWith(ClockLabel(13, 5), " AM")
  {
    ClockLabelSameIff(13, 5, 1, 5);
  }

  /** With the intended suffix, different readings always render differently. */
  lemma ClockLabelFixedInjective(h1: nat, m1: nat, h2: nat, m2: nat)
    requires h1 < 24 && m1 < 60 && h2 < 24 && m2 < 60
    ensures ClockLabelFixed(h1, m1) == ClockLabelFixed(h2, m2) <==> h1 == h2 && m1 == m2
  {
    if ClockLabelFixed(h1, m1) == ClockLabelFixed(h2, m2) {
      ClockTextParts(Decimal.NatToString(DialHour(h1)), MinuteField(m1), Meridiem(h1),
                     Decimal.NatToString(DialHour(h2)), MinuteField(m2), Meridiem(h2));
      Decimal.NatToStringInjective(DialHour(h1), DialHour(h2));
      assert (h1 >= 12) == (h2 >= 12);
    }
  }

  /** `getResolution`: the first display's resolution upper-cased, otherwise unknown. */
  function Resolution(displays: Option<seq<Display>>): (r: string)
    ensures displays.None? || |displays.value| == 0 ==> r == Unknown
    ensures displays.Some? && |displays.value| > 0 ==>
              var first := displays.value[0].resolution;
              && (first.None? || first.value == "" ==> r == Unknown)
              && (first.Some? && first.value != "" ==> r == ToUpper(first.value))
  {
    if displays.Some? && |displays.value| > 0 then
      var first := displays.value[0].resolution;
      if first.Some? && first.value != "" then ToUpper(first.value) else Unknown
    else Unknown
  }

  /** Only the first display decides the resolution. */
  lemma ResolutionIgnoresLaterDisplays(d: Display, rest1: seq<Display>, rest2: seq<Display>)
    ensures Resolution(Some([d] + rest1)) == Resolution(Some([d] + rest2))
  {
  }

  /** The name row: a fixed prefix before the formatted MAC. */
  function DeviceName(mac: Option<string>): (r: string)
    ensures StartsWith(r, "Device - ")
    ensures r[9..] == FormatMac(mac)
  {
    var r := "Device - " + FormatMac(mac);
    assert r[..9] == "Device - ";
    r
  }

  /** The display count: `monitors || 1`, so never zero. */
  function DisplayCount(monitors: Option<int>): (n: int)
    ensures n != 0
    ensures monitors.Some? && monitors.value != 0 ==> n == monitors.value
    ensures monitors.None? || monitors.value == 0 ==> n == 1
  {
    if monitors.Some? && monitors.value != 0 then monitors.value else 1
  }

  /** The start of a display's line: its model name, or its number counted
      from one, then ` : `. */
  function LineHead(i: nat, d: Display): string {
    OrElse(d.model, "Display " + Decimal.NatToString(i + 1)) + " : "
  }

  /** A display's line: the head, the resolution or `Unknown`, then ` - Landscape`. */
  function DisplayLine(i: nat, d: Display): (line: string)
    ensures |line| == |LineHead(i, d)| + |OrElse(d.resolution, Unknown)| + 12
    ensures StartsWith(line, LineHead(i, d))
    ensures line[|LineHead(i, d)|..|line| - 12] == OrElse(d.resolution, Unknown)
    ensures EndsWith(line, " - Landscape")
  {
    var head := LineHead(i, d);
    var middle := OrElse(d.resolution, Unknown);
    var line := head + middle + " - Landscape";
    assert line[..|head|] == head;
    assert line[|head|..|line| - 12] == middle;
    assert line[|line| - 12..] == " - Landscape";
    line
  }

  /** One line per display, in order. */
  function DisplayLines(displays: seq<Display>): (lines: seq<string>)
    ensures |lines| == |displays|
    ensures forall i :: 0 <= i < |displays| ==>
              && StartsWith(lines[i], LineHead(i, displays[i]))
              && |lines[i]| == |LineHead(i, displays[i])| + |OrElse(displays[i].resolution, Unknown)| + 12
              && lines[i][|LineHead(i, displays[i])|..|lines[i]| - 12] == OrElse(displays[i].resolution, Unknown)
              && EndsWith(lines[i], " - Landscape")
  {
    seq(|displays|, i requires 0 <= i < |displays| =>
      DisplayLine(i, displays[i]))
  }

  /** The IP row, falling back to the loopback address. */
  function IpRow(ip: Option<string>): (r: string)
    ensures StartsWith(r, "Public ")
    ensures ip.Some? && ip.value != "" ==> r[7..] == ip.value
    ensures ip.None? || ip.value == "" ==> r == "Public 127.0.0.1"
  {
    var r := "Public " + OrElse(ip, LoopbackAddress);
    assert r[..7] == "Public ";
    r
  }

  datatype View =
    | Loading
    | Table(
        name: string,
        firstConnected: string,
        lastConnected: string,
        lastStatus: string,
        model: string,
        macWifi: string,
        macLan: string,
        resolution: string,
        displaysConnected: int,
        displayLines: seq<string>,
        ip: string,
        firmware: string,
        location: string)

  /** One reading of the local clock. */
  datatype Time = Time(hours: nat, minutes: nat)

  predicate ValidTime(t: Time) {
    t.hours < 24 && t.minutes < 60
  }

  /** The model row: the CPU's model name, or `Unknown`. */
  function ModelRow(info: Info): (r: string)
    ensures info.cpu.Some? && info.cpu.value.model.Some? && info.cpu.value.model.value != "" ==>
              r == info.cpu.value.model.value
    ensures info.cpu.None? || info.cpu.value.model.None? || info.cpu.value.model.value == "" ==> r == Unknown
  {
    OrElse(if info.cpu.Some? then info.cpu.value.model else None, Unknown)
  }

  /** The rendered component: the loading placeholder without a record,
      otherwise the table of rows. Each time row calls the clock anew, so the
      three rows take three readings. */
  function Render(info: Option<Info>, first: Time, last: Time, status: Time): (v: View)
    requires ValidTime(first) && ValidTime(last) && ValidTime(status)
    ensures info.None? <==> v.Loading?
    ensures v.Table? ==>
              && v.name == "Device - " + v.macWifi
              && v.macWifi == v.macLan == FormatMac(info.value.macAddress)
              && v.firstConnected == ClockLabel(first.hours, first.minutes)
              && v.lastConnected == ClockLabel(last.hours, last.minutes)
              && v.lastStatus == ClockLabel(status.hours, status.minutes)
              && EndsWith(v.firstConnected, " AM") && EndsWith(v.lastConnected, " AM") && EndsWith(v.lastStatus, " AM")
              && (v.firstConnected == v.lastConnected <==>
                    first.hours % 12 == last.hours % 12 && first.minutes == last.minutes)
              && v.model == ModelRow(info.value)
              && v.resolution == Resolution(info.value.displayInfo)
              && v.displaysConnected == DisplayCount(info.value.monitors)
              && (info.value.displayInfo.None? ==> v.displayLines == [])
              && (info.value.displayInfo.Some? ==> v.displayLines == DisplayLines(info.value.displayInfo.value))
              && v.ip == IpRow(info.value.ipAddress)
              && (info.value.operatingSystem.Some? && info.value.operatingSystem.value != "" ==>
                    v.firmware == info.value.operatingSystem.value)
              && (info.value.operatingSystem.None? || info.value.operatingSystem.value == "" ==>
                    v.firmware == Unknown)
              && v.location == FixedLocation
  {
    match info
    case None => Loading
    case Some(d) =>
      ClockLabelSameIff(first.hours, first.minutes, last.hours, last.minutes);
      var mac := FormatMac(d.macAddress);
      Table(
        DeviceName(d.macAddress),
        ClockLabel(first.hours, first.minutes),
        ClockLabel(last.hours, last.minutes),
        ClockLabel(status.hours, status.minutes),
        ModelRow(d),
        mac, mac,
        Resolution(d.displayInfo),
        DisplayCount(d.monitors),
        if d.displayInfo.Some? then DisplayLines(d.displayInfo.value) else [],
        IpRow(d.ipAddress),
        OrElse(d.operatingSystem, Unknown),
        FixedLocation)
  }

  /** The table with the time rows blanked, for comparing the other rows. */
  function WithoutTimes(v: View): View {
    if v.Table? then v.(firstConnected := "", lastConnected := "", lastStatus := "") else v
  }

  /** The table with the afternoon suffix the clock evidently intends: only
      the three time rows differ from the component as written, and they tell
      different readings apart. */
  function RenderFixed(info: Option<Info>, first: Time, last: Time, status: Time): (v: View)
    requires ValidTime(first) && ValidTime(last) && ValidTime(status)
    ensures info.None? <==> v.Loading?
    ensures WithoutTimes(v) == WithoutTimes(Render(info, first, last, status))
    ensures v.Table? ==>
              && EndsWith(v.firstConnected, if first.hours < 12 then " AM" else " PM")
              && EndsWith(v.lastConnected, if last.hours < 12 then " AM" else " PM")
              && EndsWith(v.lastStatus, if status.hours < 12 then " AM" else " PM")
              && (v.firstConnected == v.lastConnected <==> first == last)
  {
    var v := Render(info, first, last, status);
    if v.Loading? then v
    else
      ClockLabelFixedInjective(first.hours, first.minutes, last.hours, last.minutes);
      v.(firstConnected := ClockLabelFixed(first.hours, first.minutes),
         lastConnected := ClockLabelFixed(last.hours, last.minutes),
         lastStatus := ClockLabelFixed(status.hours, status.minutes))
  }
}
