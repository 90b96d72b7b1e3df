/**
 * The formatting and selection helpers of the local system-information package:
 * uptime and byte-count formatting, the OS display name and the GPU-name pick.
 * Sampling the machine (CPU, memory, GPU utilisation, uptime) is foreign and is not modelled.
 */
module SysInfo {
  import opened Wrappers
  import opened Strs

  type uint64 = x: int | 0 <= x < 0x1_0000_0000_0000_0000

  /** The local snapshot handed to the worker's listener. */
  datatype SystemInfo = SystemInfo(
    hostname: string,
    os: string,
    arch: string,
    goVersion: string,
    cpuUsage: real,
    ramUsage: real,
    ramTotal: uint64,
    ramUsed: uint64,
    gpuName: string,
    gpuUsage: real,
    internetSpeed: string,
    localIP: string,
    uptime: uint64)

  // ---------------------------------------------------------------------------
  // getOSName

  /** The display name of a GOOS value; unlisted systems keep their GOOS name. */
  function OSName(goos: string): (r: string)
    ensures goos == "windows" ==> r == "Windows"
    ensures goos == "darwin" ==> r == "macOS"
    ensures goos == "linux" ==> r == "Linux"
    ensures goos != "windows" && goos != "darwin" && goos != "linux" ==> r == goos
  {
    match goos
    case "windows" => "Windows"
    case "darwin" => "macOS"
    case "linux" => "Linux"
    case _ => goos
  }

  // ---------------------------------------------------------------------------
  // FormatUptime

  const SecondsPerDay := 86400
  const SecondsPerHour := 3600
  const SecondsPerMinute := 60

  /** Whole days, the hours within the day and the minutes within the hour. */
  function UptimeParts(seconds: nat): (nat, nat, nat)
  {
    (seconds / SecondsPerDay, (seconds % SecondsPerDay) / SecondsPerHour, (seconds % SecondsPerHour) / SecondsPerMinute)
  }

  /** The three parts are in range and add up to the uptime, seconds dropped. */
  lemma UptimePartsExact(seconds: nat)
    ensures var (d, h, m) := UptimeParts(seconds);
      h < 24 && m < 60 && d * 86400 + h * 3600 + m * 60 == seconds - seconds % 60
  {
    var d := seconds / 86400;
    var r := seconds % 86400;
    var h := r / 3600;
    var rh := r % 3600;
    assert seconds == 3600 * (24 * d + h) + rh;
    DivUnique(seconds, 3600, 24 * d + h, rh);
    var m := rh / 60;
    var rm := rh % 60;
    assert seconds == 60 * (1440 * d + 60 * h + m) + rm;
    DivUnique(seconds, 60, 1440 * d + 60 * h + m, rm);
  }

  /** The uptime as "Dd Hh Mm", "Hh Mm" or "Mm", with leading zero parts left out. */
  function FormatUptime(seconds: uint64): string
  {
    var (d, h, m) := UptimeParts(seconds);
    if d > 0 then NatToString(d) + "d " + HoursMinutes(h, m)
    else if h > 0 then HoursMinutes(h, m)
    else NatToString(m) + "m"
  }

  function HoursMinutes(h: nat, m: nat): string
  {
    NatToString(h) + "h " + NatToString(m) + "m"
  }

  /** The weight in minutes of a part suffix of the uptime format. */
  function UnitMinutes(c: char): nat
  {
    if c == 'd' then 1440 else if c == 'h' then 60 else 1
  }

  /** Reads a string in the uptime format back as a number of whole minutes. */
  function ParseUptime(s: string): nat
  {
    PartsMinutes(Split(s, ' '))
  }

  function PartsMinutes(parts: seq<string>): nat
  {
    if parts == [] then 0
    else PartMinutes(parts[0]) + PartsMinutes(parts[1..])
  }

  function PartMinutes(p: string): nat
  {
    if |p| >= 1 && forall k :: 0 <= k < |p| - 1 ==> IsDigit(p[k])
    then DecimalValue(p[..|p| - 1]) * UnitMinutes(p[|p| - 1])
    else 0
  }

  lemma PartMinutesOf(n: nat, unit: char)
    ensures PartMinutes(NatToString(n) + [unit]) == n * UnitMinutes(unit)
  {
    var p := NatToString(n) + [unit];
    assert p[..|p| - 1] == NatToString(n);
    DecimalRoundTrip(n);
  }

  /** Splitting a piece without the separator off the front. */
  lemma SplitFront(x: string, y: string, sep: char)
    requires forall k :: 0 <= k < |x| ==> x[k] != sep
    ensures Split(x + [sep] + y, sep) == [x] + Split(y, sep)
  {
    var s := x + [sep] + y;
    assert OccursAt(s, [sep], |x|);
    assert forall j :: 0 <= j < |x| ==> !OccursAt(s, [sep], j) by {
      forall j | 0 <= j < |x| ensures !OccursAt(s, [sep], j) {
        assert s[j] == x[j];
      }
    }
    assert IndexOf(s, [sep]).value == |x|;
    assert s[..|x|] == x;
    assert s[|x| + 1..] == y;
  }

  lemma SplitNoSep(x: string, sep: char)
    requires forall k :: 0 <= k < |x| ==> x[k] != sep
    ensures Split(x, sep) == [x]
  {
    assert forall j :: 0 <= j ==> !OccursAt(x, [sep], j) by {
      forall j | 0 <= j ensures !OccursAt(x, [sep], j) {
        if j < |x| { assert x[j..j + 1] == [x[j]]; }
      }
    }
  }

  /** A part of the format ("12d", "3h", "0m") holds no space. */
  lemma PartHasNoSpace(n: nat, unit: char)
    requires unit != ' '
    ensures NoSpace(NatToString(n) + [unit])
  {
    var d := NatToString(n);
    forall k | 0 <= k < |d + [unit]| ensures (d + [unit])[k] != ' ' {
      if k < |d| { assert IsDigit(d[k]); }
    }
  }

  lemma UptimeMinutes(seconds: nat)
    ensures var (d, h, m) := UptimeParts(seconds); seconds / 60 == d * 1440 + h * 60 + m
  {
    UptimePartsExact(seconds);
    var (d, h, m) := UptimeParts(seconds);
    DivUnique(seconds, 60, d * 1440 + h * 60 + m, seconds % 60);
  }

  lemma PartsMinutesCons(x: string, rest: seq<string>)
    ensures PartsMinutes([x] + rest) == PartMinutes(x) + PartsMinutes(rest)
  {
    assert ([x] + rest)[1..] == rest;
  }

  lemma OnePartMinutes(m: nat)
    ensures ParseUptime(NatToString(m) + "m") == m
  {
    var pm := NatToString(m) + "m";
    PartHasNoSpace(m, 'm');
    SplitNoSep(pm, ' ');
    PartMinutesOf(m, 'm');
    PartsMinutesCons(pm, []);
    assert [pm] + [] == [pm];
  }

  predicate NoSpace(x: string)
  {
    forall k :: 0 <= k < |x| ==> x[k] != ' '
  }

  lemma ParseSpaced(x: string, rest: string)
    requires NoSpace(x)
    ensures ParseUptime(x + [' '] + rest) == PartMinutes(x) + ParseUptime(rest)
  {
    SplitFront(x, rest, ' ');
    PartsMinutesCons(x, Split(rest, ' '));
  }

  lemma SpacedShape(a: string, u: char, b: string)
    ensures a + [u, ' '] + b == (a + [u]) + [' '] + b
  {
  }

  lemma TwoPartMinutes(h: nat, m: nat)
    ensures ParseUptime(HoursMinutes(h, m)) == h * 60 + m
  {
    TwoPartSpaced(h, m);
    SpacedShape(NatToString(h), 'h', NatToString(m) + "m");
    assert NatToString(h) + "h " + NatToString(m) + "m" == NatToString(h) + "h " + (NatToString(m) + "m");
  }

  lemma TwoPartSpaced(h: nat, m: nat)
    ensures ParseUptime(NatToString(h) + "h" + [' '] + (NatToString(m) + "m")) == h * 60 + m
  {
    var ph, pm := NatToString(h) + "h", NatToString(m) + "m";
    PartHasNoSpace(h, 'h');
    OnePartMinutes(m);
    ParseSpaced(ph, pm);
    PartMinutesOf(h, 'h');
  }

  lemma ThreePartMinutes(d: nat, h: nat, m: nat)
    ensures ParseUptime(NatToString(d) + "d " + HoursMinutes(h, m)) == d * 1440 + h * 60 + m
  {
    ThreePartSpaced(d, h, m);
    SpacedShape(NatToString(d), 'd', HoursMinutes(h, m));
  }

  lemma ThreePartSpaced(d: nat, h: nat, m: nat)
    ensures ParseUptime(NatToString(d) + "d" + [' '] + HoursMinutes(h, m)) == d * 1440 + h * 60 + m
  {
    var pd, rest := NatToString(d) + "d", HoursMinutes(h, m);
    PartHasNoSpace(d, 'd');
    TwoPartMinutes(h, m);
    ParseSpaced(pd, rest);
    PartMinutesOf(d, 'd');
  }

  /** FormatUptime loses only the seconds: reading it back gives the whole minutes of the uptime. */
  lemma FormatUptimeRoundTrip(seconds: uint64)
    ensures ParseUptime(FormatUptime(seconds)) == seconds / 60
  {
    var (d, h, m) := UptimeParts(seconds);
    UptimeMinutes(seconds);
    if d > 0 {
      ThreePartMinutes(d, h, m);
    } else if h > 0 {
      TwoPartMinutes(h, m);
    } else {
      OnePartMinutes(m);
    }
  }

  /** The shape of the format: days appear iff there is a whole day, hours iff there is a whole hour. */
  lemma FormatUptimeShape(seconds: uint64)
    ensures seconds >= SecondsPerDay <==> Contains(FormatUptime(seconds), "d")
    ensures seconds >= SecondsPerHour <==> Contains(FormatUptime(seconds), "h")
    ensures seconds < 60 ==> FormatUptime(seconds) == "0m"
  {
    if seconds >= SecondsPerHour {
      HoursShown(seconds);
    } else {
      HoursHidden(seconds);
    }
    var (d, h, m) := UptimeParts(seconds);
    var s := FormatUptime(seconds);
    if d > 0 {
      var k := |NatToString(d)|;
      assert s[k..k + 1] == "d";
      assert OccursAt(s, "d", k);
    } else {
      forall j | 0 <= j < |s| ensures s[j] != 'd' {
        if h > 0 {
          assert s == NatToString(h) + "h " + NatToString(m) + "m";
          if j < |NatToString(h)| { assert IsDigit(NatToString(h)[j]); }
          else if j >= |NatToString(h)| + 2 && j < |NatToString(h)| + 2 + |NatToString(m)| {
            assert s[j] == NatToString(m)[j - |NatToString(h)| - 2];
            assert IsDigit(NatToString(m)[j - |NatToString(h)| - 2]);
          }
        } else {
          if j < |NatToString(m)| { assert IsDigit(NatToString(m)[j]); }
        }
      }
      assert !Contains(s, "d") by {
        forall j | 0 <= j <= |s| - 1 ensures !OccursAt(s, "d", j) {
          assert s[j..j + 1] == [s[j]];
        }
      }
    }
  }

  /** From one hour up, the hours part ("3h") is in the format, after the days if any. */
  lemma HoursShown(seconds: uint64)
    requires seconds >= SecondsPerHour
    ensures Contains(FormatUptime(seconds), "h")
  {
    var (d, h, m) := UptimeParts(seconds);
    var hours := HoursMinutes(h, m);
    var k := |NatToString(h)|;
    assert hours[k..k + 1] == "h";
    assert OccursAt(hours, "h", k);
    if d > 0 {
      ContainsSuffix(NatToString(d) + "d ", hours, "h");
    } else {
      assert h > 0 by { UptimePartsExact(seconds); }
    }
  }

  /** Under one hour the format is the minutes alone, which hold no 'h'. */
  lemma HoursHidden(seconds: uint64)
    requires seconds < SecondsPerHour
    ensures !Contains(FormatUptime(seconds), "h")
  {
    var (d, h, m) := UptimeParts(seconds);
    var s := FormatUptime(seconds);
    assert s == NatToString(m) + "m";
    forall j | 0 <= j <= |s| - 1 ensures !OccursAt(s, "h", j) {
      assert s[j..j + 1] == [s[j]];
      if j < |NatToString(m)| { assert IsDigit(NatToString(m)[j]); }
    }
  }

  // ---------------------------------------------------------------------------
  // FormatBytes

  const Unit := 1024
  const UnitLetters := "KMGTPE"

  function Pow1024(e: nat): (r: nat)
    ensures r >= 1
  {
    if e == 0 then 1 else Unit * Pow1024(e - 1)
  }

  /** The result of FormatBytes; the one-decimal mantissa of the scaled form is floating point and stays a quotient. */
  datatype FormattedBytes =
    | Exact(text: string)
    | Scaled(bytes: nat, divisor: nat, exp: nat, unit: char)

  lemma MulMonotone(a: nat, b: nat, c: nat)
    requires b <= c
    ensures a * b <= a * c
  {
    assert a * c == a * b + a * (c - b);
  }

  /** Integer division is determined by a quotient and a remainder in range. */
  lemma DivUnique(b: int, d: int, q: int, r: int)
    requires d > 0 && 0 <= r < d && b == d * q + r
    ensures b / d == q && b % d == r
  {
    var q', r' := b / d, b % d;
    if q' > q {
      MulMonotone(d, 1, q' - q);
    } else if q' < q {
      MulMonotone(d, 1, q - q');
    }
  }

  lemma DivDiv(b: nat, d: nat)
    requires d > 0
    ensures (b / d) / Unit == b / (d * Unit)
  {
    var q, r := b / d, b % d;
    var q2, r2 := q / Unit, q % Unit;
    assert b == d * q + r;
    assert q == Unit * q2 + r2;
    assert b == (d * Unit) * q2 + (d * r2 + r) by {
      assert d * q == d * (Unit * q2) + d * r2;
      assert d * (Unit * q2) == (d * Unit) * q2;
    }
    MulMonotone(d, r2, Unit - 1);
    assert d * (Unit - 1) + d == d * Unit;
    DivUnique(b, d * Unit, q2, d * r2 + r);
  }

  /** The quotient bounds the dividend: d * q <= b < d * (q + 1). */
  lemma QuotientBounds(b: nat, d: nat)
    requires d > 0
    ensures d * (b / d) <= b < d * (b / d) + d
  {
  }

  /**
   * FormatBytes: below 1024 the exact count in bytes; otherwise the largest unit
   * 1024^(exp+1) not above the count, with exp <= 5 so the unit letter exists and the
   * divisor never leaves uint64.
   */
  method FormatBytes(bytes: uint64) returns (r: FormattedBytes)
    ensures bytes < Unit ==> r == Exact(NatToString(bytes) + " B")
    ensures bytes >= Unit ==> (r.Scaled? && r.bytes == bytes && r.exp <= 5
      && r.divisor == Pow1024(r.exp + 1) && r.divisor <= bytes < r.divisor * Unit
      && r.unit == UnitLetters[r.exp])
  {
    if bytes < Unit {
      return Exact(NatToString(bytes) + " B");
    }
    var div: uint64, exp: nat := Unit, 0;
    var n: uint64 := bytes / Unit;
    while n >= Unit
      invariant div == Pow1024(exp + 1) && div <= bytes
      invariant n == bytes / div
    {
      QuotientBounds(bytes, div);
      MulMonotone(div, Unit, n);
      DivDiv(bytes, div);
      div := div * Unit;
      exp := exp + 1;
      n := n / Unit;
    }
    QuotientBounds(bytes, div);
    MulMonotone(div, n + 1, Unit);
    ExpBound(exp, bytes);
    r := Scaled(bytes, div, exp, UnitLetters[exp]);
  }

  /** A power 1024^(exp+1) that fits in uint64 has exp at most 5. */
  lemma ExpBound(exp: nat, bytes: uint64)
    requires Pow1024(exp + 1) <= bytes
    ensures exp <= 5
  {
    if exp >= 6 {
      assert Pow1024(7) == 0x40_0000_0000_0000_0000;
      PowMonotone(7, exp + 1);
    }
  }

  lemma PowMonotone(a: nat, b: nat)
    requires a <= b
    ensures Pow1024(a) <= Pow1024(b)
    decreases b
  {
    if a < b { PowMonotone(a, b - 1); }
  }

  // ---------------------------------------------------------------------------
  // GPU name (the name part of getGPUInfo)

  predicate UsableGpuLine(line: string)
  {
    TrimSpace(line) != "" && TrimSpace(line) != "Name"
  }

  /** The first trimmed, non-empty line that is not the "Name" column header. */
  function FirstGpuLine(lines: seq<string>): Option<string>
  {
    if lines == [] then None
    else if UsableGpuLine(lines[0]) then Some(TrimSpace(lines[0]))
    else FirstGpuLine(lines[1..])
  }

  /** FirstGpuLine picks the trimmed form of the first usable line, and finds none only when there is none. */
  lemma {:induction false} FirstGpuLineSpec(lines: seq<string>)
    ensures FirstGpuLine(lines).None? <==> forall k :: 0 <= k < |lines| ==> !UsableGpuLine(lines[k])
    ensures FirstGpuLine(lines).Some? ==> exists k :: (0 <= k < |lines| && UsableGpuLine(lines[k])
      && FirstGpuLine(lines).value == TrimSpace(lines[k])
      && forall j :: 0 <= j < k ==> !UsableGpuLine(lines[j]))
  {
    if lines != [] && !UsableGpuLine(lines[0]) {
      FirstGpuLineSpec(lines[1..]);
      if FirstGpuLine(lines[1..]).Some? {
        var k :| 0 <= k < |lines[1..]| && UsableGpuLine(lines[1..][k])
          && FirstGpuLine(lines[1..]).value == TrimSpace(lines[1..][k])
          && forall j :: 0 <= j < k ==> !UsableGpuLine(lines[1..][j]);
        assert forall j :: 0 <= j < k + 1 ==> !UsableGpuLine(lines[j]) by {
          forall j | 0 <= j < k + 1 ensures !UsableGpuLine(lines[j]) {
            if j > 0 { assert lines[j] == lines[1..][j - 1]; }
          }
        }
        assert UsableGpuLine(lines[k + 1]);
      } else {
        forall k | 0 <= k < |lines| ensures !UsableGpuLine(lines[k]) {
          if k > 0 { assert lines[k] == lines[1..][k - 1]; }
        }
      }
    } else if lines != [] {
      assert UsableGpuLine(lines[0]);
    }
  }

  /**
   * The GPU name: "N/A" unless on Windows the video-controller query succeeded
   * (`wmicOutput`), then the first usable line of its output.
   */
  method GpuName(goos: string, wmicOutput: Option<string>) returns (name: string)
    ensures goos != "windows" || wmicOutput.None? ==> name == "N/A"
    ensures goos == "windows" && wmicOutput.Some? ==>
      name == (match FirstGpuLine(Split(wmicOutput.value, '\n')) case Some(l) => l case None => "N/A")
  {
    name := "N/A";
    if goos == "windows" && wmicOutput.Some? {
      var lines := Split(wmicOutput.value, '\n');
      var i := 0;
      while i < |lines|
        invariant 0 <= i <= |lines|
        invariant FirstGpuLine(lines) == FirstGpuLine(lines[i..])
        invariant name == "N/A"
      {
        var line := TrimSpace(lines[i]);
        if UsableGpuLine(lines[i]) {
          name := line;
          return;
        }
        assert lines[i..][1..] == lines[i + 1..];
        i := i + 1;
      }
    }
  }
}
