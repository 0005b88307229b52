/** The code-to-label tables of print.c. A `print_*` function that returns a
    code either prints one label and a newline and returns 0, or prints
    nothing and returns -1; here that is `Some(label)` or `None`. The two
    functions that return nothing, `print_unit` and `print_acc_conf`, give
    the pieces they print. */
module Labels {
  import opened Bits
  import opened Codec
  import opened Wrappers

  /** One `case code: printf("label\n")` of a switch. */
  datatype Entry = Entry(code: int, text: string)

  /** The label the switch prints for `code`, if a case matches. */
  function Find(table: seq<Entry>, code: int): (r: Option<string>)
    ensures r.None? <==> forall i :: 0 <= i < |table| ==> table[i].code != code
    ensures r.Some? ==> exists i :: 0 <= i < |table| && table[i] == Entry(code, r.value)
  {
    if table == [] then None
    else if table[0].code == code then Some(table[0].text)
    else
      var r := Find(table[1..], code);
      assert forall i :: 1 <= i < |table| ==> table[i] == table[1..][i - 1];
      r
  }

  /** The code whose case prints `label`, if any: reading a label back. */
  function CodeOf(table: seq<Entry>, text: string): (r: Option<int>)
    ensures r.Some? ==> exists i :: 0 <= i < |table| && table[i] == Entry(r.value, text)
  {
    if table == [] then None
    else if table[0].text == text then Some(table[0].code)
    else
      var r := CodeOf(table[1..], text);
      assert forall i :: 1 <= i < |table| ==> table[i] == table[1..][i - 1];
      r
  }

  /** No two cases share a code or a text. */
  predicate Distinct(table: seq<Entry>)
  {
    forall i, j :: 0 <= i < j < |table| ==> table[i].code != table[j].code && table[i].text != table[j].text
  }

  /** A short fingerprint of a non-empty text: its length and its first
      and last characters. */
  function Key(s: string): (int, char, char)
    requires |s| > 0
  {
    (|s|, s[0], s[|s| - 1])
  }

  /** Codes that differ and texts whose fingerprints differ make a table
      without repeats. */
  lemma DistinctByKey(table: seq<Entry>, keys: seq<(int, char, char)>)
    requires |keys| == |table|
    requires forall i :: 0 <= i < |table| ==> |table[i].text| > 0 && Key(table[i].text) == keys[i]
    requires forall i, j :: 0 <= i < j < |table| ==> table[i].code != table[j].code && keys[i] != keys[j]
    ensures Distinct(table)
  {
  }

  /** In a table without repeats, the text printed for a code reads back as
      that code, and only that code prints it. */
  lemma {:induction false} FindInverse(table: seq<Entry>, code: int, text: string)
    requires Distinct(table)
    ensures Find(table, code) == Some(text) <==> CodeOf(table, text) == Some(code)
  {
    if table != [] {
      var rest := table[1..];
      assert forall i :: 0 <= i < |rest| ==> rest[i] == table[i + 1];
      FindInverse(rest, code, text);
    }
  }

  /** In a table whose codes do not repeat, the case for a code prints
      that entry's label. */
  lemma FindEntry(table: seq<Entry>, i: int)
    requires 0 <= i < |table|
    requires forall j :: 0 <= j < |table| && j != i ==> table[j].code != table[i].code
    ensures Find(table, table[i].code) == Some(table[i].text)
  {
    var r := Find(table, table[i].code);
    var k :| 0 <= k < |table| && table[k] == Entry(table[i].code, r.value);
    assert k == i;
  }

  /** A table whose codes run from `base` upwards matches exactly the
      codes in that run. */
  lemma FindRun(table: seq<Entry>, base: int, code: int)
    requires forall i :: 0 <= i < |table| ==> table[i].code == base + i
    ensures Find(table, code).Some? <==> base <= code < base + |table|
  {
    if base <= code < base + |table| {
      assert table[code - base].code == code;
    }
  }

  /** What `printf` shows for a matched case, or nothing. */
  function Line(r: Option<string>): (s: string)
    ensures s != "" <==> r.Some?
  {
    match r
    case Some(s) => s + "\n"
    case None => ""
  }

  // ---------------------------------------------------------------------
  // print_mode

  function ModeTable(): (t: seq<Entry>)
    ensures |t| == 13 && forall i :: 0 <= i < |t| ==> t[i].code == i
  {
    [Entry(0x00, "CONFIG"), Entry(0x01, "ACCONLY"), Entry(0x02, "MAGONLY"), Entry(0x03, "GYRONLY"),
     Entry(0x04, "ACCMAG"), Entry(0x05, "ACCGYRO"), Entry(0x06, "MAGGYRO"), Entry(0x07, "AMG"),
     Entry(0x08, "IMU"), Entry(0x09, "COMPASS"), Entry(0x0A, "M4G"), Entry(0x0B, "NDOF_FMC_OFF"),
     Entry(0x0C, "NDOF_FMC")]
  }

  /** `print_mode`: the operating-mode name for 0 .. 12, and -1 for any
      other value. */
  function ModeLabel(mode: int): (r: Option<string>)
    ensures r.None? <==> mode < 0 || mode > 12
  {
    if mode < 0 || mode > 12 then None
    else
      assert ModeTable()[mode].code == mode;
      Find(ModeTable(), mode)
  }

  /** A printed mode name reads back as the mode it was printed for. */
  lemma ModeLabelReadsBack(mode: int)
    requires ModeLabel(mode).Some?
    ensures CodeOf(ModeTable(), ModeLabel(mode).value) == Some(mode)
  {
    ModeTableDistinct();
    FindInverse(ModeTable(), mode, ModeLabel(mode).value);
  }

  lemma ModeTableDistinct()
    ensures Distinct(ModeTable())
  {
    DistinctByKey(ModeTable(),
      [(6, 'C', 'G'), (7, 'A', 'Y'), (7, 'M', 'Y'), (7, 'G', 'Y'), (6, 'A', 'G'), (7, 'A', 'O'),
       (7, 'M', 'O'), (3, 'A', 'G'), (3, 'I', 'U'), (7, 'C', 'S'), (3, 'M', 'G'), (12, 'N', 'F'),
       (8, 'N', 'C')]);
  }

  /** The mode names read back: two modes share a name only if they are the
      same mode. */
  lemma ModeLabelInjective(a: int, b: int)
    requires ModeLabel(a).Some? && ModeLabel(a) == ModeLabel(b)
    ensures a == b
  {
    ModeLabelReadsBack(a);
    ModeLabelReadsBack(b);
  }

  /** Of the sixteen values the low nibble of OPR_MODE can hold, the three
      above 12 have no name. */
  lemma ModeNibbleNamed(b: Byte)
    ensures ModeLabel(LowNibble(b)).Some? <==> b % 16 <= 12
    ensures ModeLabel(0x0C) == Some("NDOF_FMC") && ModeLabel(0x0B) == Some("NDOF_FMC_OFF")
  {
    FindEntry(ModeTable(), 0x0C);
    FindEntry(ModeTable(), 0x0B);
  }

  // ---------------------------------------------------------------------
  // print_power

  function PowerTable(): (t: seq<Entry>)
    ensures |t| == 3 && forall i :: 0 <= i < |t| ==> t[i].code == i
  {
    [Entry(0x00, "NORMAL"), Entry(0x01, "LOW"), Entry(0x02, "SUSPEND")]
  }

  /** `print_power`: the power-mode name for 0 .. 2, and -1 otherwise. */
  function PowerLabel(mode: int): (r: Option<string>)
    ensures r.None? <==> mode < 0 || mode > 2
  {
    if mode < 0 || mode > 2 then None
    else
      assert PowerTable()[mode].code == mode;
      Find(PowerTable(), mode)
  }

  /** A printed power-mode name reads back as its mode. */
  lemma PowerLabelReadsBack(mode: int)
    requires PowerLabel(mode).Some?
    ensures CodeOf(PowerTable(), PowerLabel(mode).value) == Some(mode)
  {
    assert Distinct(PowerTable());
    FindInverse(PowerTable(), mode, PowerLabel(mode).value);
  }

  /** Every value of PWR_MODE's two-bit field has a name except 3. */
  lemma PowerFieldNamed(b: Byte)
    ensures PowerLabel(PowerField(b)).Some? <==> b % 4 != 3
  {
  }

  // ---------------------------------------------------------------------
  // print_sstat

  function SysStatusTable(): (t: seq<Entry>)
    ensures |t| == 7 && forall i :: 0 <= i < |t| ==> t[i].code == i
  {
    [Entry(0x00, "Idle"), Entry(0x01, "System Error"), Entry(0x02, "Initializing Peripherals"),
     Entry(0x03, "System Initalization"), Entry(0x04, "Executing Self-Test"),
     Entry(0x05, "Sensor running with fusion algorithm"),
     Entry(0x06, "Sensor running without fusion algorithm")]
  }

  /** `print_sstat`: the system-status text for 0 .. 6, and -1 otherwise. */
  function SysStatusLabel(code: int): (r: Option<string>)
    ensures r.None? <==> code < 0 || code > 6
  {
    if code < 0 || code > 6 then None
    else
      assert SysStatusTable()[code].code == code;
      Find(SysStatusTable(), code)
  }

  /** A printed system-status text reads back as its code. */
  lemma SysStatusLabelReadsBack(code: int)
    requires SysStatusLabel(code).Some?
    ensures CodeOf(SysStatusTable(), SysStatusLabel(code).value) == Some(code)
  {
    SysStatusDistinct();
    FindInverse(SysStatusTable(), code, SysStatusLabel(code).value);
  }

  lemma SysStatusDistinct()
    ensures Distinct(SysStatusTable())
  {
    DistinctByKey(SysStatusTable(),
      [(4, 'I', 'e'), (12, 'S', 'r'), (24, 'I', 's'), (20, 'S', 'n'), (19, 'E', 't'),
       (36, 'S', 'm'), (39, 'S', 'm')]);
  }

  // ---------------------------------------------------------------------
  // print_remap_conf

  function RemapConfTable(): seq<Entry>
  {
    [Entry(0x24, "X==X Y==Y Z==Z (ENU)"), Entry(0x18, "X<>Y Y<>X Z==Z (NEU)"),
     Entry(0x09, "X<>Z Y==Y Z<>X (UNE)"), Entry(0x36, "X==X Y<>Z Z<>Y (EUN)")]
  }

  /** `print_remap_conf`: a label for exactly the four AXIS_MAP_CONFIG
      values 0x24, 0x18, 0x09 and 0x36, and -1 for any other. */
  function RemapConfLabel(mode: int): (r: Option<string>)
    ensures r.Some? <==> mode in {0x24, 0x18, 0x09, 0x36}
  {
    if mode != 0x24 && mode != 0x18 && mode != 0x09 && mode != 0x36 then None
    else
      var t := RemapConfTable();
      assert t[0].code == 0x24 && t[1].code == 0x18 && t[2].code == 0x09 && t[3].code == 0x36;
      Find(t, mode)
  }

  /** A printed axis configuration reads back as its register value. */
  lemma RemapConfLabelReadsBack(mode: int)
    requires RemapConfLabel(mode).Some?
    ensures CodeOf(RemapConfTable(), RemapConfLabel(mode).value) == Some(mode)
  {
    var t := RemapConfTable();
    assert Distinct(t) by {
      assert t[0].text[0] != t[1].text[0] || t[0].text[2] != t[1].text[2];
    }
    FindInverse(t, mode, RemapConfLabel(mode).value);
  }

  // ---------------------------------------------------------------------
  // print_remap_sign

  function RemapSignTable(): (t: seq<Entry>)
    ensures |t| == 8 && forall i :: 0 <= i < |t| ==> t[i].code == i
  {
    [Entry(0x00, "X+ Y+ Z+"), Entry(0x01, "X+ Y+ Z-"), Entry(0x02, "X+ Y- Z+"), Entry(0x03, "X+ Y- Z-"),
     Entry(0x04, "X- Y+ Z+"), Entry(0x05, "X- Y+ Z-"), Entry(0x06, "X- Y- Z+"), Entry(0x07, "X- Y- Z-")]
  }

  /** `print_remap_sign`: the axis signs for 0 .. 7, and -1 otherwise. */
  function RemapSignLabel(mode: int): (r: Option<string>)
    ensures r.None? <==> mode < 0 || mode > 7
  {
    if mode < 0 || mode > 7 then None
    else
      assert RemapSignTable()[mode].code == mode;
      Find(RemapSignTable(), mode)
  }

  /** '-' for a set sign bit, '+' for a clear one. */
  function Sign(bit: int): char
  {
    if bit == 1 then '-' else '+'
  }

  /** The axis signs read off the register: X from bit 2, Y from bit 1 and
      Z from bit 0. */
  function SignsOf(mode: int): string
  {
    ['X', Sign(Bit(mode, 2)), ' ', 'Y', Sign(Bit(mode, 1)), ' ', 'Z', Sign(Bit(mode, 0))]
  }

  /** For 0 .. 7, bits 2, 1 and 0 are the binary digits of the value. */
  lemma SmallBits(mode: int)
    requires 0 <= mode < 8
    ensures Bit(mode, 2) == mode / 4 && Bit(mode, 1) == mode / 2 % 2 && Bit(mode, 0) == mode % 2
  {
    assert Pow2(1) == 2 && Pow2(2) == 4;
  }

  /** The table of `print_remap_sign` is the bit reading: for every value
      0 .. 7 it prints the signs of bits 2, 1 and 0 for X, Y and Z. */
  lemma RemapSignBits(mode: int)
    requires 0 <= mode < 8
    ensures RemapSignLabel(mode) == Some(SignsOf(mode))
  {
    var t := RemapSignTable();
    SmallBits(mode);
    assert t[mode].text == SignsOf(mode) by {
      if mode == 0 {} else if mode == 1 {} else if mode == 2 {} else if mode == 3 {}
      else if mode == 4 {} else if mode == 5 {} else if mode == 6 {} else {}
    }
    FindEntry(t, mode);
  }

  // ---------------------------------------------------------------------
  // print_unit

  /** `print_unit`: the five lines it prints, each followed by a newline.
      Acceleration, angular rate, Euler angles and temperature read bits 0,
      1, 2 and 4; the orientation line reads bit 3. */
  function UnitLines(unitSel: int): (lines: seq<string>)
    ensures |lines| == 5
  {
    ["Acceleration Unit  = " + (if Bit(unitSel, 0) == 1 then "mg" else "m/s2"),
     "    Gyroscope Unit = " + (if Bit(unitSel, 1) == 1 then "rps" else "dps"),
     "        Euler Unit = " + (if Bit(unitSel, 2) == 1 then "Radians" else "Degrees"),
     "  Temperature Unit = " + (if Bit(unitSel, 4) == 1 then "Fahrenheit" else "Celsius"),
     "  Orientation Mode = " + (if Bit(unitSel, 3) == 1 then "Android" else "Windows")]
  }

  /** Whether two unit selections agree on the five bits `print_unit` reads. */
  predicate SameUnitBits(a: int, b: int)
  {
    Bit(a, 0) == Bit(b, 0) && Bit(a, 1) == Bit(b, 1) && Bit(a, 2) == Bit(b, 2)
    && Bit(a, 3) == Bit(b, 3) && Bit(a, 4) == Bit(b, 4)
  }

  /** Two unit selections print the same lines exactly when they agree on
      bits 0 to 4. */
  lemma UnitLinesDetermine(a: int, b: int)
    ensures UnitLines(a) == UnitLines(b) <==> SameUnitBits(a, b)
  {
    var la, lb := UnitLines(a), UnitLines(b);
    if Bit(a, 0) != Bit(b, 0) {
      assert |la[0]| != |lb[0]|;
    }
    if Bit(a, 4) != Bit(b, 4) {
      assert |la[3]| != |lb[3]|;
    }
    if Bit(a, 1) != Bit(b, 1) {
      assert la[1][21] != lb[1][21];
    }
    if Bit(a, 2) != Bit(b, 2) {
      assert la[2][21] != lb[2][21];
    }
    if Bit(a, 3) != Bit(b, 3) {
      assert la[4][21] != lb[4][21];
    }
  }

  /** Helper: Euclidean division moves by exactly c when c multiples of p
      are added. */
  lemma DivAddMultiple(x: nat, c: nat, p: nat)
    requires p > 0
    ensures (x + c * p) / p == x / p + c
  {
    var q, r := x / p, x % p;
    assert p * (q + c) == p * q + p * c;
    DivModUnique(x + c * p, p, q + c, r);
  }

  /** Adding an even multiple of 2^k leaves bit k alone. */
  lemma BitAddEven(x: nat, k: nat, c: nat)
    requires c % 2 == 0
    ensures Bit(x + c * Pow2(k), k) == Bit(x, k)
  {
    DivAddMultiple(x, c, Pow2(k));
  }

  /** The orientation line follows bit 3. */
  lemma UnitOrientationBit(unitSel: int)
    ensures UnitLines(unitSel)[4] == "  Orientation Mode = Android" <==> Bit(unitSel, 3) == 1
  {
    var l := UnitLines(unitSel);
    if Bit(unitSel, 3) != 1 {
      assert l[4][21] != "  Orientation Mode = Android"[21];
    }
  }

  /** Bit 7, which a comment of print_unit names as the orientation bit,
      changes nothing that `print_unit` prints. */
  lemma UnitHighBitIgnored(unitSel: nat)
    ensures UnitLines(unitSel + 128) == UnitLines(unitSel)
  {
    assert Pow2(1) == 2 && Pow2(2) == 4 && Pow2(3) == 8 && Pow2(4) == 16;
    BitAddEven(unitSel, 0, 128);
    BitAddEven(unitSel, 1, 64);
    BitAddEven(unitSel, 2, 32);
    BitAddEven(unitSel, 3, 16);
    BitAddEven(unitSel, 4, 8);
    UnitLinesDetermine(unitSel + 128, unitSel);
  }

  /** `print_unit` with the orientation line reading bit 7, where the
      BNO055 register map places the orientation setting of UNIT_SEL and
      where the printer's own comment puts it. */
  function UnitLinesIntended(unitSel: int): (lines: seq<string>)
    ensures |lines| == 5
  {
    ["Acceleration Unit  = " + (if Bit(unitSel, 0) == 1 then "mg" else "m/s2"),
     "    Gyroscope Unit = " + (if Bit(unitSel, 1) == 1 then "rps" else "dps"),
     "        Euler Unit = " + (if Bit(unitSel, 2) == 1 then "Radians" else "Degrees"),
     "  Temperature Unit = " + (if Bit(unitSel, 4) == 1 then "Fahrenheit" else "Celsius"),
     "  Orientation Mode = " + (if Bit(unitSel, 7) == 1 then "Android" else "Windows")]
  }

  /** The corrected printer keeps the first four lines and reports Android
      exactly when bit 7 is set. */
  lemma UnitOrientationIntended(unitSel: int)
    ensures UnitLinesIntended(unitSel)[..4] == UnitLines(unitSel)[..4]
    ensures UnitLinesIntended(unitSel)[4] == "  Orientation Mode = Android" <==> Bit(unitSel, 7) == 1
  {
    var l := UnitLinesIntended(unitSel);
    if Bit(unitSel, 7) != 1 {
      assert l[4][21] != "  Orientation Mode = Android"[21];
    }
  }

  /** As written, a unit selection with only bit 7 set prints "Windows",
      and one with only bit 3 set prints "Android"; the corrected printer
      reports the opposite for both. */
  lemma UnitOrientationMisread()
    ensures UnitLines(0x80)[4] == "  Orientation Mode = Windows"
    ensures UnitLinesIntended(0x80)[4] == "  Orientation Mode = Android"
    ensures UnitLines(0x08)[4] == "  Orientation Mode = Android"
    ensures UnitLinesIntended(0x08)[4] == "  Orientation Mode = Windows"
  {
    assert Pow2(3) == 8 && Pow2(7) == 128;
  }

  // ---------------------------------------------------------------------
  // print_acc_conf

  function AccPowerTable(): (t: seq<Entry>)
    ensures |t| == 6 && forall i :: 0 <= i < |t| ==> t[i].code == i
  {
    [Entry(0, "NORMAL"), Entry(1, "SUSPEND"), Entry(2, "LOW POWER1"), Entry(3, "STANDBY"),
     Entry(4, "LOW POWER2"), Entry(5, "DEEP SUSPEND")]
  }

  function BandwidthTable(): (t: seq<Entry>)
    ensures |t| == 8 && forall i :: 0 <= i < |t| ==> t[i].code == i
  {
    [Entry(0, "7.81Hz"), Entry(1, "15.63Hz"), Entry(2, "31.25Hz"), Entry(3, "62.5Hz"),
     Entry(4, "125Hz"), Entry(5, "250Hz"), Entry(6, "500Hz"), Entry(7, "1KHz")]
  }

  function RangeTable(): (t: seq<Entry>)
    ensures |t| == 4 && forall i :: 0 <= i < |t| ==> t[i].code == i
  {
    [Entry(0, "2G"), Entry(1, "4G"), Entry(2, "8G"), Entry(3, "16G")]
  }

  /** The sleep-mode cases print no newline: the duration follows on the
      same line. */
  function SleepModeTable(): (t: seq<Entry>)
    ensures |t| == 2 && forall i :: 0 <= i < |t| ==> t[i].code == i && t[i].text != ""
  {
    [Entry(0, "event-driven, "), Entry(1, "equidistant sampling, ")]
  }

  /** The sleep-mode text, printed without a newline, or nothing. */
  function SleepModeText(m: int): (s: string)
    ensures s != "" <==> 0 <= m <= 1
  {
    FindRun(SleepModeTable(), 0, m);
    match Find(SleepModeTable(), m)
    case Some(text) => text
    case None => ""
  }

  function SleepDurationTable(): (t: seq<Entry>)
    ensures |t| == 10 && forall i :: 0 <= i < |t| ==> t[i].code == i + 6
  {
    [Entry(6, "1ms"), Entry(7, "2ms"), Entry(8, "4ms"), Entry(9, "6ms"), Entry(10, "10ms"),
     Entry(11, "25ms"), Entry(12, "50ms"), Entry(13, "100ms"), Entry(14, "500ms"), Entry(15, "1s")]
  }

  /** The sleep-duration part of `print_acc_conf`: every code below 6 prints
      0.5 ms; 6 .. 15 print their own durations; above 15 nothing. */
  function SleepDurationText(d: int): (s: string)
    ensures s != "" <==> d <= 15
  {
    FindRun(SleepDurationTable(), 6, d);
    if d < 6 then "0.5ms\n" else Line(Find(SleepDurationTable(), d))
  }

  /** Different lines stay different with their newlines. */
  lemma NewlineKeepsApart(s: string, t: string)
    requires s != t
    ensures s + "\n" != t + "\n"
  {
    if |s| == |t| {
      var i :| 0 <= i < |s| && s[i] != t[i];
      assert (s + "\n")[i] != (t + "\n")[i];
    }
  }

  lemma SleepDurationDistinct()
    ensures Distinct(SleepDurationTable())
    ensures forall i :: 0 <= i < |SleepDurationTable()| ==> SleepDurationTable()[i].text != "0.5ms"
  {
    var keys := [(3, '1', 's'), (3, '2', 's'), (3, '4', 's'), (3, '6', 's'), (4, '1', 's'),
                 (4, '2', 's'), (4, '5', 's'), (5, '1', 's'), (5, '5', 's'), (2, '1', 's')];
    DistinctByKey(SleepDurationTable(), keys);
    assert forall i :: 0 <= i < |keys| ==> keys[i] != Key("0.5ms");
  }

  /** A duration code from 6 on prints its table entry. */
  lemma SleepDurationAt(d: int)
    requires 6 <= d <= 15
    ensures SleepDurationText(d) == SleepDurationTable()[d - 6].text + "\n"
  {
    FindEntry(SleepDurationTable(), d - 6);
  }

  /** Two sleep-duration codes up to 15 print the same text exactly when
      they are equal or both below 6. */
  lemma SleepDurationsMerged(d: int, e: int)
    requires d <= 15 && e <= 15
    ensures SleepDurationText(d) == SleepDurationText(e) <==> d == e || (d < 6 && e < 6)
  {
    var t := SleepDurationTable();
    if d != e && (6 <= d || 6 <= e) {
      SleepDurationDistinct();
      var sd := if d < 6 then "0.5ms" else t[d - 6].text;
      var se := if e < 6 then "0.5ms" else t[e - 6].text;
      if 6 <= d {
        SleepDurationAt(d);
      }
      if 6 <= e {
        SleepDurationAt(e);
      }
      NewlineKeepsApart(sd, se);
    }
  }

  /** What `print_acc_conf` prints after each of its four headers: the power
      mode, the bandwidth and the g-range lines, then the sleep mode and the
      duration on one line. A code without a case prints nothing, not even
      the newline. */
  function AccConfParts(c: AccConfig): (parts: seq<string>)
    ensures |parts| == 5
    ensures parts[0] != "" <==> c.powerMode <= 5
    ensures parts[1] != "" <==> c.bandwidth <= 7
    ensures parts[2] != "" <==> c.range <= 3
    ensures parts[3] != "" <==> c.sleepMode <= 1
    ensures parts[4] != "" <==> c.sleepDuration <= 15
  {
    FindRun(AccPowerTable(), 0, c.powerMode);
    FindRun(BandwidthTable(), 0, c.bandwidth);
    FindRun(RangeTable(), 0, c.range);
    [Line(Find(AccPowerTable(), c.powerMode)), Line(Find(BandwidthTable(), c.bandwidth)),
     Line(Find(RangeTable(), c.range)), SleepModeText(c.sleepMode), SleepDurationText(c.sleepDuration)]
  }
}
