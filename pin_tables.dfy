/** The validator's per-chip rules written as tables, and a reference definition
    of the decision built from them: collect every check that fails, in the order
    the checks run, and let the first one decide; otherwise return every caution
    that applies. `ValidateMatchesTables` proves that the if-chain of
    `GpioValidator.Validate` computes exactly this. */
module PinTables {
  import opened GpioValidator

  /** One row of a chip's table: a category and the pins it covers. */
  datatype Row<T> = Row(tag: T, pins: set<int>)

  /** Prohibited pins, one row per bus, in the order the source tests them. */
  function ReservedRows(chip: ChipModel): seq<Row<Bus>> {
    match chip
    case Esp32 => [Row(FlashPsram, {6, 7, 8, 9, 10, 11, 16, 17})]
    case Esp32S3 => [Row(SpiFlash, {26, 27, 28, 29, 30, 31, 32}), Row(OctalFlash, {33, 34, 35, 36, 37})]
    case Esp32C3 => [Row(SpiFlash, {12, 13, 14, 15, 16, 17})]
    case Other => []
  }

  /** Caution pins, one row per warning, in the order the source logs them. */
  function CautionRows(chip: ChipModel): seq<Row<Advisory>> {
    match chip
    case Esp32 => [Row(Uart0, {1, 3}), Row(Jtag, {12, 13, 14, 15}), Row(Strapping, {0, 2, 5, 12, 15})]
    case Esp32S3 => [Row(UsbJtag, {19, 20}), Row(Uart0, {43, 44}), Row(Strapping, {0, 3, 45, 46})]
    case Esp32C3 => [Row(UsbJtag, {18, 19}), Row(Strapping, {2, 8, 9})]
    case Other => []
  }

  /** Pins that lack pull resistors and are flagged when used as inputs. */
  function NoPullInputPins(chip: ChipModel): (pins: set<int>)
    ensures forall g :: g in pins <==> chip == Esp32 && 34 <= g <= 39
  {
    if chip == Esp32 then {34, 35, 36, 37, 38, 39} else {}
  }

  /** The tags of all rows that contain pin g, in table order. */
  function Tags<T>(rows: seq<Row<T>>, g: int): seq<T> {
    if rows == [] then []
    else (if g in rows[0].pins then [rows[0].tag] else []) + Tags(rows[1..], g)
  }

  /** Every check that rejects the pin, in the order the checks run. */
  function Failures(chip: ChipModel, soc: Soc, gpio: int, mode: Mode): seq<Reason> {
    var buses := Tags(ReservedRows(chip), gpio);
    (if !InRange(soc, gpio) then [OutOfRange] else [])
    + (if !soc.isValidGpio(gpio) then [NotAGpio] else [])
    + (if mode == Output && !soc.isValidOutputGpio(gpio) then [NotOutputCapable] else [])
    + seq(|buses|, i requires 0 <= i < |buses| => Reserved(buses[i]))
  }

  /** Every advisory that applies to an accepted pin, in the order they are logged. */
  function Advisories(chip: ChipModel, gpio: int, mode: Mode): seq<Advisory> {
    Tags(CautionRows(chip), gpio)
    + (if mode == Input && gpio in NoPullInputPins(chip) then [NoPull] else [])
    + (if chip == Other then [UnhandledChip] else [])
  }

  /** The reference decision: the first failing check wins; no failure means Ok
      with all applicable advisories. */
  function Reference(chip: ChipModel, soc: Soc, gpio: int, mode: Mode): Outcome {
    var failures := Failures(chip, soc, gpio, mode);
    if failures != [] then Rejected(failures[0]) else Ok(Advisories(chip, gpio, mode))
  }

  /** A tag is in Tags(rows, g) exactly when some row with that tag covers g. */
  lemma {:induction false} TagsMembers<T>(rows: seq<Row<T>>, g: int, t: T)
    ensures t in Tags(rows, g) <==> exists i :: 0 <= i < |rows| && rows[i].tag == t && g in rows[i].pins
  {
    if rows != [] {
      TagsMembers(rows[1..], g, t);
      if exists i :: 0 <= i < |rows| && rows[i].tag == t && g in rows[i].pins {
        var i :| 0 <= i < |rows| && rows[i].tag == t && g in rows[i].pins;
        if i > 0 {
          assert rows[1..][i - 1] == rows[i];
        }
      }
      if exists j :: 0 <= j < |rows[1..]| && rows[1..][j].tag == t && g in rows[1..][j].pins {
        var j :| 0 <= j < |rows[1..]| && rows[1..][j].tag == t && g in rows[1..][j].pins;
        assert rows[j + 1] == rows[1..][j];
      }
    }
  }

  /** No tag is produced exactly when no row covers g. */
  lemma {:induction false} TagsEmpty<T>(rows: seq<Row<T>>, g: int)
    ensures Tags(rows, g) == [] <==> forall i :: 0 <= i < |rows| ==> g !in rows[i].pins
  {
    if rows != [] {
      TagsEmpty(rows[1..], g);
      if g !in rows[0].pins && forall j :: 0 <= j < |rows[1..]| ==> g !in rows[1..][j].pins {
        forall i | 0 <= i < |rows| ensures g !in rows[i].pins {
          if i > 0 { assert rows[i] == rows[1..][i - 1]; }
        }
      }
    }
  }

  /** The ESP32 tables, read off for one pin. */
  lemma Esp32Tables(g: int)
    ensures Tags(ReservedRows(Esp32), g) == if (6 <= g <= 11) || g == 16 || g == 17 then [FlashPsram] else []
    ensures Tags(CautionRows(Esp32), g) ==
              (if g == 1 || g == 3 then [Uart0] else [])
              + (if 12 <= g <= 15 then [Jtag] else [])
              + (if g == 0 || g == 2 || g == 5 || g == 12 || g == 15 then [Strapping] else [])
  {
    var rows := CautionRows(Esp32);
    assert ReservedRows(Esp32)[1..] == [];
    assert rows[1..][1..][1..] == [];
    assert Tags(rows[1..][1..], g) == (if g in {0, 2, 5, 12, 15} then [Strapping] else []) + [];
    assert Tags(rows[1..], g) == (if g in {12, 13, 14, 15} then [Jtag] else []) + Tags(rows[1..][1..], g);
  }

  /** The ESP32-S3 tables, read off for one pin. */
  lemma Esp32S3Tables(g: int)
    ensures Tags(ReservedRows(Esp32S3), g) ==
              if 26 <= g <= 32 then [SpiFlash] else if 33 <= g <= 37 then [OctalFlash] else []
    ensures Tags(CautionRows(Esp32S3), g) ==
              (if g == 19 || g == 20 then [UsbJtag] else [])
              + (if g == 43 || g == 44 then [Uart0] else [])
              + (if g == 0 || g == 3 || g == 45 || g == 46 then [Strapping] else [])
  {
    var rows := CautionRows(Esp32S3);
    var buses := ReservedRows(Esp32S3);
    assert buses[1..][1..] == [];
    assert Tags(buses[1..], g) == (if g in {33, 34, 35, 36, 37} then [OctalFlash] else []) + [];
    assert rows[1..][1..][1..] == [];
    assert Tags(rows[1..][1..], g) == (if g in {0, 3, 45, 46} then [Strapping] else []) + [];
    assert Tags(rows[1..], g) == (if g in {43, 44} then [Uart0] else []) + Tags(rows[1..][1..], g);
  }

  /** The ESP32-C3 tables, read off for one pin. */
  lemma Esp32C3Tables(g: int)
    ensures Tags(ReservedRows(Esp32C3), g) == if 12 <= g <= 17 then [SpiFlash] else []
    ensures Tags(CautionRows(Esp32C3), g) ==
              (if g == 18 || g == 19 then [UsbJtag] else [])
              + (if g == 2 || g == 8 || g == 9 then [Strapping] else [])
  {
    var rows := CautionRows(Esp32C3);
    assert ReservedRows(Esp32C3)[1..] == [];
    assert rows[1..][1..] == [];
    assert Tags(rows[1..], g) == (if g in {2, 8, 9} then [Strapping] else []) + [];
  }

  /** Once the generic checks pass, only the reserved rows can fail the pin. */
  lemma FailuresAfterGenericChecks(chip: ChipModel, soc: Soc, gpio: int, mode: Mode)
    requires PassesGenericChecks(soc, gpio, mode)
    ensures var buses := Tags(ReservedRows(chip), gpio);
            Failures(chip, soc, gpio, mode) == seq(|buses|, i requires 0 <= i < |buses| => Reserved(buses[i]))
  {
  }

  /** On an ESP32, past the generic checks, the if-chain agrees with the tables. */
  lemma ValidateMatchesEsp32Tables(soc: Soc, gpio: int, mode: Mode)
    requires PassesGenericChecks(soc, gpio, mode)
    ensures Validate(Esp32, soc, gpio, mode) == Reference(Esp32, soc, gpio, mode)
  {
    FailuresAfterGenericChecks(Esp32, soc, gpio, mode);
    Esp32Tables(gpio);
  }

  /** On an ESP32-S3, past the generic checks, the if-chain agrees with the tables. */
  lemma ValidateMatchesEsp32S3Tables(soc: Soc, gpio: int, mode: Mode)
    requires PassesGenericChecks(soc, gpio, mode)
    ensures Validate(Esp32S3, soc, gpio, mode) == Reference(Esp32S3, soc, gpio, mode)
  {
    FailuresAfterGenericChecks(Esp32S3, soc, gpio, mode);
    Esp32S3Tables(gpio);
  }

  /** On an ESP32-C3, past the generic checks, the if-chain agrees with the tables. */
  lemma ValidateMatchesEsp32C3Tables(soc: Soc, gpio: int, mode: Mode)
    requires PassesGenericChecks(soc, gpio, mode)
    ensures Validate(Esp32C3, soc, gpio, mode) == Reference(Esp32C3, soc, gpio, mode)
  {
    FailuresAfterGenericChecks(Esp32C3, soc, gpio, mode);
    Esp32C3Tables(gpio);
  }

  /** The if-chain of the source computes the reference decision, for every chip,
      platform, pin and mode. */
  lemma ValidateMatchesTables(chip: ChipModel, soc: Soc, gpio: int, mode: Mode)
    ensures Validate(chip, soc, gpio, mode) == Reference(chip, soc, gpio, mode)
  {
    if PassesGenericChecks(soc, gpio, mode) {
      match chip
      case Esp32 => ValidateMatchesEsp32Tables(soc, gpio, mode);
      case Esp32S3 => ValidateMatchesEsp32S3Tables(soc, gpio, mode);
      case Esp32C3 => ValidateMatchesEsp32C3Tables(soc, gpio, mode);
      case Other =>
    }
  }
}
