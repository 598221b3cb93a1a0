/** What GpioValidator::validate promises its callers, proved about the model:
    the order of the checks, reservation dominance, caution pins never being
    rejected, the ESP32 input-only pins, the fallback for unknown chips, and
    the outcomes the component's unit tests expect. */
module GpioValidatorProperties {
  import opened GpioValidator
  import opened PinTables

  /** A pin is reserved on a chip when one of the chip's reserved rows covers it. */
  predicate IsReserved(chip: ChipModel, gpio: int) {
    exists i :: 0 <= i < |ReservedRows(chip)| && gpio in ReservedRows(chip)[i].pins
  }

  // ---------------------------------------------------------------------------
  // Check order
  // ---------------------------------------------------------------------------

  /** The first check that fails decides the outcome, and a rejection always
      names a check that does fail; with no failing check the pin is accepted. */
  lemma FirstFailureDecides(chip: ChipModel, soc: Soc, gpio: int, mode: Mode)
    ensures var r := Validate(chip, soc, gpio, mode);
            var failures := Failures(chip, soc, gpio, mode);
            && (r.Ok? <==> failures == [])
            && (r.Rejected? ==> r.reason == failures[0] && r.reason in failures)
  {
    ValidateMatchesTables(chip, soc, gpio, mode);
  }

  /** An out-of-range pin is rejected as such whatever the chip, the mode and the
      platform's predicates: nothing after the range check is consulted. */
  lemma OutOfRangeDecides(chip1: ChipModel, chip2: ChipModel, soc1: Soc, soc2: Soc,
                          gpio: int, mode1: Mode, mode2: Mode)
    requires soc1.pinCount == soc2.pinCount
    requires gpio < 0 || gpio >= soc1.pinCount
    ensures Validate(chip1, soc1, gpio, mode1) == Validate(chip2, soc2, gpio, mode2) == Rejected(OutOfRange)
  {
  }

  /** An in-range pin the platform does not know is rejected as such whatever the
      chip, the mode and the output predicate. */
  lemma NotAGpioDecides(chip1: ChipModel, chip2: ChipModel, soc1: Soc, soc2: Soc,
                        gpio: int, mode1: Mode, mode2: Mode)
    requires soc1.pinCount == soc2.pinCount && InRange(soc1, gpio)
    requires !soc1.isValidGpio(gpio) && !soc2.isValidGpio(gpio)
    ensures Validate(chip1, soc1, gpio, mode1) == Validate(chip2, soc2, gpio, mode2) == Rejected(NotAGpio)
  {
  }

  /** An OUTPUT request on a known pin the platform says cannot drive output is
      rejected as such whatever the chip, before any reserved table is read. */
  lemma NotOutputCapableDecides(chip: ChipModel, soc: Soc, gpio: int)
    requires InRange(soc, gpio) && soc.isValidGpio(gpio) && !soc.isValidOutputGpio(gpio)
    ensures Validate(chip, soc, gpio, Output) == Rejected(NotOutputCapable)
    ensures Validate(chip, soc, gpio, Input) != Rejected(NotOutputCapable)
  {
  }

  // ---------------------------------------------------------------------------
  // Acceptance, reservations and cautions
  // ---------------------------------------------------------------------------

  /** A pin is accepted exactly when the generic checks pass and no reserved row
      of the chip covers it. */
  lemma AcceptedIff(chip: ChipModel, soc: Soc, gpio: int, mode: Mode)
    ensures Validate(chip, soc, gpio, mode).Ok? <==>
              PassesGenericChecks(soc, gpio, mode) && !IsReserved(chip, gpio)
  {
    ValidateMatchesTables(chip, soc, gpio, mode);
    TagsEmpty(ReservedRows(chip), gpio);
  }

  /** The status code is ESP_OK exactly when the pin is accepted. */
  lemma StatusOkIff(chip: ChipModel, soc: Soc, gpio: int, mode: Mode)
    ensures ValidateStatus(chip, soc, gpio, mode) == EspOk <==>
              PassesGenericChecks(soc, gpio, mode) && !IsReserved(chip, gpio)
  {
    AcceptedIff(chip, soc, gpio, mode);
  }

  /** Reservation dominance: a reserved pin is rejected in both modes, on every
      platform. */
  lemma ReservationDominance(chip: ChipModel, soc: Soc, gpio: int)
    requires IsReserved(chip, gpio)
    ensures Validate(chip, soc, gpio, Input).Rejected?
    ensures Validate(chip, soc, gpio, Output).Rejected?
  {
    AcceptedIff(chip, soc, gpio, Input);
    AcceptedIff(chip, soc, gpio, Output);
  }

  /** The reserved pins of each chip, and the bus each rejection names. The two
      ESP32-S3 ranges are told apart. */
  lemma ReservedPinsNameTheirBus(chip: ChipModel, soc: Soc, gpio: int, mode: Mode)
    requires PassesGenericChecks(soc, gpio, mode)
    ensures chip == Esp32 && ((6 <= gpio <= 11) || gpio == 16 || gpio == 17) ==>
              IsReserved(chip, gpio) && Validate(chip, soc, gpio, mode) == Rejected(Reserved(FlashPsram))
    ensures chip == Esp32S3 && 26 <= gpio <= 32 ==>
              IsReserved(chip, gpio) && Validate(chip, soc, gpio, mode) == Rejected(Reserved(SpiFlash))
    ensures chip == Esp32S3 && 33 <= gpio <= 37 ==>
              IsReserved(chip, gpio) && Validate(chip, soc, gpio, mode) == Rejected(Reserved(OctalFlash))
    ensures chip == Esp32C3 && 12 <= gpio <= 17 ==>
              IsReserved(chip, gpio) && Validate(chip, soc, gpio, mode) == Rejected(Reserved(SpiFlash))
  {
    var rows := ReservedRows(chip);
    if chip == Esp32 && ((6 <= gpio <= 11) || gpio == 16 || gpio == 17) {
      assert gpio in rows[0].pins;
    } else if chip == Esp32S3 && 26 <= gpio <= 32 {
      assert gpio in rows[0].pins;
    } else if chip == Esp32S3 && 33 <= gpio <= 37 {
      assert gpio in rows[1].pins;
    } else if chip == Esp32C3 && 12 <= gpio <= 17 {
      assert gpio in rows[0].pins;
    }
  }

  /** An accepted pin carries exactly the advisories that apply to it: one for
      each caution row covering it (all of them, not only the first), the
      no-pull warning for an input-only pin used as input, and the unhandled-chip
      warning on an unknown chip. */
  lemma AdvisoriesIff(chip: ChipModel, soc: Soc, gpio: int, mode: Mode, a: Advisory)
    requires Validate(chip, soc, gpio, mode).Ok?
    ensures a in Validate(chip, soc, gpio, mode).advisories <==>
              || (exists i :: 0 <= i < |CautionRows(chip)| && CautionRows(chip)[i].tag == a
                                 && gpio in CautionRows(chip)[i].pins)
              || (a == NoPull && mode == Input && gpio in NoPullInputPins(chip))
              || (a == UnhandledChip && chip == Other)
  {
    ValidateMatchesTables(chip, soc, gpio, mode);
    TagsMembers(CautionRows(chip), gpio, a);
  }

  /** Caution pins are never rejected by the chip rules: past the generic checks
      they are accepted and carry the caution's advisory. */
  lemma CautionPinsAccepted(chip: ChipModel, soc: Soc, gpio: int, mode: Mode, i: int)
    requires PassesGenericChecks(soc, gpio, mode)
    requires 0 <= i < |CautionRows(chip)| && gpio in CautionRows(chip)[i].pins
    ensures Validate(chip, soc, gpio, mode).Ok?
    ensures CautionRows(chip)[i].tag in Validate(chip, soc, gpio, mode).advisories
  {
    ValidateMatchesTables(chip, soc, gpio, mode);
    TagsMembers(CautionRows(chip), gpio, CautionRows(chip)[i].tag);
    match chip
    case Esp32 => Esp32Tables(gpio);
    case Esp32S3 => Esp32S3Tables(gpio);
    case Esp32C3 => Esp32C3Tables(gpio);
  }

  /** An INPUT request is never stricter than an OUTPUT request: whatever an
      output accepts, an input accepts too, with the same advisories plus the
      no-pull warning on the input-only pins. */
  lemma InputNoStricterThanOutput(chip: ChipModel, soc: Soc, gpio: int)
    requires Validate(chip, soc, gpio, Output).Ok?
    ensures Validate(chip, soc, gpio, Input).Ok?
    ensures Validate(chip, soc, gpio, Input).advisories ==
              Validate(chip, soc, gpio, Output).advisories
              + (if gpio in NoPullInputPins(chip) then [NoPull] else [])
  {
    ValidateMatchesTables(chip, soc, gpio, Output);
    ValidateMatchesTables(chip, soc, gpio, Input);
  }

  // ---------------------------------------------------------------------------
  // Per-chip outcomes
  // ---------------------------------------------------------------------------

  /** ESP32 caution pins, in both modes: UART0 {1, 3}, JTAG 12-15 and strapping
      {0, 2, 5, 12, 15}; pins 12 and 15 carry both JTAG and strapping. */
  lemma Esp32CautionOutcomes(soc: Soc, gpio: int, mode: Mode)
    requires PassesGenericChecks(soc, gpio, mode)
    ensures gpio == 1 || gpio == 3 ==> Validate(Esp32, soc, gpio, mode) == Ok([Uart0])
    ensures gpio == 13 || gpio == 14 ==> Validate(Esp32, soc, gpio, mode) == Ok([Jtag])
    ensures gpio == 12 || gpio == 15 ==> Validate(Esp32, soc, gpio, mode) == Ok([Jtag, Strapping])
    ensures gpio == 0 || gpio == 2 || gpio == 5 ==> Validate(Esp32, soc, gpio, mode) == Ok([Strapping])
  {
  }

  /** ESP32-S3 caution pins, in both modes: USB-JTAG {19, 20}, UART0 {43, 44} and
      strapping {0, 3, 45, 46}. */
  lemma Esp32S3CautionOutcomes(soc: Soc, gpio: int, mode: Mode)
    requires PassesGenericChecks(soc, gpio, mode)
    ensures gpio == 19 || gpio == 20 ==> Validate(Esp32S3, soc, gpio, mode) == Ok([UsbJtag])
    ensures gpio == 43 || gpio == 44 ==> Validate(Esp32S3, soc, gpio, mode) == Ok([Uart0])
    ensures gpio == 0 || gpio == 3 || gpio == 45 || gpio == 46 ==>
              Validate(Esp32S3, soc, gpio, mode) == Ok([Strapping])
  {
  }

  /** ESP32-C3 caution pins, in both modes: USB-JTAG {18, 19} and strapping
      {2, 8, 9}. */
  lemma Esp32C3CautionOutcomes(soc: Soc, gpio: int, mode: Mode)
    requires PassesGenericChecks(soc, gpio, mode)
    ensures gpio == 18 || gpio == 19 ==> Validate(Esp32C3, soc, gpio, mode) == Ok([UsbJtag])
    ensures gpio == 2 || gpio == 8 || gpio == 9 ==> Validate(Esp32C3, soc, gpio, mode) == Ok([Strapping])
  {
  }

  /** ESP32 pins 34-39: as inputs they are accepted with only the no-pull
      warning; as outputs they are rejected exactly when the platform's output
      predicate refuses them. */
  lemma Esp32InputOnlyPins(soc: Soc, gpio: int)
    requires 34 <= gpio <= 39 && InRange(soc, gpio) && soc.isValidGpio(gpio)
    ensures Validate(Esp32, soc, gpio, Input) == Ok([NoPull])
    ensures !soc.isValidOutputGpio(gpio) ==> Validate(Esp32, soc, gpio, Output) == Rejected(NotOutputCapable)
    ensures soc.isValidOutputGpio(gpio) ==> Validate(Esp32, soc, gpio, Output) == Ok([])
  {
  }

  /** On an ESP32 the caution warnings are logged before the no-pull early
      return: an accepted input carries the caution advisories first, then the
      no-pull warning when the pin is one of 34-39. */
  lemma Esp32NoPullComesLast(soc: Soc, gpio: int)
    requires Validate(Esp32, soc, gpio, Input).Ok?
    ensures Validate(Esp32, soc, gpio, Input).advisories ==
              Tags(CautionRows(Esp32), gpio) + (if 34 <= gpio <= 39 then [NoPull] else [])
  {
    ValidateMatchesTables(Esp32, soc, gpio, Input);
    assert Advisories(Esp32, gpio, Input) ==
             Tags(CautionRows(Esp32), gpio) + (if gpio in NoPullInputPins(Esp32) then [NoPull] else []) + [];
  }

  /** An unknown chip consults no table, so it is the most permissive model:
      every pin that some known chip accepts is accepted on an unknown chip, and
      every rejection on an unknown chip is a generic one that every chip shares. */
  lemma UnknownChipPermissive(chip: ChipModel, soc: Soc, gpio: int, mode: Mode)
    ensures Validate(chip, soc, gpio, mode).Ok? ==> Validate(Other, soc, gpio, mode).Ok?
    ensures Validate(Other, soc, gpio, mode).Rejected? ==>
              Validate(chip, soc, gpio, mode) == Validate(Other, soc, gpio, mode)
  {
  }

  /** The no-pull warning: an accepted pin carries it exactly when it is an
      ESP32 pin 34-39 requested as INPUT. */
  lemma NoPullIff(chip: ChipModel, soc: Soc, gpio: int, mode: Mode)
    requires Validate(chip, soc, gpio, mode).Ok?
    ensures NoPull in Validate(chip, soc, gpio, mode).advisories <==>
              chip == Esp32 && mode == Input && 34 <= gpio <= 39
  {
    AdvisoriesIff(chip, soc, gpio, mode, NoPull);
    var rows := CautionRows(chip);
    forall i | 0 <= i < |rows| ensures rows[i].tag != NoPull {
      match chip
      case Esp32 => assert i == 0 || i == 1 || i == 2;
      case Esp32S3 => assert i == 0 || i == 1 || i == 2;
      case Esp32C3 => assert i == 0 || i == 1;
    }
  }

  // ---------------------------------------------------------------------------
  // Outcomes the unit tests expect
  // ---------------------------------------------------------------------------

  /** GPIO 4 is accepted in both modes on every chip, with no advisory on a
      known chip, provided the platform accepts it as an output GPIO. */
  lemma Gpio4Accepted(chip: ChipModel, soc: Soc)
    requires PassesGenericChecks(soc, 4, Output)
    ensures Validate(chip, soc, 4, Output).Ok? && Validate(chip, soc, 4, Input).Ok?
    ensures chip != Other ==> Validate(chip, soc, 4, Output) == Validate(chip, soc, 4, Input) == Ok([])
  {
  }

  /** -1, 100 (on a platform with at most 100 pins) and the pin count itself are
      rejected as out of range. */
  lemma EdgeCasesRejected(chip: ChipModel, soc: Soc, mode: Mode)
    requires soc.pinCount <= 100
    ensures Validate(chip, soc, -1, mode) == Rejected(OutOfRange)
    ensures Validate(chip, soc, 100, mode) == Rejected(OutOfRange)
    ensures Validate(chip, soc, soc.pinCount, mode) == Rejected(OutOfRange)
  {
  }
}
