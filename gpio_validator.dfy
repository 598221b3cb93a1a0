/** A model of GpioValidator::validate: the decision whether a GPIO number may be
    used as an input or an output on an ESP32, ESP32-S3 or ESP32-C3, or on a chip
    the validator does not know.

    The platform pieces the C++ code reads are inputs here:
    - the chip model, which the code obtains from a hardware query;
    - the SoC capabilities, which the code takes from compile-time macros
      (the pin count and the "valid GPIO" / "valid output GPIO" predicates).
    What the code logs is returned as data: the rejection reason, or the list of
    advisories (warnings) in the order the code emits them. */
module GpioValidator {

  /** The requested usage of the pin. */
  datatype Mode = Input | Output

  /** The chip model reported by the platform; `Other` is every model the
      switch statement has no case for. */
  datatype ChipModel = Esp32 | Esp32S3 | Esp32C3 | Other

  /** The build target's GPIO capabilities: the pin count and the platform's
      predicates for "is a GPIO at all" and "can drive output". Their contents are
      platform data and are left uninterpreted. */
  datatype Soc = Soc(pinCount: int, isValidGpio: int -> bool, isValidOutputGpio: int -> bool)

  /** The memory buses whose pins are prohibited. */
  datatype Bus =
    | FlashPsram   // ESP32: SPI flash / PSRAM
    | SpiFlash     // ESP32-S3 and ESP32-C3: SPI flash
    | OctalFlash   // ESP32-S3: octal flash

  /** Why a pin was rejected; each reason is one error log of the source. */
  datatype Reason =
    | OutOfRange
    | NotAGpio
    | NotOutputCapable
    | Reserved(bus: Bus)

  /** The warnings a successful validation can carry. */
  datatype Advisory =
    | Uart0          // pin is UART0 TX/RX
    | Jtag           // pin is on the ESP32 JTAG interface
    | UsbJtag        // pin is on the USB-JTAG interface
    | Strapping      // pin is sampled at boot
    | NoPull         // pin has no internal pull-up/pull-down
    | UnhandledChip  // the chip model has no rules; only the generic checks ran

  /** The decision: usable with the advisories logged on the way, or rejected. */
  datatype Outcome = Ok(advisories: seq<Advisory>) | Rejected(reason: Reason)

  /** The two status codes `validate` returns. */
  datatype EspErr = EspOk | EspErrInvalidArg

  predicate InRange(soc: Soc, gpio: int) {
    0 <= gpio < soc.pinCount
  }

  /** The three platform checks that run before any chip-specific rule. */
  predicate PassesGenericChecks(soc: Soc, gpio: int, mode: Mode) {
    && InRange(soc, gpio)
    && soc.isValidGpio(gpio)
    && (mode == Output ==> soc.isValidOutputGpio(gpio))
  }

  /** ESP32 rules: the flash/PSRAM pins are prohibited; UART0, JTAG and
      strapping pins are flagged; pins 34-39 as inputs are flagged for having no
      pull resistors and leave the switch early. */
  function Esp32Rules(g: int, mode: Mode): Outcome {
    if (6 <= g <= 11) || g == 16 || g == 17 then
      Rejected(Reserved(FlashPsram))
    else
      var cautions :=
        (if g == 1 || g == 3 then [Uart0] else [])
        + (if 12 <= g <= 15 then [Jtag] else [])
        + (if g == 0 || g == 2 || g == 5 || g == 12 || g == 15 then [Strapping] else []);
      if 34 <= g <= 39 && mode == Input then
        Ok(cautions + [NoPull])
      else
        Ok(cautions)
  }

  /** ESP32-S3 rules: SPI flash and octal flash pins are prohibited, in that
      order; USB-JTAG, UART0 and strapping pins are flagged. */
  function Esp32S3Rules(g: int): Outcome {
    if 26 <= g <= 32 then
      Rejected(Reserved(SpiFlash))
    else if 33 <= g <= 37 then
      Rejected(Reserved(OctalFlash))
    else
      Ok((if g == 19 || g == 20 then [UsbJtag] else [])
         + (if g == 43 || g == 44 then [Uart0] else [])
         + (if g == 0 || g == 3 || g == 45 || g == 46 then [Strapping] else []))
  }

  /** ESP32-C3 rules: SPI flash pins are prohibited; USB-JTAG and strapping pins
      are flagged. */
  function Esp32C3Rules(g: int): Outcome {
    if 12 <= g <= 17 then
      Rejected(Reserved(SpiFlash))
    else
      Ok((if g == 18 || g == 19 then [UsbJtag] else [])
         + (if g == 2 || g == 8 || g == 9 then [Strapping] else []))
  }

  /** GpioValidator::validate: the generic checks in order, then the chip's own
      rules. The first rejection decides the outcome. */
  function Validate(chip: ChipModel, soc: Soc, gpio: int, mode: Mode): (r: Outcome)
    // Range check: rejects exactly the pins outside [0, pinCount).
    ensures r == Rejected(OutOfRange) <==> !InRange(soc, gpio)
    // Existence check: rejects exactly the in-range pins the platform does not know.
    ensures r == Rejected(NotAGpio) <==> InRange(soc, gpio) && !soc.isValidGpio(gpio)
    // Output check: only an OUTPUT request can fail it, and only on a pin that
    // passed the first two checks.
    ensures r == Rejected(NotOutputCapable) <==>
              InRange(soc, gpio) && soc.isValidGpio(gpio)
              && mode == Output && !soc.isValidOutputGpio(gpio)
    // Chip rules run only after every generic check has passed.
    ensures r.Rejected? && r.reason.Reserved? ==> PassesGenericChecks(soc, gpio, mode)
    ensures r.Ok? ==> PassesGenericChecks(soc, gpio, mode)
    // Unknown chips: accepted exactly when the generic checks pass, with only the
    // "unhandled chip" warning.
    ensures chip == Other ==>
              (r.Ok? <==> PassesGenericChecks(soc, gpio, mode))
              && (r.Ok? ==> r.advisories == [UnhandledChip])
  {
    if gpio < 0 || gpio >= soc.pinCount then
      Rejected(OutOfRange)
    else if !soc.isValidGpio(gpio) then
      Rejected(NotAGpio)
    else if mode == Output && !soc.isValidOutputGpio(gpio) then
      Rejected(NotOutputCapable)
    else
      match chip
      case Esp32 => Esp32Rules(gpio, mode)
      case Esp32S3 => Esp32S3Rules(gpio)
      case Esp32C3 => Esp32C3Rules(gpio)
      case Other => Ok([UnhandledChip])
  }

  /** The status code `validate` returns: ESP_OK for a usable pin, with or
      without warnings, and ESP_ERR_INVALID_ARG for every rejection. */
  function ValidateStatus(chip: ChipModel, soc: Soc, gpio: int, mode: Mode): (e: EspErr)
    // Every generic rejection surfaces as ESP_ERR_INVALID_ARG.
    ensures !PassesGenericChecks(soc, gpio, mode) ==> e == EspErrInvalidArg
    // On an unknown chip the status is ESP_OK exactly when the generic checks pass.
    ensures chip == Other ==> (e == EspOk <==> PassesGenericChecks(soc, gpio, mode))
  {
    match Validate(chip, soc, gpio, mode)
    case Ok(_) => EspOk
    case Rejected(_) => EspErrInvalidArg
  }
}
