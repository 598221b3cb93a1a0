# GpioValidator — a Dafny model

This project models `GpioValidator::validate` from the `gpio_validator` ESP-IDF
component. The function decides whether a GPIO number is safe to use as an input
or an output on the running chip. It returns `ESP_OK` or `ESP_ERR_INVALID_ARG`
and logs warnings on the way.

Its checks run in a fixed order and the first rejection wins:

1. the pin must lie in `[0, SOC_GPIO_PIN_COUNT)`;
2. the platform's `GPIO_IS_VALID_GPIO` must accept it;
3. for `OUTPUT`, the platform's `GPIO_IS_VALID_OUTPUT_GPIO` must accept it;
4. then the chip model selects the chip's own rules: reserved flash/PSRAM pins are
   rejected, caution pins (UART0, JTAG, USB-JTAG, strapping) are accepted with a
   warning, and on the ESP32 the pins 34-39 used as inputs are accepted with a
   "no pull-up/pull-down" warning. An unknown chip gets only the generic checks.

The model is pure, like the source:

- `gpio_validator.dfy` (module `GpioValidator`): the data model and `Validate`,
  written as the same chain of checks and one rule function per `switch` case.
  `Validate` returns an `Outcome`. It is either `Ok(advisories)`, with the
  warnings in the order they are logged, or `Rejected(reason)`.
  `ValidateStatus` maps the outcome to the two status codes.
- `pin_tables.dfy` (module `PinTables`): the same rules as data. Each chip has
  a table of reserved rows and a table of caution rows. `Reference` is the
  decision built from these tables: list every failing check in order, let the
  first one decide, and otherwise attach every caution that applies.
  `ValidateMatchesTables` proves that `Validate` equals `Reference` for every
  chip, platform, pin and mode.
- `gpio_validator_properties.dfy` (module `GpioValidatorProperties`): the
  properties callers rely on, proved from the two definitions. These include the
  check order, reservation dominance, caution pins never being rejected, the
  ESP32 input-only pins, the unknown-chip fallback, and the outcomes the
  component's unit tests expect.

The platform pieces are inputs:

- the chip model, which the source reads with `esp_chip_info`, is the `ChipModel`
  parameter (`Esp32 | Esp32S3 | Esp32C3 | Other`);
- `SOC_GPIO_PIN_COUNT`, `GPIO_IS_VALID_GPIO` and `GPIO_IS_VALID_OUTPUT_GPIO`
  are the three fields of the `Soc` parameter. The model never assumes what they
  contain.

Points of the code's behaviour that the model keeps as written:

- The ESP32 no-pull early return (gpio_validator.cpp:60-63) comes after the
  caution checks (48-59), so their warnings are already in the result
  (`Esp32NoPullComesLast`). No caution pin lies in 34-39.
- The code never tests pins 34-39 for outputs. An ESP32 output on those pins is
  rejected exactly when `GPIO_IS_VALID_OUTPUT_GPIO` refuses it
  (`Esp32InputOnlyPins`).
- For an unknown chip the code still logs a warning (line 119). The model returns
  it as the `UnhandledChip` advisory.

## Model

| member | source | states |
|---|---|---|
| `GpioValidator.Validate` | gpio_validator/gpio_validator.cpp:10-126 | Out-of-range rejection holds exactly when the pin is outside [0, pin count). Not-a-GPIO rejection holds exactly when the pin is in range but unknown to the platform. Output-incapable rejection holds exactly for an in-range, known pin requested as OUTPUT that the output predicate refuses. Chip rules and acceptance are reached only when all three generic checks pass. On an unknown chip the pin is accepted exactly when the generic checks pass, with only the unhandled-chip warning. |
| `GpioValidator.ValidateStatus` | gpio_validator/gpio_validator.cpp:16-125 | The `esp_err_t` that `validate` returns. Every generic rejection gives ESP_ERR_INVALID_ARG, and on an unknown chip ESP_OK comes exactly when the generic checks pass. Its full meaning, ESP_OK exactly on an unreserved pin that passes the generic checks, is stated by `StatusOkIff`. |
| `PinTables.ValidateMatchesTables` | gpio_validator/gpio_validator.cpp:16-125 | For every chip, platform, pin and mode, the if-chain gives the outcome of the table-driven reference: the first failing check, in check order, decides; otherwise the result lists every applicable caution, then the no-pull warning, then the unhandled-chip warning. |
| `PinTables.Esp32Tables` | gpio_validator/gpio_validator.cpp:41-59 | The ESP32 reserved table covers exactly 6-11, 16 and 17, as flash/PSRAM. For a pin, its caution table yields UART0 for {1,3}, JTAG for 12-15 and strapping for {0,2,5,12,15}, in that order. |
| `PinTables.Esp32S3Tables` | gpio_validator/gpio_validator.cpp:69-94 | The ESP32-S3 reserved table gives SPI flash for 26-32, octal flash for 33-37 and nothing else. Its caution table yields USB-JTAG for {19,20}, UART0 for {43,44} and strapping for {0,3,45,46}, in that order. |
| `PinTables.Esp32C3Tables` | gpio_validator/gpio_validator.cpp:100-114 | The ESP32-C3 reserved table gives SPI flash for exactly 12-17. Its caution table yields USB-JTAG for {18,19} and strapping for {2,8,9}. |
| `PinTables.TagsMembers` | gpio_validator/gpio_validator.cpp:48-59 | A table lookup returns a category exactly when some row of that category covers the pin. Every matching row contributes, not only the first. |
| `PinTables.TagsEmpty` | gpio_validator/gpio_validator.cpp:42-47 | A table lookup is empty exactly when no row covers the pin. |
| `GpioValidatorProperties.FirstFailureDecides` | gpio_validator/gpio_validator.cpp:16-125 | A pin is accepted exactly when no check fails. A rejection names the first failing check in check order, and that reason is one of the failing checks. |
| `GpioValidatorProperties.OutOfRangeDecides` | gpio_validator/gpio_validator.cpp:16-19 | A pin below 0 or at/above the pin count is rejected as out of range for every chip, every mode and any platform predicates. |
| `GpioValidatorProperties.NotAGpioDecides` | gpio_validator/gpio_validator.cpp:21-24 | An in-range pin the valid-GPIO predicate refuses is rejected as not-a-GPIO for every chip, every mode and any output predicate. |
| `GpioValidatorProperties.NotOutputCapableDecides` | gpio_validator/gpio_validator.cpp:27-30 | A known pin the output predicate refuses is rejected for OUTPUT on every chip. An INPUT request never gets this rejection. |
| `GpioValidatorProperties.AcceptedIff` | gpio_validator/gpio_validator.cpp:38-125 | The result is Ok exactly when the generic checks pass and no reserved row of the chip covers the pin. |
| `GpioValidatorProperties.StatusOkIff` | gpio_validator/include/gpio_validator.hpp:30-38 | The status is ESP_OK exactly when the generic checks pass and the pin is not reserved. Every other case returns ESP_ERR_INVALID_ARG. |
| `GpioValidatorProperties.ReservationDominance` | gpio_validator/gpio_validator.cpp:42-106 | A reserved pin is rejected under both INPUT and OUTPUT, whatever the platform predicates say. |
| `GpioValidatorProperties.ReservedPinsNameTheirBus` | gpio_validator/gpio_validator.cpp:41-106 | Past the generic checks, these pins are rejected and the rejection names the bus: ESP32 6-11, 16, 17 as flash/PSRAM; ESP32-S3 26-32 as SPI flash and 33-37 as octal flash; ESP32-C3 12-17 as SPI flash. |
| `GpioValidatorProperties.AdvisoriesIff` | gpio_validator/gpio_validator.cpp:48-123 | An accepted pin carries an advisory exactly when it applies: a caution row of the chip covers the pin; or it is the no-pull warning for an ESP32 pin 34-39 used as input; or it is the unhandled-chip warning on an unknown chip. |
| `GpioValidatorProperties.CautionPinsAccepted` | gpio_validator/gpio_validator.cpp:48-115 | Past the generic checks, a pin on any caution row is accepted, never rejected, and carries that row's advisory. |
| `GpioValidatorProperties.InputNoStricterThanOutput` | gpio_validator/gpio_validator.cpp:27-63 | A pin accepted for OUTPUT is also accepted for INPUT. The INPUT result has the same advisories, plus the no-pull warning on ESP32 pins 34-39. |
| `GpioValidatorProperties.Esp32CautionOutcomes` | gpio_validator/gpio_validator.cpp:48-59 | Past the generic checks, in both modes, ESP32 pins give these exact results: 1 and 3 give Ok[UART0]; 13 and 14 give Ok[JTAG]; 12 and 15 give Ok[JTAG, strapping]; 0, 2 and 5 give Ok[strapping]. |
| `GpioValidatorProperties.Esp32S3CautionOutcomes` | gpio_validator/gpio_validator.cpp:83-94 | Past the generic checks, in both modes, ESP32-S3 pins give these exact results: 19 and 20 give Ok[USB-JTAG]; 43 and 44 give Ok[UART0]; 0, 3, 45 and 46 give Ok[strapping]. |
| `GpioValidatorProperties.Esp32C3CautionOutcomes` | gpio_validator/gpio_validator.cpp:107-114 | Past the generic checks, in both modes, ESP32-C3 pins give these exact results: 18 and 19 give Ok[USB-JTAG]; 2, 8 and 9 give Ok[strapping]. |
| `GpioValidatorProperties.Esp32InputOnlyPins` | gpio_validator/gpio_validator.cpp:60-63 | A known ESP32 pin 34-39 gives Ok[no-pull] as INPUT. As OUTPUT it is rejected as output-incapable when the output predicate refuses it, and gives Ok[] otherwise. |
| `GpioValidatorProperties.Esp32NoPullComesLast` | gpio_validator/gpio_validator.cpp:48-63 | An accepted ESP32 input carries the caution advisories first, then the no-pull warning when the pin is 34-39. The cautions are logged before the early return. |
| `GpioValidatorProperties.NoPullIff` | gpio_validator/gpio_validator.cpp:60-63 | An accepted pin carries the no-pull warning exactly when it is an ESP32 pin 34-39 requested as INPUT. |
| `GpioValidatorProperties.UnknownChipPermissive` | gpio_validator/gpio_validator.cpp:118-125 | An unknown chip accepts every pin that any known chip accepts, and every rejection on an unknown chip is a generic one that every chip gives identically: no reserved or caution table is consulted. |
| `GpioValidatorProperties.Gpio4Accepted` | gpio_validator/test/main/test_gpio_validator.cpp:49-59 | A GPIO 4 that the platform accepts as an output GPIO is accepted in both modes on every chip, with no advisory on a known chip. |
| `GpioValidatorProperties.EdgeCasesRejected` | gpio_validator/test/main/test_gpio_validator.cpp:110-121 | -1, the pin count itself and 100 (on a platform with at most 100 pins) are rejected as out of range on every chip. |

## Left out

- `esp_chip_info` (the hardware query for the chip model): replaced by the `ChipModel` parameter.
- `SOC_GPIO_PIN_COUNT`, `GPIO_IS_VALID_GPIO`, `GPIO_IS_VALID_OUTPUT_GPIO`: platform definitions outside this component. They are the uninterpreted fields of `Soc`, and the lemmas that depend on their values take them as preconditions.
- `GPIO_NUM_MAX`: its value is platform data. `EdgeCasesRejected` uses the pin count, which is the first number the range check rejects.
- Log text and formatting of `ESP_LOGE`/`ESP_LOGW`: only the category of each rejection and warning is modelled, not the message or the pin number printed.
- The numeric values of `ESP_OK` and `ESP_ERR_INVALID_ARG`: these are defined outside this component, so the model keeps the two codes as constructors of `EspErr`.
- The width of `gpio_num_t`: pins are unbounded integers. Every comparison in the source works the same on them, and the source does no arithmetic on pins.
- The Unity test runner, heap-leak checks and FreeRTOS calls (`test/main/main.c`) and the serial-console test driver (`test/pytest_gpio_validator.py`): I/O and platform plumbing. The expected outcomes of `test/main/test_gpio_validator.cpp` are stated as lemmas instead.
