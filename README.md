# capteur-serre, modelled in Dafny

capteur-serre is firmware and software for a wireless greenhouse sensor network. A
sensor node ("broadcaster", Zephyr on an nRF board) reads the following at a regular interval:

- air temperature and humidity, from an AHT20 on I2C;
- luminosity, from a PT19 on the ADC;
- ground temperature, from an NTC thermistor;
- ground humidity, from a capacitive probe;
- the battery voltage.

The node advertises the readings as BLE service data under the 16-bit UUID `ab cd`. Each
reading is a (tag, whole part, hundredths) byte triple, behind a 0 marker and a wrapping
counter.

A second nRF board ("central-nrf") scans passively. It prints every named advertisement that
carries 16-bit service data as one console line, `{name,address,hh-hh-...}`.

A Python receiver ("serreiot") works on the other end of the serial link:

1. A reading thread reads, cleans and validates the lines.
2. A parsing thread turns each line into a `Device`. It drops a device whose counter has not
   moved, and hands the rest to the cloud side.
3. The cloud side decodes the triples into six readings and publishes them, with the counter,
   to a document of the cloud service.

The model covers the following:

- The sensor drivers of `sensors-reader`. Their hardware calls are seen as a trace of events,
  and each driver's answers are an input.
- The broadcaster's BLE encoder and its main loop.
- The central's hex formatter, AD callbacks and scan filter.
- The receiver's `Device` parser, its reader threads (one method per thread turn) and its
  cloud publisher.
- The `mapRange` helpers of the three firmware trees.

A final module proves the path from advertisement to cloud document: for a node whose name fits
the legacy advertisement (1 or 2 bytes) and whose name and address are printable text without
comma, brace or the prompt strings the reader deletes, a reading advertised by the broadcaster
reaches the published document within one hundredth (`RoundTrip.EndToEnd`).

Modelling conventions:

- C floating point is modelled with `real`.
- `uint8_t` and `uint32_t` conversions are written out (`CTypes`).
- Bytes the firmware handles bit by bit are `bv8`, and the AHT20's 20-bit fields are `bv32`.
- A C result that is infinite or NaN is a `Float` value `NonFinite`.
- The natural logarithm the NTC conversion uses is a parameter.

Each `RET_IF_ERR` chain is a sequence of events with return codes (`Hal`):

- In `sensors-reader`, the macro returns at the first failure.
- In the broadcaster and in central-nrf, the macro of the same name only logs the error, and
  execution carries on.

## Model

| member | source | states |
|---|---|---|
| CTypes.ToUint8 | Sensors/sensors-reader/src/drivers/aht20.c:20 | storing an int in a `uint8_t` keeps it modulo 256 and leaves bytes unchanged |
| CTypes.ToUint32 | Sensors/sensors-reader/src/drivers/adc.c:214-216 | storing an int in a `uint32_t` gives a value in 0..2^32-1 congruent to it, and keeps values already in range |
| CTypes.Trunc | BLE/broadcaster/src/utils.c:48-53 | a C float-to-int cast truncates towards zero: the result is within one of the value, on the side of zero |
| Hal.FirstFailure | Sensors/sensors-reader/src/utils.h:18-25 | the chain stops at the first call with a nonzero code; every call before it succeeded |
| Hal.StatusZeroIffAllSucceed | Sensors/sensors-reader/src/utils.h:18-25 | a chain returns 0 exactly when every call succeeds, and then all calls were made |
| Hal.ExecutedStopsAt | Sensors/sensors-reader/src/utils.h:18-25 | when call k is the first to fail, the calls up to k are made and the chain returns call k's code |
| Hal.ExecutedAll | Sensors/sensors-reader/src/utils.h:18-25 | when no call fails, all are made and the chain returns 0 |
| Hal.FirstFailureAppend | Sensors/sensors-reader/src/utils.h:18-25 | the first failure of two chains in a row is in the first chain, or else in the second |
| Hal.ExecutedAppend | Sensors/sensors-reader/src/utils.h:18-25 | a failing first chain hides the second one; a succeeding first chain passes on to the second one |
| Hal.ChainStep | Sensors/sensors-reader/src/utils.h:18-25 | the previous property, stated for a trace that is extended one chain at a time |
| Hal.LevelOfAppend | Sensors/sensors-reader/src/drivers/adc.c:93-101 | a power pin's level is the last one set, looking in the later events first |
| Hal.GatedReadPowerGating | Sensors/sensors-reader/src/drivers/adc.c:93-101 | a gated read takes a sample only after powering its sensor and waiting the settle time, and a complete read leaves the sensor unpowered |
| Hal.LevelOfNoSet | Sensors/sensors-reader/src/drivers/adc.c:93-101 | with no event that sets a pin, its level is unknown |
| Hal.GatedInitPowersDown | Sensors/sensors-reader/src/drivers/pt19.c:30-52 | a successful gated init found the ADC and the GPIO ready and leaves the sensor unpowered |
| Hal.Volts | Sensors/sensors-reader/src/drivers/adc.c:214-216 | millivolts in the uint32_t range divided by 1000 give volts |
| Hal.VoltsOfNegative | Sensors/sensors-reader/src/drivers/adc.c:214-216 | a conversion result of -1 mV is read back through the uint32_t cast as 4294967.295 V |
| ReaderUtils.MapRange | Sensors/sensors-reader/src/utils.c:22-24 | the unclamped affine map of mapRange; its properties are the lemmas below (endpoints, no clamping, monotonicity, identity) |
| ReaderUtils.MapRangeEndpoints | Sensors/sensors-reader/src/utils.c:22-24 | the ends of the input range map to the ends of the output range |
| ReaderUtils.MapRangeDoesNotClamp | Sensors/sensors-reader/src/utils.c:22-24 | this mapRange extrapolates: 110 on 0..100 gives 110, where the broadcaster's gives 100 |
| ReaderUtils.MapRangeStrictlyIncreasing | Sensors/sensors-reader/src/utils.c:22-24 | for increasing ranges the map is strictly increasing |
| ReaderUtils.MapRangeStrictlyDecreasing | Sensors/sensors-reader/src/utils.c:22-24 | when the output range is reversed, the map is strictly decreasing |
| ReaderUtils.MapRangeIdentity | Sensors/sensors-reader/src/utils.c:22-24 | mapping a range onto itself is the identity |
| ReaderUtils.TenBitToPercent | Sensors/sensors-reader/src/utils.c:22-24 | a 10-bit sample maps into 0..100 % |
| ReaderUtils.ClampedVariantClampsThis | BLE/broadcaster/src/utils.c:23-25 | the broadcaster's mapRange is this mapRange clamped to the output range |
| LightSensor.SameMapReordered | Sensors/light_sensor/src/main.c:27-29 | the light sensor's mapRange is the sensors-reader one, with the value passed last |
| LightSensor.MapRange | Sensors/light_sensor/src/main.c:27-29 | the light sensor's mapRange, with the value last; SameMapReordered and the lemmas below state what it computes |
| LightSensor.MapRangeEndpoints | Sensors/light_sensor/src/main.c:27-29 | the ends of the input range map to the ends of the output range |
| LightSensor.MapRangeDoesNotClamp | Sensors/light_sensor/src/main.c:27-29 | values beyond the input range map beyond the output range |
| LightSensor.MainCallScale | Sensors/light_sensor/src/main.c:65 | the main loop's call turns 0 into 0 % and 1023 into 100 % |
| BroadcasterUtils.FMin | BLE/broadcaster/src/utils.c:23-25 | fminf of anything but -inf is a number no larger than its bound; NaN and +inf give the bound |
| BroadcasterUtils.FMax | BLE/broadcaster/src/utils.c:23-25 | fmaxf of a number or of -inf is at least its bound |
| BroadcasterUtils.MapRange | BLE/broadcaster/src/utils.c:23-25 | the clamped mapRange is never below outMin, and never above outMax for an increasing output range |
| BroadcasterUtils.MapRangeIsClampedAffine | BLE/broadcaster/src/utils.c:23-25 | for a proper input range, the result is the affine map clamped to the output range |
| BroadcasterUtils.MapRangeInsideRange | BLE/broadcaster/src/utils.c:23-25 | inside the input range the clamp does not bite |
| BroadcasterUtils.MapRangeEndpoints | BLE/broadcaster/src/utils.c:23-25 | the ends of the input range map to the ends of the output range |
| BroadcasterUtils.MapRangeClampsExample | BLE/broadcaster/src/utils.c:23-25 | 110 and -10 on 0..100 are clamped to 100 and 0 |
| BroadcasterUtils.MapRangeMonotone | BLE/broadcaster/src/utils.c:23-25 | the clamped map is monotone |
| BroadcasterUtils.MapRangeIdentityIdempotent | BLE/broadcaster/src/utils.c:23-25 | clamping a range onto itself is idempotent |
| BroadcasterUtils.EvaluatePolynomial | BLE/broadcaster/src/utils.c:35-37 | the quadratic is its constant coefficient at x = 0, where humidity.c:84-85 evaluates its two curves; BLE/broadcaster/utils.c:35-37 holds the same function |
| BroadcasterUtils.EvaluatePolynomialHorner | BLE/broadcaster/utils.c:35-37 | evaluate_polynomial is c0 + c1 x + c2 x^2, equal to its Horner form c0 + x (c1 + x c2), and c0 at 0 |
| BroadcasterUtils.FloatSeparator | BLE/broadcaster/src/utils.c:48-53 | floatSeparator always returns 0 |
| BroadcasterUtils.FloatSeparatorInRange | BLE/broadcaster/src/utils.c:48-53 | for values in 0..255.99.., the whole part is the floor and the hundredths are 0..99, both truncated |
| BroadcasterUtils.FloatSeparatorApproximates | BLE/broadcaster/src/utils.c:48-53 | for values in range, whole + hundredths / 100 is within one hundredth below the value |
| BroadcasterUtils.FloatSeparatorExamples | BLE/broadcaster/src/utils.c:48-53 | 23.47 splits into 23 and 47; 0 splits into 0 and 0 |
| BroadcasterUtils.FloatSeparatorNegativeWraps | BLE/broadcaster/src/utils.c:48-53 | a negative value such as -1.5 wraps through uint8_t, to 255 and 206 |
| Pt19.Intensity | Sensors/sensors-reader/src/drivers/pt19.c:77 | the intensity of a sample; Pt19.IntensityScale states its range and endpoints |
| Pt19.IntensityScale | Sensors/sensors-reader/src/drivers/pt19.c:77 | a 10-bit sample reads as 0..100 %, with 0 giving 0 and 1023 giving 100 |
| Pt19.Pt19Driver.constructor | Sensors/sensors-reader/src/drivers/pt19.c:30-52 | the driver starts uninitialized, with an empty sample and trace |
| Pt19.Pt19Driver.Init | Sensors/sensors-reader/src/drivers/pt19.c:30-52 | a repeat call returns 0 and does nothing; otherwise the five calls run to the first failure, and only a complete chain marks the driver initialized |
| Pt19.Pt19Driver.Read | Sensors/sensors-reader/src/drivers/pt19.c:60-84 | returns 1 before init; otherwise the gated chain runs to the first failure, and only a complete chain writes the intensity |
| NtcThermistor.GetTempC | Sensors/sensors-reader/src/drivers/ntcThermistor.c:63-68 | a 0 sample gives -273.15 through an infinite resistance; a negative resistance gives NaN; a positive one follows the Steinhart-Hart law |
| NtcThermistor.ResistanceSign | Sensors/sensors-reader/src/drivers/ntcThermistor.c:63-68 | the divider resistance is positive exactly for samples 1..1022, and zero at 1023 |
| NtcThermistor.ResistanceDecreasing | Sensors/sensors-reader/src/drivers/ntcThermistor.c:63-68 | the resistance falls as the sample rises |
| NtcThermistor.SteinhartHartIncreasing | Sensors/sensors-reader/src/drivers/ntcThermistor.c:63-68 | the Steinhart-Hart denominator rises with ln(R) |
| NtcThermistor.WarmerSampleReadsHigher | Sensors/sensors-reader/src/drivers/ntcThermistor.c:63-68 | with an increasing logarithm, a higher sample in 1..1022 gives a finite, higher temperature |
| NtcThermistor.NtcDriver.constructor | Sensors/sensors-reader/src/drivers/ntcThermistor.c:32-54 | it keeps the resistor and logarithm, and starts uninitialized |
| NtcThermistor.NtcDriver.Init | Sensors/sensors-reader/src/drivers/ntcThermistor.c:32-54 | a repeat call returns 0; otherwise the chain stops at the first failure, and only a complete one initializes the driver |
| NtcThermistor.NtcDriver.Read | Sensors/sensors-reader/src/drivers/ntcThermistor.c:77-104 | returns 1 before init; otherwise the gated chain, and only a complete one gives getTempC of the sample |
| Humidity.CalibratedPercentEndpoints | Sensors/sensors-reader/src/drivers/humidity.c:87 | the dry point reads 0 % and the wet point 100 %; equal points give a non-finite result |
| Humidity.CalibratedPercentDecreasing | Sensors/sensors-reader/src/drivers/humidity.c:87 | when the dry point is above the wet point, a higher sample reads drier |
| Humidity.Humidity | Sensors/sensors-reader/src/drivers/humidity.c:84-87 | the reported humidity of a sample; Humidity.HumidityCalibration states its calibration points |
| Humidity.HumidityCalibration | Sensors/sensors-reader/src/drivers/humidity.c:84-87 | the curves are evaluated at 0 V, so only their constant terms matter |
| Humidity.HumidityDriver.constructor | Sensors/sensors-reader/src/drivers/humidity.c:33-55 | it keeps the curves and starts uninitialized |
| Humidity.HumidityDriver.Init | Sensors/sensors-reader/src/drivers/humidity.c:33-55 | a repeat call returns 0; otherwise only a complete chain initializes the driver |
| Humidity.HumidityDriver.Read | Sensors/sensors-reader/src/drivers/humidity.c:63-94 | returns 1 before init; otherwise the gated chain, and only a complete one gives the calibrated humidity |
| Batterie.Charge | Sensors/sensors-reader/src/drivers/batterie.c:88-97 | the charge level of a voltage; Batterie.ChargeScale and ChargeInRange state its scale |
| Batterie.ChargeScale | Sensors/sensors-reader/src/drivers/batterie.c:88-97 | 2 V is 0 % and 3 V is 100 %; each 10 mV is one percent; 3.3 V reads 130 % and 1.5 V reads -50 % |
| Batterie.ChargeInRange | Sensors/sensors-reader/src/drivers/batterie.c:88-97 | between empty and full, the charge is a percentage that rises with the voltage |
| Batterie.ChargeOfMillivolts | Sensors/sensors-reader/src/drivers/batterie.c:71-73 | a conversion in millivolts gives (mV - 2000) / 10 %, so 2500 mV is 50 % |
| Batterie.BatterieDriver.constructor | Sensors/sensors-reader/src/drivers/batterie.c:32-49 | the driver starts uninitialized |
| Batterie.BatterieDriver.Init | Sensors/sensors-reader/src/drivers/batterie.c:32-49 | a repeat call returns 0; otherwise only a complete chain initializes the driver |
| Batterie.BatterieDriver.Voltage | Sensors/sensors-reader/src/drivers/batterie.c:57-80 | returns 1 before init; otherwise the chain, and only a complete one gives the millivolts divided by 1000 |
| Batterie.BatterieDriver.Read | Sensors/sensors-reader/src/drivers/batterie.c:88-97 | the voltage's code passes through, and on success the charge level |
| Adc.InitPowersDown | Sensors/sensors-reader/src/drivers/adc.c:51-69 | a successful adc_init checked all four ADC handles and leaves the three sensors unpowered |
| Adc.GroundHumidityAtZeroVolts | Sensors/sensors-reader/src/drivers/adc.c:109-114 | at 0 V the ground humidity equals the stand-alone humidity driver's |
| Adc.GroundHumidity | Sensors/sensors-reader/src/drivers/adc.c:109-114 | the ground humidity at the battery voltage; Adc.GroundHumidityAtZeroVolts and GroundHumidityCalibration state its calibration |
| Adc.GroundHumidityCalibration | Sensors/sensors-reader/src/drivers/adc.c:109-114 | at the measured voltage, the dry-curve value reads 0 % and the wet-curve value 100 %; curves that meet give a non-finite result |
| Adc.AdcDriver.constructor | Sensors/sensors-reader/src/drivers/adc.c:14-35 | it keeps the calibration, resistor and logarithm, and starts uninitialized |
| Adc.AdcDriver.Init | Sensors/sensors-reader/src/drivers/adc.c:42-76 | a repeat call returns 0; otherwise the fourteen calls run to the first failure, and only a complete chain initializes the driver |
| Adc.AdcDriver.InitBattery | Sensors/sensors-reader/src/drivers/adc.c:51-69 | the battery part of the chain: calls up to the first failure, and its code |
| Adc.AdcDriver.PowerDown | Sensors/sensors-reader/src/drivers/adc.c:51-69 | the three pin-low calls: up to the first failure, and its code |
| Adc.AdcDriver.InitChannel | Sensors/sensors-reader/src/drivers/adc.c:51-69 | one gated channel's three calls: up to the first failure, and its code |
| Adc.AdcDriver.BatteryVoltageRead | Sensors/sensors-reader/src/drivers/adc.c:202-223 | returns -1 before init; otherwise the chain, and only a complete one gives the volts |
| Adc.AdcDriver.GroundHumidityRead | Sensors/sensors-reader/src/drivers/adc.c:84-121 | returns -1 before init; otherwise the gated chain, then the battery voltage, and a humidity only when both succeed |
| Adc.AdcDriver.GroundTemperatureRead | Sensors/sensors-reader/src/drivers/adc.c:129-159 | returns -1 before init; otherwise the gated chain, and only a complete one gives the temperature |
| Adc.AdcDriver.LuminosityRead | Sensors/sensors-reader/src/drivers/adc.c:167-194 | returns -1 before init; otherwise the gated chain, and only a complete one gives the mapped luminosity |
| Crc.Crc8 | Sensors/sensors-reader/src/drivers/aht20.c:136 | crc8 over the frame's first six bytes; the check values and SingleByteErrorDetected below state what it computes and detects |
| Crc.CheckValueDigits | Sensors/sensors-reader/src/drivers/aht20.c:136-140 | crc8 with polynomial 0x31 and initial value 0xff gives the standard check value 0xF7 on "123456789" |
| Crc.CheckValueBeef | Sensors/sensors-reader/src/drivers/aht20.c:136-140 | BE EF gives 0x92 |
| Crc.DigitSteps | Sensors/sensors-reader/src/drivers/aht20.c:136-140 | the running CRC byte by byte over "123456789" |
| Crc.BeefSteps | Sensors/sensors-reader/src/drivers/aht20.c:136-140 | the running CRC byte by byte over BE EF |
| Crc.StepsReach | Sensors/sensors-reader/src/drivers/aht20.c:136-140 | a CRC is the last of its running values |
| Crc.ShiftInjective | Sensors/sensors-reader/src/drivers/aht20.c:136-140 | one bit step loses no information |
| Crc.ShiftsInjective | Sensors/sensors-reader/src/drivers/aht20.c:136-140 | any number of bit steps loses no information |
| Crc.XorInjective | Sensors/sensors-reader/src/drivers/aht20.c:136-140 | xor with a fixed byte is injective |
| Crc.UpdateInjectiveInCrc | Sensors/sensors-reader/src/drivers/aht20.c:136-140 | one byte step is injective in the running CRC |
| Crc.UpdateInjectiveInByte | Sensors/sensors-reader/src/drivers/aht20.c:136-140 | one byte step is injective in the byte |
| Crc.Crc8FromInjective | Sensors/sensors-reader/src/drivers/aht20.c:136-140 | different running CRCs stay different over the same bytes |
| Crc.Crc8FromAppend | Sensors/sensors-reader/src/drivers/aht20.c:136-140 | the CRC of a concatenation continues from the CRC of its first part |
| Crc.SingleByteErrorDetected | Sensors/sensors-reader/src/drivers/aht20.c:136-140 | two equal-length messages that differ in one byte have different CRCs |
| Aht20.FailedIsModulo256 | Sensors/sensors-reader/src/drivers/aht20.c:101-108 | a transfer code is checked after being stored in a uint8_t, so -5 and 1 fail while 0, 256 and -256 pass |
| Aht20.RawFields | Sensors/sensors-reader/src/drivers/aht20.c:122-134 | the shifts and ors assemble the two 20-bit fields of bytes 1..5, split in the middle of byte 3 |
| Aht20.DecodePackRoundTrip | Sensors/sensors-reader/src/drivers/aht20.c:122-134 | decoding the frame a sensor packs gives back both 20-bit readings |
| Aht20.DecodedRanges | Sensors/sensors-reader/src/drivers/aht20.c:122-134 | every frame decodes to a humidity in [0, 100) % and a temperature in [-50, 150) °C |
| Aht20.CorruptedFrameRejected | Sensors/sensors-reader/src/drivers/aht20.c:136-140 | a frame with one corrupted header or data byte fails the CRC check |
| Aht20.InitRet | Sensors/sensors-reader/src/drivers/aht20.c:31-79 | the return code of aht20_init; Aht20.InitOutcomes states when it is 0 and which step each other code names |
| Aht20.InitEvents | Sensors/sensors-reader/src/drivers/aht20.c:31-79 | the transfers of aht20_init; Aht20.InitOutcomes states when the calibration command is among them |
| Aht20.InitOutcomes | Sensors/sensors-reader/src/drivers/aht20.c:31-79 | init returns 0..5; 0 exactly when the bus is ready and every transfer made succeeds; the calibration command is sent only when the stale dataBuff[3] is 0 |
| Aht20.FirstInitCalibrates | Sensors/sensors-reader/src/drivers/aht20.c:63-72 | on the first init after boot the zeroed buffer makes it send the initialize command |
| Aht20.FirstStop | Sensors/sensors-reader/src/drivers/aht20.c:110-120 | the intended polling loop, testing the busy bit, leaves at the first failed read or frame that is not busy |
| Aht20.FirstStopAsWritten | Sensors/sensors-reader/src/drivers/aht20.c:118 | the loop as written leaves at the first failed read or zero byte past the frame |
| Aht20.AsWrittenIgnoresBusyBit | Sensors/sensors-reader/src/drivers/aht20.c:118 | as written, a frame still marked busy is accepted, and a ready frame is polled again |
| Aht20.PollEventsAppend | Sensors/sensors-reader/src/drivers/aht20.c:110-120 | the transfers of the passes compose |
| Aht20.ReadAsWrittenDecodes | Sensors/sensors-reader/src/drivers/aht20.c:110-140 | as written, a read returning 0 or 4 decoded the first successfully read frame with a zero byte past the buffer, whatever its busy bit, and 0 means its CRC matched |
| Aht20.ReadDecodesReadyFrame | Sensors/sensors-reader/src/drivers/aht20.c:110-140 | with the intended loop, a read returning 0 or 4 decoded a frame that was not busy, after skipping only busy ones, and 0 means its CRC matched |
| Aht20.SameStopWhenBeyondMirrorsBusy | Sensors/sensors-reader/src/drivers/aht20.c:110-120 | both loops leave at the same pass when the byte past the buffer is zero exactly for the frames that are not busy |
| Aht20.AsWrittenAgreesWhenBeyondMirrorsBusy | Sensors/sensors-reader/src/drivers/aht20.c:91-150 | under that condition the read as written returns and transfers what the intended read does |
| Aht20.Aht20Driver.constructor | Sensors/sensors-reader/src/drivers/aht20.c:14-22 | the statics are zeroed and the driver is uninitialized |
| Aht20.Aht20Driver.Init | Sensors/sensors-reader/src/drivers/aht20.c:31-79 | the return code and transfers of init; a success initializes the driver; only the status reply writes dataBuff[0] |
| Aht20.Aht20Driver.SendCommand | Sensors/sensors-reader/src/drivers/aht20.c:42-62 | one command in cmdBuff[0], its transfer, and its code as a uint8_t |
| Aht20.Aht20Driver.Read | Sensors/sensors-reader/src/drivers/aht20.c:91-150 | as written: returns 1 before init; a failed trigger returns 2 and leaves dataBuff as it was; otherwise the result of the loop testing `dataBuff[7]`, and on 0 or 4 the decoded readings of the frame that loop stopped at |
| Aht20.Aht20Driver.WriteTrigger | Sensors/sensors-reader/src/drivers/aht20.c:101-108 | the three trigger bytes are written to cmdBuff and sent |
| Aht20.Aht20Driver.Measure | Sensors/sensors-reader/src/drivers/aht20.c:110-140 | the 40 ms wait and the polling loop as written, stopping at FirstStopAsWritten; then a failed read returns 3, a CRC mismatch 4, and a match 0, with the buffer and readings of that pass |
| Aht20.Aht20Driver.PollUntilReady | Sensors/sensors-reader/src/drivers/aht20.c:110-120 | the loop runs up to FirstStopAsWritten, and reports whether that read succeeded; dataBuff holds the last successfully read frame |
| Aht20.Aht20Driver.PollOnce | Sensors/sensors-reader/src/drivers/aht20.c:110-120 | one read pass: the transfer, the frame stored on success, and the 5 ms wait when the byte past the buffer is nonzero; it stops exactly at a failed read or a zero byte there |
| Aht20.Aht20Driver.ReceiveFrame | Sensors/sensors-reader/src/drivers/aht20.c:112 | a successful read leaves the frame in dataBuff |
| Aht20.Aht20Driver.Decode | Sensors/sensors-reader/src/drivers/aht20.c:122-134 | the raw fields of the buffer, and the percent and Celsius values computed from them |
| Ble.Pair | BLE/broadcaster/src/drivers/ble.c:59-69 | a reading's triple is three bytes starting with its tag; for 0 <= v < 256 the whole byte is the floor of v and the hundredths at most 99 |
| Ble.WritePair | BLE/broadcaster/src/drivers/ble.c:59-69 | the triple lands at pos..pos+2, and every other byte is unchanged |
| Ble.AdvFrame | BLE/broadcaster/src/drivers/ble.c:83-98 | the service data after encoding; Ble.AdvFrameLayout states its layout |
| Ble.AdvFrameLayout | BLE/broadcaster/src/drivers/ble.c:83-98 | the frame fills the 22 bytes; its header is the UUID, 0 and the counter mod 256; the six triples sit at their fixed offsets |
| Ble.BleDriver.constructor | BLE/broadcaster/src/drivers/ble.c:14-24 | the statics at boot: zeroed, counter 0, not initialized |
| Ble.BleDriver.Init | BLE/broadcaster/src/drivers/ble.c:31-48 | the three stack calls are only logged; the UUID lands in bytes 0 and 1, and the driver is initialized with 0 |
| Ble.BleDriver.EncodePair | BLE/broadcaster/src/drivers/ble.c:59-69 | it always returns 0 and writes the triple |
| Ble.BleDriver.EncodeAdvData | BLE/broadcaster/src/drivers/ble.c:83-98 | it returns 0, and the buffer becomes the frame of the counter and six readings after its two UUID bytes |
| Ble.BleDriver.Adv | BLE/broadcaster/src/drivers/ble.c:105-138 | returns -1 and changes nothing before init; otherwise it starts, waits and stops a burst carrying the buffer, only logs their codes, increments the counter and returns 0 |
| BroadcasterMain.AfterRead | BLE/broadcaster/src/main.c:32-43 | each field holds what its driver wrote, and keeps its old value when the driver wrote nothing |
| BroadcasterMain.FramesCarryCounter | BLE/broadcaster/src/main.c:69-84 | each pass advertises one 22-byte frame, and frame k carries the counter c0 + k mod 256 |
| BroadcasterMain.RunCallsShape | BLE/broadcaster/src/main.c:69-84 | over n passes, the only extra call is the first warm-up read; the calls depend only on the number of passes, not on any return code or reading |
| BroadcasterMain.WarmUpReadWins | BLE/broadcaster/src/main.c:69-80 | on the first pass what the warm-up re-read writes is what gets sent |
| BroadcasterMain.PrefixStep | BLE/broadcaster/src/main.c:69-84 | adding one pass to the passes run so far extends calls, data and frames by that pass |
| BroadcasterMain.LoopStep | BLE/broadcaster/src/main.c:69-84 | the loop's state after one more pass |
| BroadcasterMain.Application.constructor | BLE/broadcaster/src/main.c:18-27 | the data is zeroed, first_run is set, and the BLE driver is fresh |
| BroadcasterMain.Application.Read | BLE/broadcaster/src/main.c:32-43 | the five reads in order, each attempted whatever the others returned |
| BroadcasterMain.Application.Send | BLE/broadcaster/src/main.c:48-54 | encodes the data into the frame with the current counter, advertises it and increments the counter |
| BroadcasterMain.Application.Pass | BLE/broadcaster/src/main.c:69-84 | one loop pass: the data read, the calls made, and one frame advertised |
| BroadcasterMain.Application.Run | BLE/broadcaster/src/main.c:59-85 | the three inits, then the passes: calls, data, counter and every advertised frame |
| BroadcasterMain.Application.Loop | BLE/broadcaster/src/main.c:69-84 | after n passes, the calls, the data, the counter + n, and the n frames |
| CentralNrf.Chars | BLE/central-nrf/src/main.c:94 | bytes copied into a char buffer keep their values |
| CentralNrf.CString | BLE/central-nrf/src/main.c:75 | a `%s` string is the text before the first NUL |
| CentralNrf.CStringTerminated | BLE/central-nrf/src/main.c:93-95 | a NUL after a NUL-free prefix ends the string there |
| CentralNrf.HexDigit | BLE/central-nrf/src/main.c:51 | a lower-case hexadecimal digit |
| CentralNrf.HexByte | BLE/central-nrf/src/main.c:51 | `%02x` gives two lower-case hexadecimal digits |
| CentralNrf.HexByteParses | BLE/central/serreiot/device.py:28 | int(_, 16) reads `%02x` back to the byte |
| CentralNrf.HexTokens | BLE/central-nrf/src/main.c:50-56 | one two-digit token per byte |
| CentralNrf.Dashed | BLE/central-nrf/src/main.c:50-56 | the loop writes three characters per byte |
| CentralNrf.Hyphenated | BLE/central-nrf/src/main.c:47-60 | the text convertArray is meant to produce; HyphenatedShape and HyphenatedSplits state its shape and that split("-") inverts it |
| CentralNrf.DashedIsHyphenated | BLE/central-nrf/src/main.c:58 | removing the final hyphen leaves the hyphen-joined text |
| CentralNrf.HyphenatedShape | BLE/central-nrf/src/main.c:47-60 | the text has 3n-1 characters, and none is a NUL, a comma or a brace |
| CentralNrf.DashedChars | BLE/central-nrf/src/main.c:50-56 | the loop's output has no NUL, comma or brace |
| CentralNrf.HyphenatedSplits | BLE/central/serreiot/device.py:18 | splitting at hyphens gives the per-byte tokens |
| CentralNrf.SnprintfOut | BLE/central-nrf/src/main.c:51 | snprintf stores min(len, size-1) characters and a NUL, and stores nothing at size 0 |
| CentralNrf.Snprintf | BLE/central-nrf/src/main.c:51 | it returns the full length and writes only its stored output |
| CentralNrf.FailStep | BLE/central-nrf/src/main.c:52-53 | the step at which 3 or fewer characters remain |
| CentralNrf.Truncated | BLE/central-nrf/src/main.c:51-53 | the truncated last group fills the room left |
| CentralNrf.ConvertArray | BLE/central-nrf/src/main.c:47-60 | returns 0 exactly when the buffer has more than 3n characters, and then holds the NUL-terminated hyphen-joined hex; otherwise returns 1 with the groups that fit |
| CentralNrf.Terminate | BLE/central-nrf/src/main.c:58 | the last hyphen becomes a NUL |
| CentralNrf.WriteGroup | BLE/central-nrf/src/main.c:51 | one loop step's snprintf writes "hh-" |
| CentralNrf.Terminated | BLE/central-nrf/src/main.c:58 | after the overwrite, the buffer holds the hyphen-joined text and two NULs |
| CentralNrf.StepFailed | BLE/central-nrf/src/main.c:52-53 | the failing step leaves the whole groups and the truncated one |
| CentralNrf.StepWritten | BLE/central-nrf/src/main.c:50-56 | a successful step adds one group and a NUL |
| CentralNrf.FirstOfType | BLE/central-nrf/src/main.c:146-150 | the first field of the wanted types, with all earlier fields of other types |
| CentralNrf.DataCbName | BLE/central-nrf/src/main.c:85-100 | it copies a name field and stops, and passes over any other field |
| CentralNrf.ParseName | BLE/central-nrf/src/main.c:146 | the first name field is copied; with none, the buffer is unchanged |
| CentralNrf.ServiceData.constructor | BLE/central-nrf/src/main.c:137-140 | length 0, and all bytes 0 |
| CentralNrf.DataCbService | BLE/central-nrf/src/main.c:109-121 | it copies 16-bit service data, truncated to 29 bytes, and stops; it passes over any other field |
| CentralNrf.ParseService | BLE/central-nrf/src/main.c:150 | the first service-data field is copied; with none, nothing changes |
| CentralNrf.ConsoleLine | BLE/central-nrf/src/main.c:70-76 | the printed line has 3n + 4 characters besides the name and address, opens with a brace and ends with a brace and a newline |
| CentralNrf.SendValue | BLE/central-nrf/src/main.c:70-76 | prints "{name,addr,hex}" and a newline, the conversion always fitting |
| CentralNrf.ScanLine | BLE/central-nrf/src/main.c:131-158 | scan_recv prints only when the advertisement has a name field and a 16-bit service-data field, and then a braced line ending in a newline |
| CentralNrf.ScanRecv | BLE/central-nrf/src/main.c:131-158 | prints only when there is a non-empty name and service data, and then prints that line |
| CentralNrf.NameBuffer | BLE/central-nrf/src/main.c:142-148 | the name buffer's first byte is NUL exactly when there is no name |
| CentralNrf.ServiceBuffer | BLE/central-nrf/src/main.c:150-152 | a positive length means a service field was found and copied |
| PyStr.Split | BLE/central/serreiot/device.py:14 | str.split gives at least one piece, and no piece holds the separator |
| PyStr.JoinSnoc | BLE/central/serreiot/device.py:14 | joining one more part appends the separator and that part |
| PyStr.CountConcat | BLE/central/serreiot/reader.py:96-100 | counts add over concatenation |
| PyStr.CountAbsent | BLE/central/serreiot/reader.py:96-100 | a count is zero exactly when the character is absent |
| PyStr.SplitJoin | BLE/central/serreiot/device.py:14 | splitting joined separator-free parts gives the parts back |
| PyStr.SplitNoSeparator | BLE/central/serreiot/device.py:14 | a string without the separator is its own only piece |
| PyStr.SplitPrefix | BLE/central/serreiot/device.py:14 | a separator-free prefix becomes the first piece |
| PyStr.JoinSplit | BLE/central/serreiot/device.py:14 | joining the pieces of a split gives the string back |
| PyStr.SplitCount | BLE/central/serreiot/reader.py:100 | a split has one more piece than there are separators |
| PyStr.LStrip | BLE/central/serreiot/device.py:13 | the result is a suffix of the input, and does not start with a stripped character |
| PyStr.RStrip | BLE/central/serreiot/reader.py:30 | the result is a prefix of the input, and does not end with a stripped character |
| PyStr.StripKeeps | BLE/central/serreiot/device.py:13 | a string whose ends are kept is unchanged |
| PyStr.StripUnwraps | BLE/central/serreiot/device.py:13 | stripping one bracket from each end unwraps the text inside |
| PyStr.RStripSuffix | BLE/central/serreiot/reader.py:30 | trailing stripped characters are removed back to the last kept one |
| SerreDevice.ParseAll | BLE/central/serreiot/device.py:28 | every token is read as hexadecimal, or one token fails with ValueError |
| SerreDevice.FromLine | BLE/central/serreiot/device.py:6-33 | Device.__init__ on a line, or the exception it raises; SerreDevice.ParsedDevice, IdSetIff and FromServiceFields state its properties |
| SerreDevice.ParsedDevice | BLE/central/serreiot/device.py:6-33 | a parsed device has a non-empty name ending in its index and comma-free fields; its id is -1, or the byte after the 0 marker |
| SerreDevice.IdSetIff | BLE/central/serreiot/device.py:24-33 | the id is set exactly when the data is ab-cd followed by hexadecimal tokens starting 0 and having a successor |
| SerreDevice.FromServiceFields | BLE/central/serreiot/device.py:6-33 | a line of ab-cd, 0 and a byte gives a device with those values and that byte as id |
| SerreDevice.GetDataQueue | BLE/central/serreiot/device.py:60-71 | the values after the marker and the id, in order; nothing for a list of two or fewer |
| SerreDevice.EqAsWritten | BLE/central/serreiot/device.py:74-79 | `__eq__` as written; SerreDevice.EqAsWrittenNeverHolds states that it never holds |
| SerreDevice.EqAsWrittenNeverHolds | BLE/central/serreiot/device.py:74-79 | as written, `__eq__` is always False, even for a device compared with itself |
| SerreDevice.Eq | BLE/central/serreiot/device.py:74-79 | only a Device can be equal |
| SerreDevice.EqIsEquivalence | BLE/central/serreiot/device.py:74-79 | the intended `__eq__` is an equivalence that compares address and name only |
| SerreReader.CountFramed | BLE/central/serreiot/reader.py:96-100 | the count of a character in a framed line comes from its parts |
| SerreReader.CountPlain | BLE/central/serreiot/reader.py:96-100 | a plain field holds no brace and no comma |
| SerreReader.ValidationError | BLE/central/serreiot/reader.py:90-104 | each logged message is "[Error] ", its reason and the line itself; ValidWhenFramed and FramedWhenValid state exactly which lines pass |
| SerreReader.ValidWhenFramed | BLE/central/serreiot/reader.py:90-104 | every "{name,addr,data}" of plain fields passes validation |
| SerreReader.FramedWhenValid | BLE/central/serreiot/reader.py:90-104 | every line that passes validation is such a line |
| SerreReader.FramedParts | BLE/central/serreiot/reader.py:90-104 | the three plain pieces rebuild the line |
| SerreReader.ValidInner | BLE/central/serreiot/reader.py:90-104 | between the braces of a valid line there are two commas and no brace |
| SerreReader.BracesInPieces | BLE/central/serreiot/reader.py:90-104 | the pieces of a split hold no character the whole lacks |
| SerreReader.AcceptsIff | BLE/central/serreiot/reader.py:81 | an id is rejected exactly when it is from stored-5 to stored |
| SerreReader.NextCounterAccepted | BLE/central/serreiot/reader.py:81 | the next counter value mod 256 is always accepted, including the wrap from 255 to 0 |
| SerreReader.LastFrom | BLE/central/serreiot/reader.py:74-85 | the last forwarded device for an address, or none was forwarded |
| SerreReader.Step | BLE/central/serreiot/reader.py:63-88 | a parser turn forwards at most one device, only a parsed one with an id, appended after the earlier ones and stored under its address; the table changes only when it forwards; an exception and only an exception stops the thread |
| SerreReader.StepConsistent | BLE/central/serreiot/reader.py:56-88 | the stored devices stay the last forwarded per address |
| SerreReader.ForwardConsistent | BLE/central/serreiot/reader.py:74-85 | forwarding and storing a device keeps that invariant |
| SerreReader.RepeatedLineForwardedOnce | BLE/central/serreiot/reader.py:81-85 | the same line taken twice in a row is forwarded at most once |
| SerreReader.QueuedLinesAreFramed | BLE/central/serreiot/reader.py:36-53 | a queued line is braced and has three comma fields |
| SerreReader.Reader.constructor | BLE/central/serreiot/reader.py:10-22 | an empty buffer and table, with the invariant in force |
| SerreReader.Reader.Read | BLE/central/serreiot/reader.py:24-53 | the line is queued exactly when it is valid, and the log it causes is sent |
| SerreReader.Reader.ParseNext | BLE/central/serreiot/reader.py:56-88 | one parser turn: the oldest line goes through Step, and an exception ends the thread |
| SerreReader.Abs | BLE/central/serreiot/reader.py:81 | the absolute value |
| SerreMain.Decoded | BLE/central/serreiot/main.py:19-25 | decoding keeps every tag of the table |
| SerreMain.DecodedKeeps | BLE/central/serreiot/main.py:19-25 | a tag heading no triple keeps its value |
| SerreMain.DecodedAppend | BLE/central/serreiot/main.py:19-25 | the triples are consumed front to back |
| SerreMain.DecodedIgnoresTail | BLE/central/serreiot/main.py:19-25 | a tail shorter than a triple is ignored |
| SerreMain.Doc | BLE/central/serreiot/main.py:27-36 | the document fields of one device; SerreMain.DocFields states that each carries its own reading |
| SerreMain.DocFields | BLE/central/serreiot/main.py:27-36 | the seven published fields carry their own readings and the id |
| SerreMain.Cloud.constructor | BLE/central/serreiot/main.py:7 | no logs and no updates |
| SerreMain.Cloud.UpdateDoc | BLE/central/serreiot/main.py:27-36 | an update is recorded in order |
| SerreMain.Cloud.SendLogs | BLE/central/serreiot/main.py:38-49 | the dated message is appended, and the log document is sent whole |
| SerreMain.SendData | BLE/central/serreiot/main.py:9-36 | publishes the decoded readings from the defaults, and the id, under the device's index |
| RoundTrip.ScannedLine | BLE/central-nrf/src/main.c:131-158 | the broadcaster's advertisement makes the central print exactly its name, address and hex |
| RoundTrip.ReceivedLine | BLE/central/serreiot/reader.py:30-53 | for printable name and address without comma, brace or prompt text, the right-stripped console line is "{name,addr,hex}", and it is queued |
| RoundTrip.ParseAllHex | BLE/central/serreiot/device.py:28 | int(_, 16) reads the tokens back into the bytes |
| RoundTrip.BracesStripped | BLE/central/serreiot/device.py:13 | stripping the braces leaves the three fields |
| RoundTrip.CommasSplit | BLE/central/serreiot/device.py:14 | the three comma-free fields split back |
| RoundTrip.FieldsOfText | BLE/central/serreiot/device.py:13-18 | a braced line of three plain fields gives those fields |
| RoundTrip.FieldsOfLine | BLE/central/serreiot/device.py:13-18 | a queued line gives the name, the address and the hex text |
| RoundTrip.ParsedLine | BLE/central/serreiot/device.py:6-33 | the greenhouse service data parses into the device with its values and its counter as id |
| RoundTrip.OtherServiceIgnored | BLE/central/serreiot/device.py:24-25 | service data not starting with ab cd gives a device without an id |
| RoundTrip.DecodedPair | BLE/central/serreiot/main.py:19-25 | one triple sets its tag's reading to whole + hundredths / 100 |
| RoundTrip.DecodedReadings | BLE/central/serreiot/main.py:19-25 | the six triples of a frame fill the six readings |
| RoundTrip.ReadingsPublished | BLE/central/serreiot/main.py:9-36 | each reading in [0, 256) is published within one hundredth below its value |
| RoundTrip.EndToEnd | BLE/broadcaster/src/drivers/ble.c:83-98 | for a 1- or 2-byte printable name and a printable address, without comma, brace or prompt text, a frame advertised by the broadcaster is printed, received, parsed with its counter as id, and published, each reading within one hundredth |

## Left out

- The hardware (ADC, I2C, GPIO, the Bluetooth stack) is not modelled. Each call's answer is an input, and a ghost trace records the calls.
- `k_sleep` and `k_msleep` become events in the trace, with their durations. Time itself is not modelled.
- Only the outcomes of logging calls are modelled, not their text: firmware `LOG_*` message text, `printk` beyond the console line, and Python `print`.
- Floating point is real arithmetic. Rounding of `float` operations is not modelled, and the sensors-reader `Float` collapses NaN and infinity into one non-finite value. The broadcaster's clamped `mapRange` keeps +inf, -inf and NaN apart (`BroadcasterUtils.Extended`), because `fminf` and `fmaxf` treat them differently.
- The natural logarithm of the NTC conversion is a parameter, with only its monotonicity assumed where a lemma needs it.
- The AHT20 polling loop runs over a finite script of poll answers in which the loop as written eventually stops. A sensor that stays busy forever makes the C loop spin; the model does not cover that.
- The broadcaster's endless loop runs over a finite script of passes.
- BLE/broadcaster/src/main.c:50 calls `ble_encode_adv_data(&sensors_data)` with one argument, while ble.c takes six floats. The model passes the six fields of `sensors_data` by name.
- Adc.AdcDriver.GroundHumidityRead: leaves out the integer store at adc.c:113, which line 114 overwrites with the `mapRange` result. Its only possible effect is the integer division by zero, undefined behaviour in C, when `dry_value[0] == wet_value[0]`; the model does not capture it.
- Ble.BleDriver.Adv: the counter is an unbounded integer, while in C it is an `int` whose `++` overflows, undefined behaviour, after 2^31 - 1 advertisements. Only its low byte reaches the frame.
- The AHT20 model takes the byte past `dataBuff` as an arbitrary input of each poll. What the compiler places there (perhaps the static `ret`) is not modelled.
- sensors-reader's batterie.c:75 logs an undeclared `volts`. The log line is left out.
- The central's `main` is not modelled (`bt_enable`, scan registration, the scan parameters), and neither are the `LOG_INF` lines.
- `bt_addr_to_str` is not modelled: the address is given already printed.
- `bt_data_parse` is modelled from the AD fields, already delimited. The length-prefixed decoding of the raw buffer is left out.
- `send_value`'s stack buffer is uninitialized in C. The model starts it zeroed, which the terminated output does not depend on.
- CentralNrf.ConvertArray: requires a length of at least 1, because with 0 the C code writes `result[-1]`. `scan_recv` never calls it with 0.
- RoundTrip.EndToEnd: takes the stack to send ad[] whole, and the reader's line to be the right-stripped console line. Its requires (a name of at most 2 bytes, so that the 31-byte legacy advertisement holds it; printable ASCII; no `uart:~$ ` and no `^[[1;32mua`) are the conditions under which that is so, but `readline`, UTF-8 decoding and `clean_str` themselves are not modelled.
- RoundTrip.ReceivedLine: the same reading of the serial line, whose requires exclude the text readline, decoding or clean_str would change.
- `clean_str` is not modelled, because it uses regular expressions: the reader's methods take the line after cleaning.
- UTF-8 decoding is not modelled, nor its `UnicodeDecodeError` path with the replacement characters and the extra log.
- PyStr.ParseHex: accepts only plain hexadecimal digits. `int(s, 16)` also accepts a sign, surrounding whitespace, a `0x` prefix and underscores.
- The serial port, the two threads, `sleep` and the `Queue` locking are not modelled. Each thread turn is one method on the shared state, in an order the caller chooses.
- The cloud service (`aliot`) is not modelled. `get_doc('/doc/logs')` gives the log entries the `Cloud` object holds, and the date is a parameter.
- SerreMain.SendData: requires a device whose data was read as integers. `send_data` is only given devices with an id, and their data has always been converted.
- The light sensor's own main loop I/O is not modelled, apart from its `mapRange` call.

## Findings

| source | as written | input that shows it | evidently intended | confidence | as-written member | corrected member |
|---|---|---|---|---|---|---|
| Sensors/sensors-reader/src/drivers/aht20.c:118 | the polling loop tests whether `dataBuff[7]`, one byte past the 7-byte buffer, is nonzero | a frame with status 0x98 (busy) and a zero byte after the buffer is decoded; a ready frame with status 0x18 and a nonzero byte after it is polled again | test the busy bit of the status byte, `dataBuff[0] & 0x80` | medium, not executed | Aht20.AsWrittenIgnoresBusyBit | Aht20.ReadDecodesReadyFrame |
| BLE/central/serreiot/device.py:76 | `isinstance(object, Device)` tests the builtin class `object`, so `__eq__` is always False | any device compared with itself | `isinstance(other, Device)` and compare address and name | high, not executed | SerreDevice.EqAsWrittenNeverHolds | SerreDevice.EqIsEquivalence |
