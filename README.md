# Vallox Digit SE panel and Ouman EH-203 reader, modelled in Dafny

This project models the two serial-bus device drivers of the heikkileivo/vallox repository.

**Vallox Digit SE panel.** This is class `Vallox` in `vallox.py`, with the constants and tables of `src/devices/vallox_protocol.py`. The driver acts as a control panel on the ventilation unit's RS-485 bus, and every frame is six bytes:

`[domain 0x01, sender, receiver, variable, value, checksum]`

The model covers:

- framing of the serial input (`_read_message`) and the additive checksum;
- the decode dispatch (`_decode_message` with `_decode_status`, `_decode_variable08`, `_decode_flags06` and `_decode_program`). It fans status bytes out into flag entries that carry a "last received" time;
- the change-deduplicating store `_check_status_change`;
- CO2 assembly from two half bytes received within 2000 ms of each other;
- the status write guard `status_mutex`;
- the once-only completeness flag `full_init_done`, with its burst of 32 notifications;
- the periodic re-query and retry timers of `loop` and `_retry_loop`;
- the writes of `_set_variable` and `_request_variable`;
- the property setters and the `set_on` / `set_off` / `set_rh_mode_*` / `set_heating_mode_*` / `set_switch_on` actions;
- the conversion statics between bus codes and physical values.

**Ouman EH-203 reader.** This is `src/devices/ouman.py`. The model covers:

- the request builder `__fmt_cmd` and the checksum `__calc_crc`;
- the response reader `__read`. A response is STX, ACK, a length byte, the payload and an 8-bit checksum. The reader checks the echoed command, then decodes a signed big-endian value 1, 2 or 4 bytes wide;
- `MeasurePoint.read` with the binary and flags parsers;
- `read_all`;
- the EH-203 measure-point table.

## How the model is built

The modules are:

- `Bytes`: the 8-bit additive sum that both protocols use.
- `ValloxProtocol`: the constants, the fan-speed table and the 256-entry NTC temperature table.
- `ValloxCodec`: the checksum, the frames the panel writes, `_read_message`'s framer and the conversion statics.
- `ValloxModel`: the panel's state as a value, `State`, and every operation as a function from the state before to the state after.
  - The serial port is the input bytes `rx`, the frames written `tx` and the `portOpen` flag.
  - Calls of the status-changed callback and of `on_property_changed` are recorded in order in `events`.
  - Time is a parameter `now` in milliseconds. The source's `time.monotonic()` seconds are compared against `QUERY_INTERVAL`, `RETRY_INTERVAL` and `CO2_LIFE_TIME_MS / 1000`; the model compares against `QUERY_INTERVAL * 1000`, `RETRY_INTERVAL * 1000` and `CO2_LIFE_TIME_MS`.
  - A Python exception that ends `loop` (see below) is the `raised` flag of an `Outcome`.
- `ValloxProperties` and `ValloxInvariant`: what the operations promise, and the invariant `Inv` that every operation keeps.
- `ValloxDevice`: class `Vallox` as a Dafny class. Its fields are updated in place by one method per source method.
  - `loop` drains the input in a `while` loop.
  - `_set_variable` fills a six-byte array, checksums it, then patches it in place into the copy for the panels.
  - Every method ensures that the new fields equal the matching `ValloxModel` function of the old ones.
- `OumanCodec`: `__fmt_cmd`, and `__read` as a function from the input bytes to an `Exchange`. An exchange holds the result (`Value`, `Missing` for `None`, or `Raises`), the request written and the input left unread.
- `OumanModel`: the parsers, `MeasurePoint.read` and `read_all` as functions, and the EH-203 table.
- `OumanDevice`: classes `MeasurePoint` and `Ouman`. `__read` consumes the input byte by byte, and `read_all` loops over the points; both are proved against `OumanModel`.

Quirks of the source are modelled as written:

- `vallox.py:536` calls the two-argument `_check_status_change` with three arguments. A valid RH2 frame therefore raises `TypeError`, which ends `loop` (`Rh2FrameRaises`).
- The temperature, RH and CO2 branches of `_decode_message` never set `last_received`. So `_is_temperature_init_done` never holds, and the `rh1`, `rh2` and `co2` getters always return `NOT_SET`, even after a CO2 value has been assembled (`LoopKeepsInv`).
- The CO2 window compares against the partner half's `last_received`, which is 0 until that half arrives. So a first half arriving within two seconds of time 0 calls `_handle_co2_total_value` with `None` and raises (`Co2HalfWithoutPartnerRaises`).
- The fan-speed setters only check `speed <= 8`. A speed of 0 or below writes the speed-1 code but stores the speed as given (`SetFanSpeed`, `NonPositiveFanSpeedReadsBackAsOne`).
- `set_on` and its siblings OR into the stored status byte, and `set_switch_on` into the flags-06 byte. Both are `None` until their frame arrives, and the operation then raises `TypeError`. The model returns an `Outcome` whose `raised` flag is set exactly then, with the state unchanged (`SetOn`, `SetSwitchOn`).
- `Flags` defines no `__eq__`, so two `Flags` objects always compare unequal. A flags point therefore reports every read (`FlagsReadingAlwaysReported`).

Where the repository's written description and the code differ, the model follows the code:

- `connect` does not reset the stored entries; it only clears `full_init_done` and requests the configuration (`ConnectRestartsInitialisation`).
- The completion burst reports all 32 keys of `self.data`, `updated` included, not a shorter list (`InitialBurst`).

## Model

The rows below use four terms:

- "The bus" is the input, the output, the port flag and the two request timestamps (`BusUnchanged`).
- "Keeps every stamp" means that an entry once received (`last_received` not 0) stays received, given a non-zero `now` (`KeepsStamps`).
- "Status notifications" are calls of the status-changed callback (`OnlyStatusEvents`).
- `Inv` says four things:
  - every entry is present;
  - the temperature, RH and CO2 entries are never stamped;
  - the raw status, variable-08 and flags-06 entries are unset or hold a byte;
  - every frame written is six bytes long with a valid checksum.

| member | source | states |
|---|---|---|
| Bytes.Sum8IsSumMod256 | src/devices/ouman.py:198-202 | the 8-bit checksum read as a number is the byte sum modulo 256 |
| Bytes.Sum8DetectsSingleByteChange | src/devices/ouman.py:198-202 | changing any single byte of a checksummed sequence changes its 8-bit sum |
| ValloxProtocol.TempsWithinRange | src/devices/vallox_protocol.py:88-115 | every NTC table entry lies in -74..100 degrees |
| ValloxProtocol.TempsMonotone | src/devices/vallox_protocol.py:88-115 | the NTC table never decreases: a larger byte never reads colder |
| ValloxProtocol.TempsFallbackIsTenDegrees | src/devices/vallox_protocol.py:88-115 | entry 0x83, the reverse-lookup fallback, is 10 degrees |
| ValloxProtocol.FanSpeedsTableWellFormed | src/devices/vallox_protocol.py:64-85 | eight strictly increasing fan codes, code i equal to 2^(i+1) - 1, speeds 1..8 |
| ValloxProtocol.NotSetIsDistinguishable | src/devices/vallox_protocol.py:118 | NOT_SET is neither a table temperature nor a fan speed |
| ValloxProtocol.StatusFlagsAreDistinctBits | src/devices/vallox_protocol.py:39-46 | the eight status masks are single bits, pairwise disjoint |
| ValloxProtocol.Variable08FlagsAreDistinctBits | src/devices/vallox_protocol.py:49-54 | the six variable-08 masks are single bits, pairwise disjoint |
| ValloxProtocol.Flags06AreDistinctBits | src/devices/vallox_protocol.py:57-61 | the fireplace activate and is-active masks are disjoint single bits; so is the switch-type mask |
| ValloxProtocol.AddressesAreDistinct | src/devices/vallox_protocol.py:6-15 | frame length 6, domain 0x01, five distinct bus addresses |
| ValloxProtocol.VariablesAreDistinct | src/devices/vallox_protocol.py:18-36 | the variable ids the decoder dispatches on, and the poll byte, are pairwise distinct |
| ValloxCodec.Checksum | vallox.py:804-806 | the frame checksum is (m0+m1+m2+m3+m4) mod 256 |
| ValloxCodec.ChecksumValid | vallox.py:808-816 | a frame validates exactly when its last byte is (m0+m1+m2+m3+m4) mod 256 |
| ValloxCodec.EncodeFrame | vallox.py:675-701 | a frame from sender to receiver carries domain, addresses, variable and value, and its checksum validates |
| ValloxCodec.SetFrames | vallox.py:675-701 | _set_variable's two frames: this panel to the target, then the first mainboard to all panels |
| ValloxCodec.RequestFrame | vallox.py:712-731 | the poll frame is [01,22,11,00,variable,checksum] and validates |
| ValloxCodec.ValidFrameIsEncoded | vallox.py:808-816 | every checksum-valid frame is the encoding of its own header and payload |
| ValloxCodec.ReadFrame | vallox.py:465-511 | consumes a prefix of the input, nothing exactly when fewer than 6 bytes wait; a frame is returned exactly when 6 bytes are consumed, and it is those bytes, with a known sender and receiver |
| ValloxCodec.ReadFrameOfEncoded | vallox.py:465-511 | a frame between known addresses is read back whole and validates, ahead of what follows |
| ValloxCodec.CorruptedByteIsRejected | vallox.py:808-816 | altering any one of the first five bytes of a valid frame fails the checksum |
| ValloxCodec.IndexOf | vallox.py:773-778 | list.index: the first position of the element, None exactly when it is absent |
| ValloxCodec.FanSpeedToHex | vallox.py:766-770 | the result is a fan code; a speed outside 1..8 gives the speed-1 code |
| ValloxCodec.HexToFanSpeed | vallox.py:773-778 | NOT_SET exactly for bytes that are no fan code; otherwise the speed whose code it is |
| ValloxCodec.NtcToCel | vallox.py:781-785 | a table byte gives a temperature in -74..100; anything else NOT_SET |
| ValloxCodec.CelToNtc | vallox.py:788-793 | the least byte whose table entry is the temperature, and 0x83 when there is none |
| ValloxCodec.HexToRh | vallox.py:796-800 | NOT_SET exactly below 51; otherwise a percentage in 0..100 |
| ValloxCodec.FanSpeedRoundTrip | vallox.py:766-778 | every speed 1..8 survives encoding and decoding |
| ValloxCodec.HeatingTargetRoundTrip | vallox.py:781-793 | every heating target 10..27 written through _cel_to_ntc reads back unchanged |
| ValloxCodec.NtcLookupGivesLeastDuplicate | vallox.py:781-793 | looking a byte's temperature up again gives a byte no larger with the same temperature, and every byte between reads that temperature too |
| ValloxModel.Initial | vallox.py:35-109 | the state after __init__ satisfies the invariant Inv |
| ValloxModel.StatusInitDone | vallox.py:850-864 | when it holds, every entry the retry pass tracks has been received |
| ValloxModel.TemperatureInitDone | vallox.py:843-848 | never holds in a state satisfying Inv, since no temperature entry is ever stamped |
| ValloxModel.CheckStatusChange | vallox.py:818-826 | stores the value and the update time only when it differs; reports it only after full initialisation |
| ValloxModel.Stamp | vallox.py:591-597 | setting last_received changes that entry's time only, nothing else |
| ValloxModel.StoreByte | vallox.py:599-600 | the raw byte entry gets the byte and the current time; no other entry or stamp changes |
| ValloxModel.StampFlags | vallox.py:591-597 | stamping a flag table changes no value and keeps every stamp |
| ValloxModel.CheckFlags | vallox.py:602-615 | checking a flag table moves no stamp and reports nothing before initialisation |
| ValloxModel.StampFlagsEffect | vallox.py:587-617 | stamping a flag table stamps exactly the entries the table names |
| ValloxModel.CheckFlagsEffect | vallox.py:587-617 | checking a flag table stores each named entry's own bit and leaves the rest |
| ValloxModel.StatusFlagsTable | vallox.py:587-617 | the status table names exactly the seven status flags |
| ValloxModel.Variable08FlagsTable | vallox.py:619-644 | the variable-08 table names exactly the six variable-08 flags |
| ValloxModel.FlagTablesDistinct | vallox.py:587-644 | both flag tables name each entry once |
| ValloxModel.FlagTableDistinct | vallox.py:587-644 | a flag table is well formed exactly when its entries are pairwise distinct |
| ValloxModel.StampStatusFlagsUnrolled | vallox.py:587-617 | the table form of the stamp block is the source's seven assignments |
| ValloxModel.CheckStatusFlagsUnrolled | vallox.py:587-617 | the table form of the check block is the source's seven _check_status_change calls |
| ValloxModel.CheckStatusFlagsTail | vallox.py:608-615 | the last four rows of the status table are the source's last four _check_status_change calls |
| ValloxModel.StampVariable08FlagsUnrolled | vallox.py:619-644 | the table form of the stamp block is the source's six assignments |
| ValloxModel.CheckVariable08FlagsUnrolled | vallox.py:619-644 | the table form of the check block is the source's six _check_status_change calls |
| ValloxModel.CheckVariable08FlagsTail | vallox.py:619-644 | the last three rows of the variable-08 table are the source's last three _check_status_change calls |
| ValloxModel.FlagByte | vallox.py:587-644 | decoding a flag byte keeps the bus, the guard and every stamp, and is silent before initialisation |
| ValloxModel.DecodeStatus | vallox.py:587-617 | a status byte keeps the bus and every stamp and releases the write guard |
| ValloxModel.DecodeVariable08 | vallox.py:619-644 | a variable-08 byte keeps the bus and every stamp and is silent before initialisation |
| ValloxModel.DecodeFlags06 | vallox.py:646-655 | a flags-06 byte keeps the bus and every stamp and is silent before initialisation |
| ValloxModel.DecodeProgram | vallox.py:657-673 | a program byte leaves every entry alone and adds only status notifications |
| ValloxModel.HandleCo2TotalValue | vallox.py:838-841 | CO2 becomes lo + 256*hi; raises, changing nothing, exactly when a half is unset |
| ValloxModel.DecodeCo2Half | vallox.py:539-550 | stores the half with the current time; assembles the total, or raises on an unset partner, exactly when the partner was stamped less than 2000 ms earlier |
| ValloxModel.DecodeReading | vallox.py:522-534 | a temperature or RH1 frame stores its value without stamping it |
| ValloxModel.DecodeSetting | vallox.py:553-576 | a settings frame stores its value stamped with the current time |
| ValloxModel.DecodeVariable | vallox.py:518-576 | any frame keeps the bus and every stamp; before initialisation it adds only status notifications |
| ValloxModel.DecodeConfiguration | vallox.py:553-578 | a configuration frame keeps the bus and every stamp, and before initialisation adds only status notifications |
| ValloxModel.InitialBurst | vallox.py:580-585 | one notification per key of self.data, 32 in insertion order |
| ValloxModel.CompleteInit | vallox.py:580-585 | full_init_done becomes true once the status entries are complete, and only then is the burst reported |
| ValloxModel.DecodeMessage | vallox.py:513-585 | a frame failing its checksum changes nothing; decoding never clears full_init_done or a stamp |
| ValloxModel.ReadMessage | vallox.py:465-511 | only the input changes, and it only shrinks; a frame returned is six bytes long and was consumed from the input |
| ValloxModel.SetVariable | vallox.py:675-701 | an open port gets exactly the two frames of _set_variable appended; a closed one nothing |
| ValloxModel.RequestVariable | vallox.py:712-731 | an open port gets exactly one poll frame appended; a closed one nothing |
| ValloxModel.RequestFrames | vallox.py:712-731 | one poll frame per variable |
| ValloxModel.RequestAll | vallox.py:712-731 | a run of _request_variable calls changes only the written frames |
| ValloxModel.RequestFramesAt | vallox.py:712-731 | frame i of a batch of polls polls variable i |
| ValloxModel.RequestAllFrames | vallox.py:712-731 | polling a list of variables writes their poll frames in order on an open port |
| ValloxModel.RequestConfig | vallox.py:146-160 | request_config changes only the written frames and the two timestamps |
| ValloxModel.RequestConfigIsRequestAll | vallox.py:146-160 | request_config polls exactly the ten configuration variables, in source order |
| ValloxModel.MissingVariablesExact | vallox.py:872-887 | the variables asked for are exactly those whose entry was never received |
| ValloxModel.RequestMissing | vallox.py:872-887 | the retry chain changes only the written frames |
| ValloxModel.RequestMissingRow | vallox.py:872-887 | the chain is its first row followed by the chain over the remaining rows |
| ValloxModel.RequestMissingIsRequestAll | vallox.py:872-887 | the row-by-row retry chain polls exactly the missing variables, in order |
| ValloxModel.RequestMissingFrames | vallox.py:872-887 | the retry chain writes the poll frames of the missing variables, in order |
| ValloxModel.RequestIfMissing | vallox.py:872-887 | one retry row appends the variable's poll frame exactly when the port is open and the entry was never received; nothing else changes |
| ValloxModel.SendMissingRequests | vallox.py:872-887 | _send_missing_requests changes only the written frames, and writes nothing on a closed port |
| ValloxModel.SendMissingRequestsIsRequestMissing | vallox.py:872-887 | _send_missing_requests is the retry chain over the seven tracked entries |
| ValloxModel.RetryLoop | vallox.py:866-870 | the retry pass writes polls, clears the guard and stamps the retry time, and nothing else; a closed port gets no polls |
| ValloxModel.Drain | vallox.py:169-173 | with no frame waiting only the framer's consumption happens; a closed port changes nothing; the input only shrinks; written frames, port flag and timestamps are kept; every entry stays present and stamped; full_init_done is never cleared |
| ValloxModel.Timers | vallox.py:176-185 | the timers change only the written frames, the guard and the two timestamps; last_requested becomes now exactly when five minutes have passed; once five seconds have passed the guard is released and the retry time is now, otherwise both are kept; a closed port gets no frames |
| ValloxModel.Loop | vallox.py:162-185 | an exception comes from the drain alone; the port flag is kept, the input only shrinks, every entry stays present and stamped and full_init_done is never cleared; a closed port leaves input, output and entries alone |
| ValloxModel.Connect | vallox.py:117-139 | reports whether the port opened; a failure changes nothing; a success opens the port, clears full_init_done and keeps every entry and notification |
| ValloxModel.Disconnect | vallox.py:141-144 | the port is closed and nothing else changes |
| ValloxModel.Assign | vallox.py:322-328 | a setter's store replaces the entry's value, keeps its stamp, reports its key, and changes nothing else |
| ValloxModel.SetFanSpeed | vallox.py:322-328 | above 8 nothing changes; 1..8 writes the speed's code to the mainboards and stores the speed; 0 or below writes the speed-1 code and stores the speed as given; a closed port gets no frames |
| ValloxModel.SetDefaultFanSpeed | vallox.py:335-341 | as the fan_speed setter, for the default fan speed |
| ValloxModel.SetServicePeriod | vallox.py:348-354 | outside 0..255 nothing changes; otherwise the month count is written as its own byte and stored |
| ValloxModel.SetServiceCounter | vallox.py:361-367 | outside 0..255 nothing changes; otherwise the month count is written as its own byte and stored |
| ValloxModel.SetHeatingTarget | vallox.py:374-381 | outside 10..27 nothing changes; otherwise the NTC byte of the temperature is written, a byte that reads back as that temperature, and the temperature is stored |
| ValloxModel.SetStatusVariable | vallox.py:703-710 | succeeds exactly when the guard is free; then it takes the guard, stamps the retry time and writes to the first mainboard; otherwise nothing changes |
| ValloxModel.WithBits | vallox.py:394-440 | the mask bits become all set or all clear, and every other bit is kept |
| ValloxModel.StatusAction | vallox.py:394-440 | while the guard is held nothing changes; otherwise the status write is made and the flag is stored and reported |
| ValloxModel.SwitchStatusBit | vallox.py:394-420 | raises TypeError, changing nothing, exactly when the status byte is unset; otherwise the status action with the mask bit set or cleared |
| ValloxModel.SetOn | vallox.py:394-399 | raises exactly on an unset status byte; while guarded nothing changes; otherwise writes the byte with the power bit set and stores is_on true |
| ValloxModel.SetOff | vallox.py:401-406 | raises exactly on an unset status byte; while guarded nothing changes; otherwise writes the byte with the power bit cleared and stores is_on false |
| ValloxModel.SetRhModeOn | vallox.py:408-413 | raises exactly on an unset status byte; while guarded nothing changes; otherwise writes the byte with the RH bit set and stores is_rh_mode true |
| ValloxModel.SetRhModeOff | vallox.py:415-420 | raises exactly on an unset status byte; while guarded nothing changes; otherwise writes the byte with the RH bit cleared and stores is_rh_mode false |
| ValloxModel.SetHeatingModeOn | vallox.py:422-430 | raises exactly on an unset status byte; with the bit already set it only reports; while guarded nothing changes; otherwise writes the bit set and stores the flag |
| ValloxModel.SetHeatingModeOff | vallox.py:432-440 | raises exactly on an unset status byte; with the bit already clear it only reports; while guarded nothing changes; otherwise writes the bit cleared and stores the flag |
| ValloxModel.SetSwitchOn | vallox.py:442-445 | raises exactly on an unset flags-06 byte; otherwise writes that byte with the activate bit set to the mainboards, storing nothing |
| ValloxModel.FlagReading | vallox.py:213-281 | a flag getter is true exactly when the entry holds true |
| ValloxModel.TemperatureReading | vallox.py:193-211 | a temperature getter returns the stored number, or 0 when none is stored |
| ValloxModel.SensorReading | vallox.py:283-302 | an RH or CO2 getter returns NOT_SET for an entry never received, and under Inv always; any other result is the received number |
| ValloxModel.SettingReading | vallox.py:317-372 | a setting getter returns the stored number, or NOT_SET when none is stored |
| ValloxModel.SwitchType | vallox.py:304-309 | NOT_SET exactly before the boost setting is received; 1 exactly when it is received and true; otherwise 0 |
| ValloxProperties.CheckStatusChangeIsIdempotent | vallox.py:818-826 | delivering the same value twice changes nothing the second time |
| ValloxProperties.CheckStatusChangeSilentBeforeInit | vallox.py:818-826 | before full initialisation a change is stored but not reported |
| ValloxProperties.FlagByteStoresFlag | vallox.py:587-644 | each table flag holds its own bit of the byte, stamped now |
| ValloxProperties.FlagByteStoresByte | vallox.py:587-644 | the raw byte entry holds the byte, stamped now |
| ValloxProperties.FlagByteKeepsOthers | vallox.py:587-644 | entries outside the table and the byte entry are untouched |
| ValloxProperties.DecodeStatusEffect | vallox.py:587-617 | every status flag holds its bit, and the raw byte is stored, all stamped now |
| ValloxProperties.DecodeStatusStoresEveryBit | vallox.py:587-617 | each of the seven flags equals its own mask bit, all eight entries stamped, guard released |
| ValloxProperties.DecodeStatusKeepsOtherEntries | vallox.py:587-617 | a status byte leaves every other entry, the switch type and the init state alone |
| ValloxProperties.DecodeVariable08Effect | vallox.py:619-644 | every variable-08 flag holds its bit, and the raw byte is stored, all stamped now |
| ValloxProperties.DecodeVariable08StoresEveryBit | vallox.py:619-644 | each of the six flags equals its own mask bit, all seven entries stamped |
| ValloxProperties.DecodeVariable08KeepsOtherEntries | vallox.py:619-644 | a variable-08 byte leaves every other entry, the guard and the init state alone |
| ValloxProperties.DecodeFlags06ReadsActiveBit | vallox.py:646-655 | switch-active is bit 0x40, not the 0x20 activate bit; nothing else changes |
| ValloxProperties.DecodeProgramReportsSwitchType | vallox.py:657-673 | the switch type is bit 0x20, reported when it changed or on first arrival |
| ValloxProperties.TemperatureFrameDecodes | vallox.py:522-529 | a valid temperature frame stores the table temperature of its byte, keeps the entry's stamp, and the temperature getter reads it |
| ValloxProperties.Rh1FrameDecodes | vallox.py:531-533 | a valid RH1 frame stores the percentage of its byte unstamped; rh1 then reads it only if the entry was stamped before, and NOT_SET otherwise |
| ValloxProperties.StatusFrameDispatch | vallox.py:561-562 | a valid status frame is decoded by _decode_status and then checked for completeness |
| ValloxProperties.Variable08FrameDispatch | vallox.py:563-564 | a valid variable-08 frame is decoded by _decode_variable08 and then checked for completeness |
| ValloxProperties.SwitchFramesDispatch | vallox.py:565-578 | a valid flags-06 or program frame is decoded by _decode_flags06 or _decode_program and then checked for completeness |
| ValloxProperties.Rh2FrameRaises | vallox.py:535-536 | a valid RH2 frame raises TypeError and changes nothing |
| ValloxProperties.CorruptedFrameIsIgnored | vallox.py:513-516 | a frame altered in its first five bytes is dropped without effect |
| ValloxProperties.Co2AssembledWithinWindow | vallox.py:539-550 | halves less than 2000 ms apart assemble lo + 256*hi |
| ValloxProperties.Co2NotAssembledOutsideWindow | vallox.py:539-550 | halves 2000 ms or more apart are stored but leave the total alone |
| ValloxProperties.Co2HalfWithoutPartnerRaises | vallox.py:539-550 | a half whose partner was never received, inside the window, raises after storing the half |
| ValloxProperties.DecodeKeepsStatusInitDone | vallox.py:850-864 | once the status entries are complete, decoding keeps them complete |
| ValloxProperties.DrainKeepsStatusInitDone | vallox.py:169-173 | draining the input keeps the status entries complete |
| ValloxProperties.LoopKeepsStatusInitDone | vallox.py:162-185 | a loop call keeps the status entries complete |
| ValloxProperties.DecodeBeforeInitReportsNoProperty | vallox.py:580-585 | before initialisation only status notifications are added; the completing frame ends with the 32-key burst |
| ValloxProperties.RequestConfigAsksForConfiguration | vallox.py:146-160 | request_config writes one poll per configuration variable, in order, and touches no entry |
| ValloxProperties.ConnectRestartsInitialisation | vallox.py:117-139 | a successful connect opens the port, clears full_init_done, keeps every entry and requests the configuration; a failed one changes nothing |
| ValloxProperties.RetryTableDistinct | vallox.py:872-887 | the seven retried variables are pairwise distinct |
| ValloxProperties.RetryLoopPollsExactlyMissing | vallox.py:866-887 | the retry pass polls a tracked variable exactly when its entry was never received, and releases the guard |
| ValloxProperties.NothingMissing | vallox.py:872-887 | with every tracked entry received there is nothing to poll |
| ValloxProperties.RetryLoopQuietWhenComplete | vallox.py:866-887 | once the status entries are complete the retry pass writes nothing |
| ValloxProperties.TimersIdleWithinIntervals | vallox.py:176-185 | within both intervals the timers change nothing |
| ValloxProperties.TimersRequeryWhenComplete | vallox.py:176-182 | after five minutes a complete panel polls variable 08 and the service counter, only those |
| ValloxProperties.TimersNoRequeryWhenIncomplete | vallox.py:176-182 | after five minutes an incomplete panel polls nothing but restarts the interval |
| ValloxProperties.TimersRetryWhenDue | vallox.py:176-185 | with the retry due and the re-query not, the timers are exactly the retry pass |
| ValloxProperties.LoopRetriesMissing | vallox.py:162-185 | a loop call with the retry due polls exactly the tracked variables still missing after the drain, releases the guard and stamps the retry time |
| ValloxProperties.SecondStatusWriteIsDropped | vallox.py:703-710 | after set_on takes the guard, set_off and set_rh_mode_on change nothing and raise nothing |
| ValloxProperties.StatusFrameReleasesGuard | vallox.py:587-617 | a valid status frame releases the guard and raises nothing |
| ValloxProperties.StatusEchoDecodes | vallox.py:587-617 | the panels' copy of a status write decodes to the byte, its seven flags, and a released guard |
| ValloxProperties.WithBitsKeepsOtherBits | vallox.py:394-440 | setting or clearing a mask leaves every bit outside it as it was |
| ValloxProperties.StatusActionConfirmedByEcho | vallox.py:394-420 | the echo of a status action confirms the flag it stored, and keeps the flags of every other bit |
| ValloxProperties.PowerActionsConfirmedByEcho | vallox.py:394-406 | the echo of set_on or set_off decodes to is_on true or false |
| ValloxProperties.RhActionsConfirmedByEcho | vallox.py:408-420 | the echo of set_rh_mode_on or set_rh_mode_off decodes to is_rh_mode true or false |
| ValloxProperties.HeatingModeActionsConfirmedByEcho | vallox.py:422-440 | the echo of a heating-mode action that writes decodes to the flag it set |
| ValloxProperties.SwitchOnWritesOnlyActivateBit | vallox.py:442-445 | set_switch_on sets the activate bit, keeps the is-active bit, and changes neither entries nor the guard |
| ValloxProperties.SettingEcho | vallox.py:675-701 | a setter's last frame on an open port is the panels' copy carrying its variable and code |
| ValloxProperties.FanSpeedFrameDecodes | vallox.py:553-560 | a fan-speed frame stores the speed of its code, stamped now |
| ValloxProperties.FanSpeedSettersConfirmedByEcho | vallox.py:322-341 | for speeds 1..8 the fan-speed setters store the speed, and their echo decodes to the same value |
| ValloxProperties.NonPositiveFanSpeedReadsBackAsOne | vallox.py:322-328 | a speed of 0 or below is stored as given, but its echo decodes as speed 1 |
| ValloxProperties.HeatingTargetFrameDecodes | vallox.py:573-576 | a heating-target frame stores the table temperature of its byte |
| ValloxProperties.HeatingTargetEchoDecodes | vallox.py:374-381 | the panels' copy of a heating-target write decodes as the temperature of its byte |
| ValloxProperties.HeatingTargetSetterConfirmedByEcho | vallox.py:374-381 | for 10..27 degrees the setter stores the target, and its echo decodes to the same value |
| ValloxProperties.ServiceFrameDecodes | vallox.py:567-572 | a service-period or service-counter frame stores its month count, stamped now |
| ValloxProperties.ServiceSettersConfirmedByEcho | vallox.py:348-367 | for 0..255 months the service setters store the count, and their echo decodes to the same value |
| ValloxProperties.FanSpeedSettersReadBack | vallox.py:317-341 | the fan-speed getters return what their setter accepted; above 8 they return what they did before |
| ValloxProperties.ServiceSettersReadBack | vallox.py:343-367 | the service getters return the month count set |
| ValloxProperties.HeatingTargetSetterReadsBack | vallox.py:369-381 | the heating_target getter returns the target set |
| ValloxProperties.StatusActionsReadBack | vallox.py:213-226 | with the guard free, is_on and is_rh_mode read the new state at once; a heating-mode action that writes does too |
| ValloxInvariant.RequestFramesValid | vallox.py:712-731 | every poll frame is six bytes with a valid checksum |
| ValloxInvariant.DecodeSettingKeepsDataInv | vallox.py:553-575 | storing a setting keeps the data part of Inv |
| ValloxInvariant.DecodeStatusKeepsDataInv | vallox.py:587-617 | a status byte keeps the data part of Inv |
| ValloxInvariant.DecodeVariable08KeepsDataInv | vallox.py:619-644 | a variable-08 byte keeps the data part of Inv |
| ValloxInvariant.DecodeFlags06KeepsDataInv | vallox.py:646-655 | a flags-06 byte keeps the data part of Inv |
| ValloxInvariant.DecodeReadingKeepsDataInv | vallox.py:522-534 | a temperature or RH1 frame keeps the data part of Inv |
| ValloxInvariant.DecodeCo2HalfKeepsDataInv | vallox.py:539-550 | a CO2 half never stamps the CO2 total |
| ValloxInvariant.DecodeConfigurationKeepsDataInv | vallox.py:553-578 | configuration frames stamp no measurement and store only byte-sized raw bytes |
| ValloxInvariant.DecodeVariableKeepsDataInv | vallox.py:518-578 | no frame stamps a temperature, RH or CO2 entry |
| ValloxInvariant.DecodeMessageKeepsInv | vallox.py:513-585 | _decode_message keeps Inv |
| ValloxInvariant.DrainKeepsInv | vallox.py:169-173 | draining the input keeps Inv |
| ValloxInvariant.RetryLoopKeepsInv | vallox.py:866-870 | the retry pass keeps Inv |
| ValloxInvariant.PollKeepsInv | vallox.py:712-731 | a poll keeps Inv: the frame written is well formed |
| ValloxInvariant.TimersKeepInv | vallox.py:176-185 | the timers keep Inv |
| ValloxInvariant.LoopKeepsInv | vallox.py:162-185 | loop keeps Inv, so _is_temperature_init_done never holds and rh1, rh2 and co2 read NOT_SET |
| ValloxInvariant.ConnectKeepsInv | vallox.py:117-139 | connect keeps Inv |
| ValloxInvariant.WriteKeepsInv | vallox.py:675-701 | _set_variable keeps Inv: both frames written are well formed |
| ValloxInvariant.FanSpeedSettersKeepInv | vallox.py:322-341 | the fan-speed setters keep Inv for every argument |
| ValloxInvariant.ServiceSettersKeepInv | vallox.py:348-367 | the service setters keep Inv for every argument |
| ValloxInvariant.HeatingTargetSetterKeepsInv | vallox.py:374-381 | the heating-target setter keeps Inv for every argument |
| ValloxInvariant.StatusActionKeepsInv | vallox.py:394-440 | a status action on the power, RH or heating-mode flag keeps Inv |
| ValloxInvariant.PowerAndRhActionsKeepInv | vallox.py:394-420 | set_on, set_off and the RH-mode actions keep Inv |
| ValloxInvariant.HeatingModeActionsKeepInv | vallox.py:422-440 | the heating-mode actions keep Inv |
| ValloxInvariant.SwitchOnKeepsInv | vallox.py:442-445 | set_switch_on keeps Inv |
| ValloxDevice.Vallox.constructor | vallox.py:35-109 | the new object is the initial state |
| ValloxDevice.Vallox.CheckStatusChange | vallox.py:818-826 | in-place update equal to the model's _check_status_change |
| ValloxDevice.Vallox.StampEntry | vallox.py:591-597 | in-place update equal to the model's stamp |
| ValloxDevice.Vallox.StoreByte | vallox.py:599-600 | in-place update equal to the model's raw-byte store |
| ValloxDevice.Vallox.StampStatusFlags | vallox.py:591-597 | the seven in-place stamps equal the model's table stamp |
| ValloxDevice.Vallox.CheckStatusFlags | vallox.py:602-615 | the seven in-place checks equal the model's table check |
| ValloxDevice.Vallox.StampVariable08Flags | vallox.py:619-644 | the six in-place stamps equal the model's table stamp |
| ValloxDevice.Vallox.CheckVariable08Flags | vallox.py:619-644 | the six in-place checks equal the model's table check |
| ValloxDevice.Vallox.SetVariable | vallox.py:675-701 | in-place write equal to the model's _set_variable |
| ValloxDevice.Vallox.PatchFrames | vallox.py:675-701 | the bytearray filled, checksummed and patched in place gives the two frames of _set_variable |
| ValloxDevice.Vallox.RequestVariable | vallox.py:712-731 | in-place write equal to the model's _request_variable |
| ValloxDevice.Vallox.PollFrame | vallox.py:712-731 | the bytearray filled and checksummed is the poll frame |
| ValloxDevice.Vallox.SetStatusVariable | vallox.py:703-710 | guarded write and result equal to the model's _set_status_variable |
| ValloxDevice.Vallox.RequestConfig | vallox.py:146-160 | the ten requests equal the model's request_config |
| ValloxDevice.Vallox.RequestIfMissing | vallox.py:872-887 | one retry row, equal to the model's |
| ValloxDevice.Vallox.SendMissingRequests | vallox.py:872-887 | the seven retry rows equal the model's _send_missing_requests |
| ValloxDevice.Vallox.RetryLoop | vallox.py:866-870 | equal to the model's _retry_loop |
| ValloxDevice.Vallox.ReadMessage | vallox.py:465-511 | consumes the input and returns the frame as the model's _read_message does |
| ValloxDevice.Vallox.DecodeStatus | vallox.py:587-617 | in-place decode equal to the model's _decode_status |
| ValloxDevice.Vallox.DecodeVariable08 | vallox.py:619-644 | in-place decode equal to the model's _decode_variable08 |
| ValloxDevice.Vallox.DecodeFlags06 | vallox.py:646-655 | in-place decode equal to the model's _decode_flags06 |
| ValloxDevice.Vallox.DecodeProgram | vallox.py:657-673 | in-place decode equal to the model's _decode_program |
| ValloxDevice.Vallox.HandleCo2TotalValue | vallox.py:838-841 | equal to the model's _handle_co2_total_value, including when it raises |
| ValloxDevice.Vallox.DecodeCo2Half | vallox.py:539-550 | equal to the model's CO2 branch |
| ValloxDevice.Vallox.DecodeVariable | vallox.py:518-550 | equal to the model's measurement branches |
| ValloxDevice.Vallox.DecodeConfiguration | vallox.py:553-578 | equal to the model's configuration branches |
| ValloxDevice.Vallox.ReportAllKeys | vallox.py:583-585 | one notification per key, in order: the model's burst |
| ValloxDevice.Vallox.DecodeMessage | vallox.py:513-585 | equal to the model's _decode_message, the completion burst included |
| ValloxDevice.Vallox.Drain | vallox.py:169-173 | the while-True drain, equal to the model's drain |
| ValloxDevice.Vallox.Timers | vallox.py:176-185 | equal to the model's re-query and retry timers |
| ValloxDevice.Vallox.Loop | vallox.py:162-185 | equal to the model's loop |
| ValloxDevice.Vallox.Connect | vallox.py:117-139 | equal to the model's connect for the given outcome of opening the port |
| ValloxDevice.Vallox.Disconnect | vallox.py:141-144 | equal to the model's disconnect |
| ValloxDevice.Vallox.Assign | vallox.py:322-328 | a setter's in-place store equals the model's, reporting the key |
| ValloxDevice.Vallox.SetFanSpeed | vallox.py:322-328 | equal to the model's fan_speed setter |
| ValloxDevice.Vallox.SetDefaultFanSpeed | vallox.py:335-341 | equal to the model's default_fan_speed setter |
| ValloxDevice.Vallox.SetServicePeriod | vallox.py:348-354 | equal to the model's service_period setter |
| ValloxDevice.Vallox.SetServiceCounter | vallox.py:361-367 | equal to the model's service_counter setter |
| ValloxDevice.Vallox.SetHeatingTarget | vallox.py:374-381 | equal to the model's heating_target setter |
| ValloxDevice.Vallox.StatusAction | vallox.py:394-440 | the shared body of the status actions, equal to the model's |
| ValloxDevice.Vallox.SwitchStatusBit | vallox.py:394-420 | the OR or AND-NOT of the stored status byte, equal to the model, raising TypeError on an unset byte |
| ValloxDevice.Vallox.SetOn | vallox.py:394-399 | equal to the model's set_on, raising TypeError exactly when it does |
| ValloxDevice.Vallox.SetOff | vallox.py:401-406 | equal to the model's set_off, raising TypeError exactly when it does |
| ValloxDevice.Vallox.SetRhModeOn | vallox.py:408-413 | equal to the model's set_rh_mode_on, raising TypeError exactly when it does |
| ValloxDevice.Vallox.SetRhModeOff | vallox.py:415-420 | equal to the model's set_rh_mode_off, raising TypeError exactly when it does |
| ValloxDevice.Vallox.SetHeatingModeOn | vallox.py:422-430 | equal to the model's set_heating_mode_on, raising TypeError exactly when it does |
| ValloxDevice.Vallox.SetHeatingModeOff | vallox.py:432-440 | equal to the model's set_heating_mode_off, raising TypeError exactly when it does |
| ValloxDevice.Vallox.SetSwitchOn | vallox.py:442-445 | equal to the model's set_switch_on, raising TypeError exactly when it does |
| OumanCodec.DecodeSigned | src/devices/ouman.py:190-194 | the unpacked value is representable in the byte string's width |
| OumanCodec.EncodeSigned | src/devices/ouman.py:204-206 | struct.pack of a representable value gives that many bytes |
| OumanCodec.ToBigEndian | src/devices/ouman.py:204-206 | the big-endian encoding has the width asked for |
| OumanCodec.BigEndianOfToBigEndian | src/devices/ouman.py:204-206 | reading back the big-endian bytes of a value below 256^w gives the value |
| OumanCodec.ToBigEndianOfBigEndian | src/devices/ouman.py:190-194 | writing the big-endian value of a byte string gives the string |
| OumanCodec.DecodeOfEncode | src/devices/ouman.py:190-194 | struct.unpack of struct.pack gives the value back |
| OumanCodec.EncodeOfDecode | src/devices/ouman.py:190-194 | struct.pack of struct.unpack gives the bytes back |
| OumanCodec.FmtCmd | src/devices/ouman.py:204-208 | [STX, 0x81, 2, hi, lo, checksum]: hi:lo unpacks to cmd and the checksum covers all but STX |
| OumanCodec.Frame | src/devices/ouman.py:152-182 | a response is four bytes longer than its payload |
| OumanCodec.Receive | src/devices/ouman.py:159-182 | consumes a prefix of the input; without STX then ACK at its head there is no payload |
| OumanCodec.ReceivedIsFrame | src/devices/ouman.py:159-182 | a payload is accepted only from a well-formed, correctly checksummed frame at the head of the input |
| OumanCodec.FrameOfReceived | src/devices/ouman.py:159-182 | an accepted input is a frame of the payload followed by the unread rest |
| OumanCodec.ReceiveSound | src/devices/ouman.py:159-182 | a well-formed frame yields its payload and leaves the rest |
| OumanCodec.ReceiveChecksumMismatch | src/devices/ouman.py:176-182 | a frame with a missing or wrong checksum byte is dropped together with that byte |
| OumanCodec.ReceiveFrame | src/devices/ouman.py:159-182 | a sound frame is taken off whole, and what follows is left unread |
| OumanCodec.FrameParts | src/devices/ouman.py:159-182 | a response holds STX, ACK, the length, the payload and its checksum, in that order |
| OumanCodec.Payload | src/devices/ouman.py:184-188 | the payload is the 2-byte command echo followed by the body |
| OumanCodec.DecodeReply | src/devices/ouman.py:184-196 | raises exactly on a payload shorter than the echo or an echoed command with an unknown width or short slice; None exactly on another echo; a value packs back to the slice s..e |
| OumanCodec.Read | src/devices/ouman.py:152-196 | writes FmtCmd(cmd); consumes a prefix; a value has a known width; no STX/ACK head means None |
| OumanCodec.ReadOfFrame | src/devices/ouman.py:152-196 | a framed payload is read in full, the trailing bytes left unread |
| OumanCodec.ReadOfResponse | src/devices/ouman.py:152-196 | a well-formed response echoing cmd with v encoded at s..e reads back v |
| OumanCodec.ReadRejectsOtherEcho | src/devices/ouman.py:184-188 | a response echoing another command reads as None |
| OumanCodec.ReadRaisesOnUnknownWidth | src/devices/ouman.py:190-194 | a slice not 1, 2 or 4 bytes wide raises |
| OumanCodec.ReceiveRejectsBadSum | src/devices/ouman.py:176-182 | a frame whose checksum byte differs from the sum is rejected |
| OumanCodec.ReceiveRejectsCorruptedPayload | src/devices/ouman.py:176-182 | changing any one payload byte in transit is rejected |
| OumanCodec.ReadOfDroppedResponse | src/devices/ouman.py:159-182 | a dropped response reads as None |
| OumanCodec.ReadRejectsCorruptedPayload | src/devices/ouman.py:176-182 | a response with one payload byte changed reads as None |
| OumanModel.AndWithPowerOfTwo | src/devices/ouman.py:58-96 | masking with 2^k tests exactly bit k, negative values included |
| OumanModel.Flags.Bit | src/devices/ouman.py:58-96 | bitN is bit N-1 of the raw value |
| OumanModel.FlagsDetermineByte | src/devices/ouman.py:49-96 | the eight bit properties tell any two byte values apart |
| OumanModel.Parse | src/devices/ouman.py:45-121 | every parser maps None, and only None, to None |
| OumanModel.BinaryParseIsBitTest | src/devices/ouman.py:102-106 | a single-bit binary point reports that bit of the raw value |
| OumanModel.ReadPoint | src/devices/ouman.py:27-33 | writes the point's request; a command that does not fit a short raises and stores nothing; a read that does not raise stores the parse of the raw value |
| OumanModel.Settle | src/devices/ouman.py:27-33 | raises exactly when __read or the parser does; stores the raw value and its parse, and reports only when the parse differs from the stored value |
| OumanModel.RepeatedReadingIsSilent | src/devices/ouman.py:27-33 | reading an unchanged non-flags value again reports nothing |
| OumanModel.FlagsReadingAlwaysReported | src/devices/ouman.py:111-115 | a flags point reports every value it reads |
| OumanModel.ReadPrefix | src/devices/ouman.py:143-146 | the loop keeps one state per point |
| OumanModel.ReadAll | src/devices/ouman.py:143-146 | one state per point; a sweep that does not raise writes every request in table order and leaves each point holding the parse of its raw value |
| OumanModel.ReadPointSweepSound | src/devices/ouman.py:143-146 | a sweep of MeasurePoint.read that does not raise writes every request and stores every parse |
| OumanModel.RaisedSweepIsFinal | src/devices/ouman.py:143-146 | once a read has raised, further iterations change nothing |
| OumanModel.SweepEnds | src/devices/ouman.py:143-146 | the loop ends when every point is read or a read raised |
| OumanModel.ReadPointSendsRequest | src/devices/ouman.py:148-150 | reading a point writes its request and nothing else |
| OumanModel.ReadPointStoresParse | src/devices/ouman.py:27-33 | a read that does not raise leaves the parse of its raw value |
| OumanModel.SweepSendsRequests | src/devices/ouman.py:143-146 | read_all writes the request of every point it reads, in table order |
| OumanModel.SweepKeepsUnvisited | src/devices/ouman.py:143-146 | points not yet reached are unchanged |
| OumanModel.SweepStoresParsed | src/devices/ouman.py:143-146 | after a sweep every point read holds the parse of its raw value |
| OumanModel.IndexOfName | src/devices/ouman.py:233-235 | the point found has the name asked for; None only when no point has it |
| OumanModel.LookupFindsEveryPoint | src/devices/ouman.py:128-131 | with distinct names, looking up a point's name finds that point |
| OumanModel.EH203 | src/devices/ouman.py:237-280 | the EH-203 table has 26 points, in constructor order |
| OumanModel.EH203Serviceable | src/devices/ouman.py:237-280 | every EH-203 point has slice width 1, 2 or 4, and binary points test a single bit |
| OumanModel.EH203NamesDistinct | src/devices/ouman.py:237-280 | the EH-203 names are distinct, so the name-keyed dictionary keeps every point |
| OumanModel.ReadPointOfResponse | src/devices/ouman.py:27-33 | reading a point from a well-formed response stores the value and its parse |
| OumanDevice.MeasurePoint.constructor | src/devices/ouman.py:15-25 | a new point has no raw value and no value |
| OumanDevice.MeasurePoint.Read | src/devices/ouman.py:27-33 | in-place read equal to the model's MeasurePoint.read |
| OumanDevice.MeasurePoint.Store | src/devices/ouman.py:29-33 | storing and reporting after __read, equal to the model |
| OumanDevice.Ouman.constructor | src/devices/ouman.py:128-131 | one fresh, unread measure point per table entry, in order |
| OumanDevice.Ouman.NewEH203 | src/devices/ouman.py:237-280 | an Ouman over the EH-203 table |
| OumanDevice.Ouman.Connect | src/devices/ouman.py:133-137 | pending input is dropped |
| OumanDevice.Ouman.OnPropertyChanged | src/devices/ouman.py:31-33 | the call is recorded |
| OumanDevice.Ouman.ReadByte | src/devices/ouman.py:159-166 | the next input byte, or none at the end |
| OumanDevice.Ouman.ReadBytes | src/devices/ouman.py:175-176 | the next n input bytes, fewer at the end |
| OumanDevice.Ouman.ReadValue | src/devices/ouman.py:148-150 | equal to the model's read of the point's command and slice |
| OumanDevice.Ouman.ReceiveFrame | src/devices/ouman.py:159-182 | the byte-by-byte reception equals the model's Receive |
| OumanDevice.Ouman.ReadRaw | src/devices/ouman.py:152-196 | the byte-by-byte __read equals the model's Read |
| OumanDevice.Ouman.ReadNext | src/devices/ouman.py:144-146 | one iteration of read_all extends the sweep by one point |
| OumanDevice.Ouman.ReadAll | src/devices/ouman.py:143-146 | the loop leaves points and port as the model's read_all |
| OumanDevice.Ouman.GetMeasurePoint | src/devices/ouman.py:233-235 | the point returned has the name asked for; None only when no point has it |

## Left out

- Serial I/O: opening, closing and flushing the ports is left out. `connect` takes the outcome of opening the port as a parameter. The bytes waiting on the port are the input sequence, and the bytes written are a log.
- `time.monotonic()`, `time.sleep` and `asyncio.sleep` are replaced by the parameter `now` in milliseconds. `poll_device` in both drivers is scheduling and is left out. Each call takes a single `now`, so the 0.1 s sleep after every poll (`vallox.py:731`) is not modelled: `request_config` (`vallox.py:146-160`) stamps `updated` and `last_requested` about one second after it starts, whereas the model stamps the `now` of the call, and the re-query and retry passes of `loop` likewise run at the call's `now`.
- The debug-print, packet and temperature-changed callbacks, and the `debug` property, only print or forward data and are left out.
- The MQTT client, the device manager, the device reflection and discovery layer, the loop state, and the example and test scripts are not part of this model.
- `NumericMeasurePoint.parse` divides by the divisor, a floating-point operation. The model keeps the raw value and the divisor, which equal raw values give equal readings for. It raises on a zero divisor as Python does.
- ValloxCodec.HexToRh: `(hex - 51) / 2.04` is computed in floating point and then truncated. The model uses the exact integer form `((hex - 51) * 100) / 204`, which agrees with it for every byte from 51 to 255.
- `_check_value_change` is never called and stores the `time` module object; it is left out.
- The `h1_room_setpoint` getter of `OumanEH203` (`src/devices/ouman.py:380-382`) subscripts the method `get_measurepoint` instead of calling it, so it raises `TypeError`; the point itself is in the table (`src/devices/ouman.py:270`). That getter, and `raw_value`, which returns the parsed value, are left out.
- `updated` and `init_ok` only return a stored field and are not modelled as getters.
- OumanModel.Point: the mask and the slice bounds `dataStart` and `dataEnd` are taken non-negative (`nat`). `MeasurePoint.__init__` (`src/devices/ouman.py:15-25`) accepts any integer, and Python would read a negative slice bound from the end of the data; no table of the source uses one.
- The Ouman `close` method and `reset_output_buffer` are left out, since nothing is buffered for output.
- ValloxModel.Drain and ValloxModel.Loop do not state the decoded entries frame by frame; the effect of each frame is stated by DecodeMessage and the lemmas of ValloxProperties, and Inv by DrainKeepsInv and LoopKeepsInv.
