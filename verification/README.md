# SIM800L driver: a Dafny model

This project models the command/response core of a polling SIM800L GSM modem driver written in C for STM32 (`sim800l.c`, `sim800l.h`). The driver does four things:

- formats AT commands into fixed-size static buffers with `snprintf`;
- transmits them over a UART;
- performs one blocking 255-byte receive;
- classifies the reply as OK, ERROR or no response by searching for `"\r\nOK\r\n"` and `"\r\nERROR\r\n"`.

The signal-quality query also extracts a number with `atoi`.

Every operation is a pure function. It takes the driver's static command buffers, its arguments and the 255 bytes the UART delivers. It returns a `Step`, which holds:

- the static buffers after the call;
- the trace of UART events: `Transmit(bytes)`, `Delay(ms)` and `Receive`;
- the `uint8_t` the C function returns.

The model reproduces what the code puts on the wire. Each `snprintf` buffer is declared exactly as long as its template text, so `snprintf` keeps one character less than the template. Depending on the command, that drops:

- the CNMI `<buffer>` digit;
- the GSMBUSY mode digit;
- the second digit of a CMGD index;
- the CMGR mode after a two-digit index;
- the closing quote after a 12-character phone number.

No command gets a carriage return appended. The corrected variants, with one more byte of capacity, are in `Commands` (see Findings).

Files:

- `defs.dfy` (`Defs`): header constants, `uint8`, and the `uint8_t` cast.
- `ctext.dfy` (`CText`): C strings, `strlen` and `strstr`.
- `numerals.dfy` (`Numerals`): `%d` and `atoi`.
- `commands.dfy` (`Commands`): templates, `snprintf` truncation, command texts and corrected builders.
- `driver.dfy` (`Driver`): the static buffers, `SIM800L_CheckResponse`, the public operations and `SIM800L_FindCharacter`.
- `wire.dfy` (`Wire`): the exact bytes each command sends, and worked replies.

Where the code and its own documentation disagree, or where the truncation is easy to misread, the model follows the code:

- The header comment on `PHONE_NUMBER_LEN` allows 12-character numbers, but a 12-character number is not sent whole.
- The CNMI format string (sim800l.c:163) and its template (sim800l.c:51) spell out `AT+CNMI=<mode>,<mt>,<bm>,<ds>,<buffer>`, but in-range CNMI parameters are sent without the last digit.
- For CMGR, a two-digit index keeps both of its digits. It is the mode digit that is lost.
- SMS sending makes three transmit calls before its single receive: the command, the body, and the Ctrl+Z byte.

## Model

| member | source | states |
|---|---|---|
| Defs.OutcomeCodesDistinctBits | sim800l.h:40-45 | RESPONSE_ERROR, RESPONSE_OK, NO_RESPONSE, NO_SMS, INDEX_OUT_OF_RANGE and LENGTH_OUT_OF_RANGE are single-bit values, pairwise distinct |
| Defs.ToUint8 | sim800l.c:186 | the cast to `uint8_t` keeps values 0..255 and otherwise agrees with its argument modulo 256 |
| Commands.TemplateCapacities | sim800l.h:27-48 | each static buffer's capacity equals its template text's length: GSMBUSY 12, CSQ 6, CMGF 9, CMGR 12, CMGD 10, CMGS 10+12, CNMI 17. The OK and ERROR markers are 6 and 9 long, and the CMGF digit sits at index 8 after `AT+CMGF=` |
| CText.StrLen | sim800l.c:114 | `strlen` is the index of the first NUL: a NUL sits there and none comes before it |
| CText.CStrOfTerminated | sim800l.c:89 | the string a buffer holds ends at its first NUL, whatever follows |
| CText.StrStr | sim800l.c:89-93 | `strstr` returns a position exactly when the needle is a substring of the text before the first NUL, and that position is the needle's first occurrence |
| CText.FirstAtUnique | sim800l.c:182 | the first occurrence of a marker is unique |
| Numerals.Decimal | sim800l.c:163 | `%d` of a value below 10, 100 or 1000 gives 1, 2 or 3 digits with no leading zero |
| Numerals.DecimalRoundTrip | sim800l.c:163 | reading back the digits that `%d` printed gives the printed value |
| Numerals.DecimalLeadingDigit | sim800l.c:222 | the first character `%d` prints for a two- or three-digit value is its most significant digit |
| Numerals.Atoi | sim800l.c:185 | `atoi` as the C library defines it: it skips C-locale white space (space and characters 9 to 13), accepts one optional sign, and reads the longest digit run after it. A text with no digit reads as 0, and only a minus sign gives a negative result. The result is unbounded; whether it fits an `int` is left to the caller's precondition |
| Numerals.AtoiOfDecimal | sim800l.c:185 | `atoi` skips leading white space and reads a printed numeral back up to the first non-digit |
| Numerals.AtoiOfNegative | sim800l.c:185 | `atoi` applies a leading minus sign to the digits after it |
| Commands.Snprintf | sim800l.c:113 | `snprintf` never grows the buffer and always leaves a NUL. The buffer's string is the formatted text cut to capacity−1 |
| Commands.Formatted | sim800l.c:163-164 | the string `snprintf` leaves is a prefix of the formatted text. It is the whole text when that fits, and exactly capacity−1 characters when it does not |
| Commands.CnmiTextShape | sim800l.c:161-163 | in-range CNMI parameters are single digits, so the full CNMI text is exactly 17 characters, the buffer's capacity |
| Commands.CnmiIntended | sim800l.h:31 | with one byte more of capacity, every CNMI parameter digit would be sent |
| Commands.RejectCallIntended | sim800l.h:37 | with one byte more of capacity, a one-digit rejection mode would be sent |
| Commands.DeleteSmsIntended | sim800l.h:29 | with one byte more of capacity, the whole command `AT+CMGD=<index>` is sent for every index up to 99, and `atoi` reads the index back from it |
| Commands.ReadSmsIntended | sim800l.h:28 | with one byte more of capacity, a two-digit CMGR index would be sent together with its mode digit |
| Commands.SendSmsIntended | sim800l.c:47 | with one byte more of capacity, a number of up to 12 characters is sent whole as `AT+CMGS="<number>"`, prefix, number and closing quote |
| Driver.BootIsValid | sim800l.c:27-51 | the initial contents of the static buffers satisfy the size and prefix invariant that every operation preserves |
| Driver.SendATCommand | sim800l.c:72-75 | a transmit sends exactly `length` bytes, a prefix of the command buffer |
| Driver.CheckResponse | sim800l.c:86-98 | the result is OK exactly when `"\r\nOK\r\n"` occurs before the first NUL. It is ERROR exactly when the ERROR marker occurs there and the OK marker does not, and NO_RESPONSE when neither does |
| Driver.CheckResponseIgnoresAfterNul | sim800l.c:88-96 | bytes after the first NUL of the received buffer never change the classification |
| Driver.SendSms | sim800l.c:111-126 | the trace is the CMGS command cut to 21 characters, a 1000 ms delay, the message text with its length taken modulo 256, one byte 26, and one receive. The call returns that receive's classification; only the CMGS buffer changes |
| Driver.SetSmsFormat | sim800l.c:138-143 | 9 bytes are sent: `AT+CMGF=` followed by `format_mode + '0'` wrapped to a byte, with no range check. The persistent CMGF buffer keeps those bytes, and the classification is returned |
| Driver.SetSmsIndicationMode | sim800l.c:159-166 | out-of-range parameters (`mode>3`, `mt>3`, `bm>2`, `ds>1` or `buffer>1`) return INDEX_OUT_OF_RANGE with nothing sent, nothing received and no buffer changed. The trace is empty exactly in that case. Otherwise the CNMI text cut to 16 characters is sent and the reply classified |
| Driver.GetSignalQuality | sim800l.c:177-190 | the 6 bytes `AT+CSQ` are sent, then one receive. Without the OK marker or without `+CSQ: ` the result is RESPONSE_ERROR. Otherwise it is the `atoi` of the text 6 characters after the first `+CSQ: `, cast to `uint8_t` |
| Driver.ReadSms | sim800l.c:203-208 | the CMGR text cut to 11 characters is sent, then one classified receive; only the CMGR buffer changes |
| Driver.DeleteSms | sim800l.c:220-225 | the CMGD text cut to 9 characters is sent, then one classified receive; only the CMGD buffer changes |
| Driver.RejectIncomingCall | sim800l.c:237-242 | the GSMBUSY text cut to 11 characters is sent, then one classified receive; only the GSMBUSY buffer changes |
| Driver.FindCharacter | sim800l.c:254-264 | the result is −1 exactly when no index in [start, end] holds the target, so `start > end` gives −1. Otherwise the result is an index in [start, end] that holds the target, with no match before it in the range |
| Wire.CommandsFitTheirBuffers | sim800l.c:113-114 | every transmitted `snprintf`-built command is shorter than its buffer's capacity: CMGR, CMGD, GSMBUSY and CMGS for all arguments, and CNMI for every five-parameter tuple it sends |
| Wire.CnmiBufferDigitNeverSent | sim800l.c:163-164 | for in-range parameters the bytes sent are exactly `AT+CNMI=<mode>,<mt>,<bm>,<ds>,` (16 characters): the `<buffer>` digit is never sent |
| Wire.RejectCallModeNeverSent | sim800l.c:239-240 | whatever the rejection mode, exactly `AT+GSMBUSY=` is sent |
| Wire.DeleteSmsSendsOneDigit | sim800l.c:222-223 | CMGD sends the first digit of the index only. A two-digit index is sent as its tens digit, and an index below 10 is sent whole |
| Wire.ReadSmsBytes | sim800l.c:205-206 | a one-digit index and mode are sent whole; a two-digit index is followed by a comma and no mode digit |
| Wire.SendSmsCommandBytes | sim800l.c:113-114 | a number shorter than 12 characters is sent between quotes. From 12 characters on, only `AT+CMGS="` and the first 12 characters go out, without the closing quote |
| Wire.SendSmsExample | sim800l.c:111-126 | sending "hello" to "+15551234567" transmits `AT+CMGS="+15551234567`, delays, sends `hello`, then byte 26, then performs one receive |
| Wire.SendSmsLongBody | sim800l.c:119 | a message of 261 characters is sent as its first 5, because the `uint8_t` length wraps |
| Wire.SetSmsFormatDigit | sim800l.c:140-141 | a one-digit format mode is sent as that digit; mode 208 wraps to a NUL byte at index 8; exactly 9 bytes go out |
| Wire.SignalQualityReadsReport | sim800l.c:180-187 | an OK reply carrying `+CSQ: <n>,0` makes the call return n, for every n in 0..255 and whatever NUL-free text follows the report. The terminator may lie among the 255 received bytes or after them, as in a zeroed 256-byte caller buffer |
| Wire.CsqReplySeventeen | sim800l.c:182 | the report of strength 17 is the text `\r\nOK\r\n+CSQ: 17,0\r\n` |
| Wire.SignalQualityExample | sim800l.c:177-190 | the reply `\r\nOK\r\n+CSQ: 17,0\r\n` gives 17 |
| Wire.SignalQualityOnError | sim800l.c:180-189 | an ERROR reply is classified RESPONSE_ERROR, and the call returns RESPONSE_ERROR |
| Wire.SignalQualityMissingPayload | sim800l.c:182-189 | an OK reply without `+CSQ: ` gives RESPONSE_ERROR, not a number |
| Wire.SignalStrengthOneLooksLikeError | sim800l.c:175-189 | the report `+CSQ: 1,0` and an ERROR reply both return 0x1, so a reading of 1 cannot be told apart from a failure |

## Left out

- `HAL_UART_Transmit`, `HAL_UART_Receive` and `HAL_Delay` become trace events. The received bytes are an input.
  - Blocking under `HAL_MAX_DELAY`, and a receive that never completes, are outside a pure model.
  - A completed receive writes exactly 255 bytes, the first 255 of the caller's response buffer. Any bytes after them keep the caller's values.
- `SIM800L_GetSenderPhoneNumber`, `SIM800L_GetMessageContent` and `SIM800L_GetSMSState` are declared in sim800l.h but have no definition, so they have no behaviour to model.
- `cmd_flow_control` and `LEN_FLOW_CONTROL` are defined but never used. The same holds for `MSG_CONTENT_LEN`, `SMS_STATE_READ`, `SMS_STATE_UNREAD` and `SMS_STORAGE`.
- The STM32 platform includes and the `STM32WB` switch have no behaviour.
- Concurrent calls that share the static buffers are not modelled. Calls are sequential, and the buffers are threaded from one `Step` to the next.
- Driver.CheckResponse: requires the caller's response buffer to hold at least 255 bytes and a NUL somewhere in it. A buffer of 256 zeroed bytes meets this for every reply, since byte 255 stays NUL. Only a buffer with no NUL anywhere makes `strstr` read past its end, which is undefined behaviour.
- Driver.GetSignalQuality: requires that, after an OK reply, the number following the first `+CSQ: ` fits a 32-bit `int`. Otherwise `atoi` overflows, which is undefined behaviour.
- `response_ok` and `response_error` are declared exactly as long as their texts, so they carry no terminating NUL. Passing them to `strstr` is therefore undefined behaviour. The model searches for the 6- and 9-character markers the declarations spell out.
- The recipient number and the message text are modelled by their characters before the terminator; a C string holds no NUL.
- `char` is taken as an unsigned byte, as on ARM. `format_mode + '0'` is reduced modulo 256.
- The modem's `>` prompt is not awaited by the code. The model records the fixed 1000 ms delay as a `Delay` event, and adds no prompt check.
- Repeating a read on an unchanged modem gives the same result. This holds because every operation is a function of its inputs, so there is no separate lemma for it.

## Findings

The driver operations in `Driver` keep the capacities as declared, because what they model is the bytes the code actually sends. The corrected builders in `Commands` give each buffer one more byte, which is room for the terminator. With that byte, they prove that the intended command goes out whole.

| source | as written | input that shows it | evidently intended | confidence | as-written member | corrected member |
|---|---|---|---|---|---|---|
| sim800l.h:31 | CNMI buffer of 17 bytes, the length of the full command, so `snprintf` keeps 16 | mode=1, mt=2, bm=0, ds=0, buffer=1 sends `AT+CNMI=1,2,0,0,` | `AT+CNMI=1,2,0,0,1` | high, not executed | Wire.CnmiBufferDigitNeverSent | Commands.CnmiIntended |
| sim800l.h:37 | GSMBUSY buffer of 12 bytes keeps 11, exactly `AT+GSMBUSY=` | rejection_mode=1 sends `AT+GSMBUSY=` | `AT+GSMBUSY=1` | high, not executed | Wire.RejectCallModeNeverSent | Commands.RejectCallIntended |
| sim800l.h:29 | CMGD buffer of 10 bytes keeps 9, one index digit | sms_idx=12 sends `AT+CMGD=1`, which deletes message 1 | `AT+CMGD=12` | high, not executed | Wire.DeleteSmsSendsOneDigit | Commands.DeleteSmsIntended |
| sim800l.h:28 | CMGR buffer of 12 bytes keeps 11 | sms_idx=12, mode=0 sends `AT+CMGR=12,` | `AT+CMGR=12,0` | high, not executed | Wire.ReadSmsBytes | Commands.ReadSmsIntended |
| sim800l.c:47 | CMGS buffer of 22 bytes keeps 21 | recipient `+15551234567` sends `AT+CMGS="+15551234567` | `AT+CMGS="+15551234567"` | high, not executed | Wire.SendSmsCommandBytes | Commands.SendSmsIntended |
