/**
 The command builder: the static command buffers with their initial
 contents, `snprintf` into a fixed-capacity buffer, and the full text of
 each AT command before it is cut to the buffer's capacity.
 */
module Commands {
  import opened Defs
  import opened CText
  import opened Numerals

  // Initial contents of the static buffers. Each literal exactly fills its
  // array, so none of them holds a terminating NUL.
  const RejectCallTemplate: seq<char> := "AT+GSMBUSY=x"
  const SignalQualityCommand: seq<char> := "AT+CSQ"
  const SmsFormatTemplate: seq<char> := "AT+CMGF=x"
  const ReadSmsTemplate: seq<char> := "AT+CMGR=xx,x"
  const DeleteSmsTemplate: seq<char> := "AT+CMGD=xx"
  const SendSmsTemplate: seq<char> := "AT+CMGS=\"+xxxxxxxxxxx\""
  const CnmiTemplate: seq<char> := "AT+CNMI=0,0,0,0,0"

  /** The part of the CMGF buffer that is never written. */
  const SmsFormatPrefix: seq<char> := "AT+CMGF="

  // Markers searched for in a response.
  const OkMarker: seq<char> := "\r\nOK\r\n"
  const ErrorMarker: seq<char> := "\r\nERROR\r\n"
  const CsqMarker: seq<char> := "+CSQ: "

  /** ASCII SUB (Ctrl+Z), which ends an SMS body. */
  const CtrlZ: char := 26 as char

  /**
   Every static buffer is exactly as long as its template text, so a
   formatted command keeps at most one character fewer than the template;
   the marker lengths and the CMGF digit position follow from the texts.
   */
  lemma TemplateCapacities()
    ensures |RejectCallTemplate| == LenRejectCall
    ensures |SignalQualityCommand| == LenSignalQuality
    ensures |SmsFormatTemplate| == SelectSmsMessageFormat
    ensures |ReadSmsTemplate| == ReadSmsMessage
    ensures |DeleteSmsTemplate| == DeleteSmsMessage
    ensures |SendSmsTemplate| == SendSmsMessage + PhoneNumberLen
    ensures |CnmiTemplate| == LenCnmiMode
    ensures |OkMarker| == LenOkResponse && |ErrorMarker| == LenErrorResponse
    ensures SmsFormatTemplate[..SelectSmsMessageFormat - 1] == SmsFormatPrefix
  {
  }

  /**
   `snprintf(buf, sizeof buf, ...)` producing `text`: at most sizeof-1
   characters are written, then a NUL; the bytes after it keep their old
   values. The buffer never grows and the string it then holds is the
   formatted text cut to the capacity.
   */
  function Snprintf(buf: seq<char>, text: seq<char>): (r: seq<char>)
    requires 1 <= |buf|
    requires NulFree(text)
    ensures |r| == |buf| && NUL in r
    ensures CStr(r) == Keep(text, |buf|)
    ensures |CStr(r)| < |buf|
  {
    var k := Min(|text|, |buf| - 1);
    var r := text[..k] + [NUL] + buf[k + 1..];
    CStrOfTerminated(text[..k], buf[k + 1..]);
    r
  }

  /** What survives of `text` in a buffer of `capacity` bytes: all but room for the NUL. */
  function Keep(text: seq<char>, capacity: nat): seq<char>
    requires 1 <= capacity
  {
    text[..Min(|text|, capacity - 1)]
  }

  /** The string a buffer holds after `snprintf` wrote `text` into it. */
  function Formatted(buf: seq<char>, text: seq<char>): (s: seq<char>)
    requires 1 <= |buf|
    requires NulFree(text)
    ensures |s| < |buf| && s <= text
    ensures |text| < |buf| ==> s == text
    ensures |text| >= |buf| ==> |s| == |buf| - 1
  {
    CStr(Snprintf(buf, text))
  }

  /** `AT+CMGS="<number>"` */
  function CmgsText(number: seq<char>): seq<char> {
    "AT+CMGS=\"" + number + "\""
  }

  /** `AT+CNMI=<mode>,<mt>,<bm>,<ds>,<buffer>` */
  function CnmiText(mode: uint8, mt: uint8, bm: uint8, ds: uint8, buffer: uint8): seq<char> {
    "AT+CNMI=" + Decimal(mode) + "," + Decimal(mt) + "," + Decimal(bm) + ","
      + Decimal(ds) + "," + Decimal(buffer)
  }

  /** `AT+CMGR=<index>,<mode>` */
  function CmgrText(index: uint8, mode: uint8): seq<char> {
    "AT+CMGR=" + Decimal(index) + "," + Decimal(mode)
  }

  /** `AT+CMGD=<index>` */
  function CmgdText(index: uint8): seq<char> {
    "AT+CMGD=" + Decimal(index)
  }

  /** `AT+GSMBUSY=<mode>` */
  function GsmBusyText(mode: uint8): seq<char> {
    "AT+GSMBUSY=" + Decimal(mode)
  }

  /** The ranges the indication-mode command accepts. */
  predicate CnmiInRange(mode: uint8, mt: uint8, bm: uint8, ds: uint8, buffer: uint8) {
    mode <= 3 && mt <= 3 && bm <= 2 && ds <= 1 && buffer <= 1
  }

  /** In-range CNMI parameters are single digits: the text is 17 characters. */
  lemma CnmiTextShape(mode: uint8, mt: uint8, bm: uint8, ds: uint8, buffer: uint8)
    requires CnmiInRange(mode, mt, bm, ds, buffer)
    ensures CnmiText(mode, mt, bm, ds, buffer)
         == "AT+CNMI=" + [DigitChar(mode), ',', DigitChar(mt), ',', DigitChar(bm), ',',
                          DigitChar(ds), ',', DigitChar(buffer)]
    ensures |CnmiText(mode, mt, bm, ds, buffer)| == LenCnmiMode
  {
  }

  // The commands as evidently intended: each buffer one byte larger than
  // its template text, so the terminator has room of its own.

  /** CNMI with room for the terminator: every parameter digit is kept. */
  function CnmiIntended(mode: uint8, mt: uint8, bm: uint8, ds: uint8, buffer: uint8): (cmd: seq<char>)
    requires CnmiInRange(mode, mt, bm, ds, buffer)
    ensures cmd == "AT+CNMI=" + [DigitChar(mode), ',', DigitChar(mt), ',', DigitChar(bm), ',',
                                 DigitChar(ds), ',', DigitChar(buffer)]
  {
    CnmiTextShape(mode, mt, bm, ds, buffer);
    Formatted(CnmiTemplate + [NUL], CnmiText(mode, mt, bm, ds, buffer))
  }

  /** GSMBUSY with room for the terminator: a one-digit mode is kept. */
  function RejectCallIntended(mode: uint8): (cmd: seq<char>)
    requires mode < 10
    ensures cmd == "AT+GSMBUSY=" + [DigitChar(mode)]
  {
    Formatted(RejectCallTemplate + [NUL], GsmBusyText(mode))
  }

  /** CMGD with room for the terminator: an index up to 99 is kept whole. */
  function DeleteSmsIntended(index: uint8): (cmd: seq<char>)
    requires index < 100
    ensures cmd == CmgdText(index)
    ensures 8 < |cmd| <= DeleteSmsMessage && cmd[..8] == "AT+CMGD="
    ensures Atoi(cmd[8..]) == index
  {
    var cmd := Formatted(DeleteSmsTemplate + [NUL], CmgdText(index));
    assert cmd == CmgdText(index);
    assert cmd[8..] == [] + Decimal(index) + [];
    AtoiOfDecimal([], index, []);
    cmd
  }

  /** CMGR with room for the terminator: an index up to 99 and its mode are kept. */
  function ReadSmsIntended(index: uint8, mode: uint8): (cmd: seq<char>)
    requires index < 100 && mode < 10
    ensures cmd == "AT+CMGR=" + Decimal(index) + [',', DigitChar(mode)]
  {
    Formatted(ReadSmsTemplate + [NUL], CmgrText(index, mode))
  }

  /** CMGS with room for the terminator: a 12-character number keeps its closing quote. */
  function SendSmsIntended(number: seq<char>): (cmd: seq<char>)
    requires NulFree(number) && |number| <= PhoneNumberLen
    ensures cmd == CmgsText(number)
    ensures |cmd| == |number| + 10 && cmd[..9] == "AT+CMGS=\"" && cmd[|cmd| - 1] == '"'
    ensures cmd[9..|cmd| - 1] == number
  {
    Formatted(SendSmsTemplate + [NUL], CmgsText(number))
  }
}
