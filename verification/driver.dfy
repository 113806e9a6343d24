/**
 The SIM800L transaction engine. Each public operation is a function from
 the driver's static buffers, its arguments and the bytes the UART delivers
 to the buffers after the call, the sequence of UART events it caused and
 the `uint8_t` it returns.
 */
module Driver {
  import opened Defs
  import opened CText
  import opened Numerals
  import opened Commands

  /** What the driver does on the UART, in order. */
  datatype Event =
    | Transmit(bytes: seq<char>)
    | Delay(ms: nat)
    | Receive

  /** The static command buffers; they keep their contents between calls. */
  datatype Statics = Statics(
    rejectCall: seq<char>,
    signalQuality: seq<char>,
    smsFormat: seq<char>,
    readSms: seq<char>,
    deleteSms: seq<char>,
    sendSms: seq<char>,
    cnmiMode: seq<char>)

  /** The buffers as the program image initialises them. */
  const Boot: Statics := Statics(
    RejectCallTemplate, SignalQualityCommand, SmsFormatTemplate,
    ReadSmsTemplate, DeleteSmsTemplate, SendSmsTemplate, CnmiTemplate)

  /** Every buffer keeps its declared size; the CSQ command and the CMGF prefix never change. */
  predicate Valid(st: Statics) {
    && |st.rejectCall| == LenRejectCall
    && st.signalQuality == SignalQualityCommand
    && |st.smsFormat| == SelectSmsMessageFormat
    && st.smsFormat[..SelectSmsMessageFormat - 1] == SmsFormatPrefix
    && |st.readSms| == ReadSmsMessage
    && |st.deleteSms| == DeleteSmsMessage
    && |st.sendSms| == SendSmsMessage + PhoneNumberLen
    && |st.cnmiMode| == LenCnmiMode
  }

  /** The initial buffers satisfy the invariant every operation keeps. */
  lemma BootIsValid()
    ensures Valid(Boot)
    ensures Boot.smsFormat == SmsFormatTemplate && Boot.sendSms == SendSmsTemplate
  {
  }

  /** One call: the buffers after it, its UART events, and its return value. */
  datatype Step = Step(statics: Statics, trace: seq<Event>, code: uint8)

  /**
   The caller's response buffer after a completed receive: its first
   BufferSize bytes are the ones received, any bytes after them are the
   caller's own, and a terminator lies somewhere in the whole buffer.
   */
  predicate ResponseBuffer(rx: seq<char>) {
    |rx| >= BufferSize && NUL in rx
  }

  /** `SIM800L_SendATCommand`: transmit the first `length` bytes of `command`. */
  function SendATCommand(command: seq<char>, length: uint8): (e: Event)
    requires length <= |command|
    ensures e.Transmit? && |e.bytes| == length && e.bytes <= command
  {
    Transmit(command[..length])
  }

  /**
   `SIM800L_CheckResponse` after its receive: OK when the OK marker occurs
   in the text before the first NUL, otherwise ERROR when the error marker
   does, otherwise no response. OK wins when both occur.
   */
  function CheckResponse(rx: seq<char>): (code: uint8)
    requires ResponseBuffer(rx)
    ensures code == ResponseOk <==> Contains(CStr(rx), OkMarker)
    ensures code == ResponseError
        <==> !Contains(CStr(rx), OkMarker) && Contains(CStr(rx), ErrorMarker)
    ensures code == NoResponse
        <==> !Contains(CStr(rx), OkMarker) && !Contains(CStr(rx), ErrorMarker)
  {
    if StrStr(rx, OkMarker).Some? then ResponseOk
    else if StrStr(rx, ErrorMarker).Some? then ResponseError
    else NoResponse
  }

  /** Bytes after the first NUL of a response never change its classification. */
  lemma CheckResponseIgnoresAfterNul(text: seq<char>, a: seq<char>, b: seq<char>)
    requires NulFree(text)
    requires ResponseBuffer(text + [NUL] + a) && ResponseBuffer(text + [NUL] + b)
    ensures CheckResponse(text + [NUL] + a) == CheckResponse(text + [NUL] + b)
    ensures CheckResponse(text + [NUL] + a) == ResponseOk <==> Contains(text, OkMarker)
  {
    CStrOfTerminated(text, a);
    CStrOfTerminated(text, b);
  }

  /**
   `SIM800L_SendSMS`: the CMGS command cut to its buffer, a fixed delay, the
   message text (its length taken modulo 256 by the `uint8_t` parameter),
   one Ctrl+Z byte, then one receive whose classification is returned.
   */
  function SendSms(st: Statics, recipient: seq<char>, msg: seq<char>, rx: seq<char>): (r: Step)
    requires Valid(st) && NulFree(recipient) && NulFree(msg) && ResponseBuffer(rx)
    ensures Valid(r.statics) && r.statics == st.(sendSms := r.statics.sendSms)
    ensures r.trace == [
              Transmit(Keep(CmgsText(recipient), SendSmsMessage + PhoneNumberLen)),
              Delay(1000),
              Transmit(msg[..|msg| % 0x100]),
              Transmit([CtrlZ]),
              Receive]
    ensures r.code == CheckResponse(rx)
  {
    var buf := Snprintf(st.sendSms, CmgsText(recipient));
    var command := SendATCommand(buf, ToUint8(StrLen(buf)));
    CStrOfTerminated(msg, []);
    var body := SendATCommand(msg + [NUL], ToUint8(StrLen(msg + [NUL])));
    assert (msg + [NUL])[..|msg| % 0x100] == msg[..|msg| % 0x100];
    Step(st.(sendSms := buf), [command, Delay(1000), body, Transmit([CtrlZ]), Receive], CheckResponse(rx))
  }

  /**
   `SIM800L_SetSMSFormat`: byte 8 of the persistent CMGF buffer becomes
   `format_mode + '0'` (wrapping as a byte, no range check) and all 9 bytes
   are sent.
   */
  function SetSmsFormat(st: Statics, formatMode: uint8, rx: seq<char>): (r: Step)
    requires Valid(st) && ResponseBuffer(rx)
    ensures Valid(r.statics) && r.statics == st.(smsFormat := r.statics.smsFormat)
    ensures r.trace == [Transmit(SmsFormatPrefix + [ToUint8(formatMode + '0' as int) as char]), Receive]
    ensures r.statics.smsFormat == r.trace[0].bytes
    ensures r.code == CheckResponse(rx)
  {
    var buf := st.smsFormat[SelectSmsMessageFormat - 1 := ToUint8(formatMode + '0' as int) as char];
    assert buf[..SelectSmsMessageFormat - 1] == st.smsFormat[..SelectSmsMessageFormat - 1];
    assert buf == buf[..SelectSmsMessageFormat - 1] + [buf[SelectSmsMessageFormat - 1]];
    assert buf[..SelectSmsMessageFormat] == buf;
    Step(st.(smsFormat := buf), [SendATCommand(buf, SelectSmsMessageFormat as uint8), Receive], CheckResponse(rx))
  }

  /**
   `SIM800L_SetSMSIndicationMode`: out-of-range parameters return
   INDEX_OUT_OF_RANGE with nothing sent or received; otherwise the CNMI
   command cut to its 17-byte buffer is sent and the response classified.
   */
  function SetSmsIndicationMode(st: Statics, mode: uint8, mt: uint8, bm: uint8, ds: uint8, buffer: uint8,
                                rx: seq<char>): (r: Step)
    requires Valid(st)
    requires CnmiInRange(mode, mt, bm, ds, buffer) ==> ResponseBuffer(rx)
    ensures !CnmiInRange(mode, mt, bm, ds, buffer) <==> r.trace == []
    ensures !CnmiInRange(mode, mt, bm, ds, buffer) ==> r == Step(st, [], IndexOutOfRange)
    ensures CnmiInRange(mode, mt, bm, ds, buffer) ==>
              && Valid(r.statics) && r.statics == st.(cnmiMode := r.statics.cnmiMode)
              && r.trace == [Transmit(Keep(CnmiText(mode, mt, bm, ds, buffer), LenCnmiMode)), Receive]
              && r.code == CheckResponse(rx)
  {
    if mode > 3 || mt > 3 || bm > 2 || ds > 1 || buffer > 1 then
      Step(st, [], IndexOutOfRange)
    else
      var buf := Snprintf(st.cnmiMode, CnmiText(mode, mt, bm, ds, buffer));
      Step(st.(cnmiMode := buf), [SendATCommand(buf, ToUint8(StrLen(buf))), Receive], CheckResponse(rx))
  }

  /** The value a CSQ reply reports: `atoi` of the text 6 bytes after the first marker. */
  function CsqValue(rx: seq<char>, p: nat): int
    requires ResponseBuffer(rx) && FirstAt(CStr(rx), CsqMarker, p)
  {
    Atoi(CStr(rx)[p + |CsqMarker|..])
  }

  /** `atoi` is defined on the reply: after an OK, the reported number fits an `int`. */
  predicate CsqReadable(rx: seq<char>)
    requires ResponseBuffer(rx)
  {
    Contains(CStr(rx), OkMarker) ==>
      forall p: nat :: p < |rx| && FirstAt(CStr(rx), CsqMarker, p) ==> InInt32(CsqValue(rx, p))
  }

  /**
   `SIM800L_GetSignalQuality`: sends the 6 bytes `AT+CSQ`; after an OK reply
   that contains `+CSQ: `, returns the number after the first such marker
   cast to `uint8_t`; otherwise RESPONSE_ERROR.
   */
  function GetSignalQuality(st: Statics, rx: seq<char>): (r: Step)
    requires Valid(st) && ResponseBuffer(rx) && CsqReadable(rx)
    ensures r.statics == st
    ensures r.trace == [Transmit(SignalQualityCommand), Receive]
    ensures !Contains(CStr(rx), OkMarker) || !Contains(CStr(rx), CsqMarker) ==> r.code == ResponseError
    ensures forall p: nat :: Contains(CStr(rx), OkMarker) && FirstAt(CStr(rx), CsqMarker, p) ==>
              r.code == ToUint8(CsqValue(rx, p))
  {
    var command := SendATCommand(st.signalQuality, LenSignalQuality as uint8);
    assert st.signalQuality[..LenSignalQuality] == st.signalQuality;
    var code :=
      if CheckResponse(rx) == ResponseOk then
        match StrStr(rx, CsqMarker)
        case Some(p) => ToUint8(Atoi(CStr(rx)[p + 6..]))
        case None => ResponseError
      else ResponseError;
    Step(st, [command, Receive], code)
  }

  /** `SIM800L_ReadSMS`: the CMGR command cut to its 12-byte buffer, then one classified receive. */
  function ReadSms(st: Statics, index: uint8, mode: uint8, rx: seq<char>): (r: Step)
    requires Valid(st) && ResponseBuffer(rx)
    ensures Valid(r.statics) && r.statics == st.(readSms := r.statics.readSms)
    ensures r.trace == [Transmit(Keep(CmgrText(index, mode), ReadSmsMessage)), Receive]
    ensures r.code == CheckResponse(rx)
  {
    var buf := Snprintf(st.readSms, CmgrText(index, mode));
    Step(st.(readSms := buf), [SendATCommand(buf, ToUint8(StrLen(buf))), Receive], CheckResponse(rx))
  }

  /** `SIM800L_DeleteSMS`: the CMGD command cut to its 10-byte buffer, then one classified receive. */
  function DeleteSms(st: Statics, index: uint8, rx: seq<char>): (r: Step)
    requires Valid(st) && ResponseBuffer(rx)
    ensures Valid(r.statics) && r.statics == st.(deleteSms := r.statics.deleteSms)
    ensures r.trace == [Transmit(Keep(CmgdText(index), DeleteSmsMessage)), Receive]
    ensures r.code == CheckResponse(rx)
  {
    var buf := Snprintf(st.deleteSms, CmgdText(index));
    Step(st.(deleteSms := buf), [SendATCommand(buf, ToUint8(StrLen(buf))), Receive], CheckResponse(rx))
  }

  /** `SIM800L_RejectIncomingCall`: the GSMBUSY command cut to its 12-byte buffer, then one classified receive. */
  function RejectIncomingCall(st: Statics, rejectionMode: uint8, rx: seq<char>): (r: Step)
    requires Valid(st) && ResponseBuffer(rx)
    ensures Valid(r.statics) && r.statics == st.(rejectCall := r.statics.rejectCall)
    ensures r.trace == [Transmit(Keep(GsmBusyText(rejectionMode), LenRejectCall)), Receive]
    ensures r.code == CheckResponse(rx)
  {
    var buf := Snprintf(st.rejectCall, GsmBusyText(rejectionMode));
    Step(st.(rejectCall := buf), [SendATCommand(buf, ToUint8(StrLen(buf))), Receive], CheckResponse(rx))
  }

  /**
   `SIM800L_FindCharacter`: the first index in the inclusive range
   [start, end] whose byte is `target`, or -1 when there is none.
   */
  method FindCharacter(buffer: seq<char>, start: uint8, end: uint8, target: char) returns (r: int)
    requires start <= end ==> end < |buffer|
    ensures r == -1 <==> forall i :: start <= i <= end ==> buffer[i] != target
    ensures r != -1 ==> start <= r <= end && buffer[r] == target
    ensures r != -1 ==> forall i :: start <= i < r ==> buffer[i] != target
  {
    var i: int := start;
    while i <= end
      invariant start <= i
      invariant start <= end ==> i <= end + 1
      invariant start > end ==> i == start
      invariant forall j :: start <= j < i ==> buffer[j] != target
    {
      if buffer[i] == target {
        return i;
      }
      i := i + 1;
    }
    return -1;
  }
}
